/**
  Lookups end. Each round of visits enlarges the visited set, so with candidates from a
  finite set of addresses there are finitely many rounds; and once a lookup has been quiet
  for the request timeout, the next tick reports it.
 */
module RpcLiveness {
  import opened Ids
  import opened Bep42
  import opened Nodes
  import opened RoutingTable
  import opened Sockets
  import opened IterativeQueries
  import opened Rpc
  import opened RpcReports
  import opened RpcSockets
  import opened Actor

  // --- one lookup among the others ---

  /** The given ids were issued since `born`, and those still waiting were sent by `last`. */
  ghost predicate SentBy(tids: seq<Tid>, born: nat, sock: Socket, last: int) {
    && (forall t :: t in tids ==> Issued(t, born, sock.sent))
    && (forall t :: t in tids && t in sock.requests ==> sock.requests[t].sentAt <= last)
  }

  lemma IssuedDisjoint(t: Tid, a: nat, b: nat, c: nat)
    requires a <= b <= c <= a + TID_SPACE && Issued(t, a, b)
    ensures !Issued(t, b, c)
  {
  }

  /** While ids are not reused, what others do leaves a lookup's ids alone. */
  lemma SentByEvolves(tids: seq<Tid>, born: nat, a: Socket, b: Socket, last: int, now: int)
    requires SentBy(tids, born, a, last) && Evolves(a, b, now)
    requires born <= a.sent && b.sent <= born + TID_SPACE
    ensures SentBy(tids, born, b, last)
  {
    hide Issued;
    forall t | t in tids
      ensures Issued(t, born, b.sent)
      ensures t in b.requests ==> b.requests[t].sentAt <= last
    {
      IssuedSplit(t, born, a.sent, b.sent);
      IssuedDisjoint(t, born, a.sent, b.sent);
    }
  }

  lemma SentByVisit(q: Query, a: Socket, last: int, now: int)
    requires SentBy(q.inflight, q.born, a, last) && q.born <= a.sent && last <= now
    requires VisitClosest(q, a, now).1.sent <= q.born + TID_SPACE
    ensures var (q', b) := VisitClosest(q, a, now); SentBy(q'.inflight, q'.born, b, now)
    ensures VisitClosest(q, a, now).0.born == q.born
  {
    hide Issued, VisitClosest;
    var (q', b) := VisitClosest(q, a, now);
    VisitClosestEffect(q, a, now);
    forall t | t in q'.inflight
      ensures Issued(t, q.born, b.sent)
      ensures t in b.requests ==> b.requests[t].sentAt <= now
    {
      VisitedTids(q, a, q', b, t);
      IssuedSplit(t, q.born, a.sent, b.sent);
    }
  }

  /** From before a tick to after it: nothing happened, or a round of visits at `now`. */
  ghost predicate Progress(q: Query, q': Query, sock': Socket, last: int, now: int) {
    && q'.born == q.born && q'.request == q.request
    && q'.visited <= q.visited + (set n | n in q.closest :: n.address)
    && ((q'.visited == q.visited && SentBy(q'.inflight, q'.born, sock', last)) ||
        (q.visited < q'.visited && SentBy(q'.inflight, q'.born, sock', now)))
  }

  /** The tick of one lookup: when it is not done and nothing was visited, some request is
      younger than the timeout. */
  lemma TickQueryProgress(q: Query, sock: Socket, last: int, now: int)
    requires SentBy(q.inflight, q.born, sock, last) && q.born <= sock.sent && last <= now
    requires TickQuery(q, sock, now).1.sent <= q.born + TID_SPACE
    ensures var (q', sock', done) := TickQuery(q, sock, now);
            && Progress(q, q', sock', last, now)
            && (!done && q'.visited == q.visited ==> now < last + sock.timeout)
            && (done ==> (forall t :: t in q'.inflight ==> !Inflight(sock', t, now)) &&
                         (forall n :: n in Top(q') ==> n.address in q'.visited))
            && q'.closest == q.closest && q'.responders == q.responders
  {
    hide Issued, VisitClosest;
    var (q', sock') := VisitClosest(q, sock, now);
    VisitClosestEffect(q, sock, now);
    SentByVisit(q, sock, last, now);
  }

  lemma {:induction false} TickGetsProgress(queries: map<Id, Query>, sock: Socket, order: seq<Id>, edk: nat, subnets: nat,
                                            now: int, id: Id, last: int)
    requires NoDuplicates(order) && id in queries && last <= now
    requires SentBy(queries[id].inflight, queries[id].born, sock, last) && queries[id].born <= sock.sent
    requires TickGets(queries, sock, order, edk, subnets, now).1.sent <= queries[id].born + TID_SPACE
    ensures var (qs, sock', dones) := TickGets(queries, sock, order, edk, subnets, now);
            && id in qs
            && (id !in order ==> qs[id] == queries[id] && SentBy(qs[id].inflight, qs[id].born, sock', last))
            && (id in order ==> Progress(queries[id], qs[id], sock', last, now) && qs[id].closest == queries[id].closest)
            && (id in order && id !in DoneIds(dones) && qs[id].visited == queries[id].visited ==> now < last + sock.timeout)
    decreases |order|
  {
    hide Issued, TickQuery, SentBy, Evolves, MakeDone;
    if order != [] {
      assert order == [order[0]] + order[1..];
      assert order[0] !in order[1..];
      if order[0] !in queries {
        TickGetsProgress(queries, sock, order[1..], edk, subnets, now, id, last);
      } else {
        var (q, sock1, done) := TickQuery(queries[order[0]], sock, now);
        var queries1 := queries[order[0] := q];
        var (qs, sock2, rest) := TickGets(queries1, sock1, order[1..], edk, subnets, now);
        TickQueryEvolves(queries[order[0]], sock, now);
        TickGetsEvolves(queries1, sock1, order[1..], edk, subnets, now);
        EvolvesSent(sock, sock1, now);
        EvolvesSent(sock1, sock2, now);
        MakeDoneId(order[0], q, edk, subnets);
        if order[0] == id {
          TickQueryProgress(queries[id], sock, last, now);
          TickGetsUntouched(queries1, sock1, order[1..], edk, subnets, now, id);
          SentByEvolves(q.inflight, q.born, sock1, sock2, if q.visited == queries[id].visited then last else now, now);
          if done {
            var all := [MakeDone(id, q, edk, subnets)] + rest;
            assert all[0] in all;
          }
        } else {
          SentByEvolves(queries[id].inflight, queries[id].born, sock, sock1, last, now);
          TickGetsProgress(queries1, sock1, order[1..], edk, subnets, now, id, last);
          assert forall d :: d in rest ==> d in TickGets(queries, sock, order, edk, subnets, now).2;
        }
      }
    }
  }

  lemma EvolvesSent(a: Socket, b: Socket, now: int)
    requires Evolves(a, b, now)
    ensures a.sent <= b.sent && a.timeout == b.timeout
  {
  }

  lemma {:induction false} TickGetsUntouched(queries: map<Id, Query>, sock: Socket, order: seq<Id>, edk: nat, subnets: nat, now: int, id: Id)
    requires id in queries && id !in order
    ensures var (qs, _, dones) := TickGets(queries, sock, order, edk, subnets, now);
            id in qs && qs[id] == queries[id]
    decreases |order|
  {
    hide TickQuery, MakeDone;
    if order != [] {
      if order[0] !in queries {
        TickGetsUntouched(queries, sock, order[1..], edk, subnets, now, id);
      } else {
        var (q, sock1, done) := TickQuery(queries[order[0]], sock, now);
        TickGetsUntouched(queries[order[0] := q], sock1, order[1..], edk, subnets, now, id);
      }
    }
  }

  /** A message can teach a lookup new candidates but changes neither its ids nor its visits. */
  lemma MessageKeepsLookup(e: Env, s: State, packet: Option<Packet>, now: int, id: Id)
    requires id in s.queries
    ensures var s' := HandleMessage(e, s, packet, now).0;
            && id in s'.queries
            && s'.queries[id].inflight == s.queries[id].inflight && s'.queries[id].born == s.queries[id].born
            && s'.queries[id].visited == s.queries[id].visited && s'.queries[id].request == s.queries[id].request
            && s'.queries[id].primary == s.queries[id].primary
  {
    hide StartLookup, TableAdd, AnswerQuery, AnswerPut, SecureId, IsValidForIp, DeliveredValue, Receive, Tidy, HandleRequest;
    if packet.Some? {
      var p := packet.value;
      var (sock, delivered) := Receive(s.socket, Datagram(IsRequest(p.message.body), p.message.tid, p.from), now);
      RequestOnlyAdds(e, s.(socket := sock), p, now);
      forall q: Query ensures var q' := AnswerQuery(e, q, p.from, p.message, now);
        q'.inflight == q.inflight && q'.born == q.born && q'.visited == q.visited && q'.request == q.request && q'.primary == q.primary
      {
        AnswerKeepsIds(e, q, p.from, p.message, now);
      }
    }
  }

  lemma AnswerKeepsIds(e: Env, q: Query, from: Address, m: Message, now: int)
    ensures var q' := AnswerQuery(e, q, from, m, now);
            && q'.inflight == q.inflight && q'.born == q.born && q'.visited == q.visited
            && q'.request == q.request && q'.primary == q.primary
  {
    hide ClosestNodes.AddAll, ClosestNodes.Insert, Bump, DeliveredValue;
  }

  /** One tick of the engine, seen from one lookup: it is reported done, or a round of visits
      took place, or its last request is younger than the timeout. */
  lemma TickProgress(e: Env, s: State, i: TickInput, id: Id, last: int)
    requires ValidInput(s, i) && id in s.queries && last <= i.now
    requires SentBy(s.queries[id].inflight, s.queries[id].born, s.socket, last) && s.queries[id].born <= s.socket.sent
    requires Tick(e, s, i).0.socket.sent <= s.queries[id].born + TID_SPACE
    ensures var (s', report) := Tick(e, s, i);
            id in DoneIds(report.gets) ||
            (id in s'.queries && Progress(s.queries[id], s'.queries[id], s'.socket, last, i.now) &&
             (s'.queries[id].visited == s.queries[id].visited ==> i.now < last + s.socket.timeout))
    ensures Tick(e, s, i).0.socket.timeout == s.socket.timeout
  {
    hide Issued, SentBy, Evolves, TickGets, FinishAll, Maintain, HandleMessage, TickPuts, NoDuplicates, ExpectedDk, QueryCache.AverageSubnets;
    var edk, subnets := ExpectedDk(e, s.cache), QueryCache.AverageSubnets(s.cache);
    var (queries, sock, dones) := TickGets(s.queries, s.socket, i.getOrder, edk, subnets, i.now);
    var s0 := s.(queries := queries, socket := sock);
    var s1 := Settle(e, s, i).0;
    var s2 := Maintain(e, s1, i.now);
    var s3 := HandleMessage(e, s2, i.packet, i.now).0;
    TickEvolves(e, s, i);
    EvolvesSent(s.socket, s3.socket, i.now);
    FinishAllEvolves(e, s0, dones, i.voteOrder, i.now);
    MaintainEvolves(e, s1, i.now);
    HandleMessageEvolves(e, s2, i.packet, i.now);
    EvolvesTransitive(sock, s1.socket, s2.socket, i.now);
    EvolvesTransitive(sock, s2.socket, s3.socket, i.now);
    TickGetsEvolves(s.queries, s.socket, i.getOrder, edk, subnets, i.now);
    EvolvesSent(s.socket, sock, i.now);
    EvolvesSent(sock, s3.socket, i.now);
    TickGetsProgress(s.queries, s.socket, i.getOrder, edk, subnets, i.now, id, last);
    if id !in DoneIds(dones) {
      TickGetsReports(s.queries, s.socket, i.getOrder, edk, subnets, i.now);
      FinishAllReports(e, s0, dones, i.voteOrder, i.now);
      MaintainOnlyAdds(e, s1, i.now);
      MessageKeepsLookup(e, s2, i.packet, i.now, id);
      var q, q' := s.queries[id], s3.queries[id];
      SentByEvolves(q'.inflight, q'.born, sock, s3.socket, if q'.visited == q.visited then last else i.now, i.now);
    }
  }

  // --- whole runs ---

  lemma AcceptKeepsLookups(e: Env, a: Loop, m: ActorMessage, now: int)
    ensures var a' := Accept(e, a, m, now).0;
            && Evolves(a.rpc.socket, a'.rpc.socket, now)
            && forall id :: id in a.rpc.queries ==> id in a'.rpc.queries && a'.rpc.queries[id] == a.rpc.queries[id]
  {
    hide Evolves, SubmitPut, StartLookup, SeedAll, Replay;
    EvolvesReflexive(a.rpc.socket, now);
    match m
    case Put(request, _, extra) => SubmitPutEvolves(e, a.rpc, request, extra, now);
    case Get(request, _) =>
      LookupOnlyAdds(e, a.rpc, request, [], now);
      LookupEvolves(e, a.rpc, request, [], now);
    case SeedRouting(_) =>
    case Idle =>
  }

  /** The state before the tick of the last iteration, and its report. */
  function BeforeTick(e: Env, a: Loop, i: Input): State {
    Accept(e, a, i.message, i.tick.now).0.rpc
  }

  function ReportOf(e: Env, a: Loop, i: Input): Report {
    Tick(e, BeforeTick(e, a, i), i.tick).1
  }

  lemma IterateRpc(e: Env, a: Loop, i: Input)
    ensures Iterate(e, a, i).0.rpc == Tick(e, BeforeTick(e, a, i), i.tick).0
  {
    hide Accept, Tick, AnswerGets, AnswerPuts;
    var a1 := Accept(e, a, i.message, i.tick.now).0;
    var (rpc, report) := Tick(e, a1.rpc, i.tick);
    CloseKeepsRpc(a1.(rpc := rpc), report.gets, report.puts);
  }

  lemma {:induction false} CloseKeepsRpc(a: Loop, dones: seq<Done>, results: seq<(Id, PutResult)>)
    ensures CloseGets(a, dones).0.rpc == a.rpc
    ensures ClosePuts(CloseGets(a, dones).0, results).0.rpc == a.rpc
  {
    hide CloseGets, ClosePuts, PutIds, DoneIds, Occurs, SenderOccurs;
    CloseGetsConserves(a, dones, seq(20, _ => 0), 0);
    ClosePutsConserves(CloseGets(a, dones).0, results, seq(20, _ => 0), 0);
  }

  /** Throughout the run the lookup for `id` is alive and not reported, its candidates lie in
      `space`, iterations are at most `gap` apart and no id is reused during its life. */
  ghost predicate StaysOpen(e: Env, a: Loop, inputs: seq<Input>, id: Id, space: set<Address>, start: int, gap: nat)
    decreases |inputs|
  {
    && id in a.rpc.queries
    && (set n | n in a.rpc.queries[id].closest :: n.address) <= space
    && (inputs != [] ==>
          var i := inputs[0];
          && start <= i.tick.now <= start + gap
          && ValidIteration(e, a, i)
          && id !in DoneIds(ReportOf(e, a, i).gets)
          && Iterate(e, a, i).0.rpc.socket.sent <= a.rpc.queries[id].born + TID_SPACE
          && StaysOpen(e, Iterate(e, a, i).0, inputs[1..], id, space, i.tick.now, gap))
  }

  function EndTime(inputs: seq<Input>, start: int): int {
    if inputs == [] then start else EndTime(inputs[1..], inputs[0].tick.now)
  }

  /** The latest moment at which a lookup that last sent at `last` and has visited `visited`
      addresses of `space` can still be open. */
  function Deadline(space: nat, visited: nat, last: int, timeout: nat, gap: nat): int
    requires visited <= space
  {
    last + timeout + (space - visited) * (timeout + gap)
  }

  lemma DeadlineShrinks(space: nat, v: nat, v': nat, last: int, now: int, timeout: nat, gap: nat)
    requires v < v' <= space && now <= last + timeout + gap
    ensures Deadline(space, v', now, timeout, gap) <= Deadline(space, v, last, timeout, gap)
  {
    var step := timeout + gap;
    assert (space - v') * step <= (space - v - 1) * step by {
      Scale(space - v', space - v - 1, step);
    }
    assert (space - v) * step == (space - v - 1) * step + step;
  }

  lemma ProperSubsetSize(a: set<Address>, b: set<Address>)
    requires a < b
    ensures |a| < |b|
  {
    assert b == a + (b - a);
  }

  /** The iterations of a run in which the lookup visited someone. */
  ghost function Rounds(e: Env, a: Loop, inputs: seq<Input>, id: Id): nat
    decreases |inputs|
  {
    if inputs == [] || id !in a.rpc.queries then 0
    else
      var b := Iterate(e, a, inputs[0]).0;
      (if id in b.rpc.queries && b.rpc.queries[id].visited != a.rpc.queries[id].visited then 1 else 0) +
      Rounds(e, b, inputs[1..], id)
  }

  /** A lookup whose candidates come from a finite set of addresses ends. It makes at most one
      round of visits for every address it has not visited yet; and as long as it is open the
      clock has not passed its deadline, one timeout plus a timeout and a gap per address. */
  lemma {:induction false} LookupsTerminate(e: Env, a: Loop, inputs: seq<Input>, id: Id, space: set<Address>,
                                            start: int, gap: nat, last: int)
    requires StaysOpen(e, a, inputs, id, space, start, gap)
    requires last <= start < last + a.rpc.socket.timeout
    requires var q := a.rpc.queries[id];
             q.born <= a.rpc.socket.sent && q.visited <= space && SentBy(q.inflight, q.born, a.rpc.socket, last)
    ensures |a.rpc.queries[id].visited| <= |space|
    ensures Rounds(e, a, inputs, id) <= |space| - |a.rpc.queries[id].visited|
    ensures EndTime(inputs, start) < Deadline(|space|, |a.rpc.queries[id].visited|, last, a.rpc.socket.timeout, gap)
    decreases |inputs|
  {
    hide SentBy, Evolves, Tick, Accept, ValidInput, Issued, Iterate;
    var q := a.rpc.queries[id];
    var timeout := a.rpc.socket.timeout;
    SubsetSize(q.visited, space);
    assert (|space| - |q.visited|) * (timeout + gap) >= 0 by { Scale(0, |space| - |q.visited|, timeout + gap); }
    if inputs != [] {
      var i := inputs[0];
      var b, s := Iterate(e, a, i).0, BeforeTick(e, a, i);
      var now := i.tick.now;
      assert q.born <= a.rpc.socket.sent;
      IterateRpc(e, a, i);
      StepKeepsOpen(e, a, i, id, last);
      var q' := b.rpc.queries[id];
      var last' := if q'.visited == q.visited then last else now;
      LookupsTerminate(e, b, inputs[1..], id, space, now, gap, last');
      if q'.visited != q.visited {
        ProperSubsetSize(q.visited, q'.visited);
        DeadlineShrinks(|space|, |q.visited|, |q'.visited|, last, now, timeout, gap);
      }
    }
  }

  /** One iteration that does not report the lookup. */
  lemma StepKeepsOpen(e: Env, a: Loop, i: Input, id: Id, last: int)
    requires id in a.rpc.queries && last <= i.tick.now
    requires ValidInput(BeforeTick(e, a, i), i.tick) && id !in DoneIds(ReportOf(e, a, i).gets)
    requires Iterate(e, a, i).0.rpc.socket.sent <= a.rpc.queries[id].born + TID_SPACE
    requires a.rpc.queries[id].born <= a.rpc.socket.sent
    requires SentBy(a.rpc.queries[id].inflight, a.rpc.queries[id].born, a.rpc.socket, last)
    ensures var b := Iterate(e, a, i).0;
            && id in b.rpc.queries
            && Progress(a.rpc.queries[id], b.rpc.queries[id], b.rpc.socket, last, i.tick.now)
            && (b.rpc.queries[id].visited == a.rpc.queries[id].visited ==> i.tick.now < last + a.rpc.socket.timeout)
            && b.rpc.queries[id].born <= b.rpc.socket.sent
            && b.rpc.socket.timeout == a.rpc.socket.timeout
  {
    hide SentBy, Evolves, Tick, Accept, ValidInput, Issued, Progress, Iterate;
    var s, q := BeforeTick(e, a, i), a.rpc.queries[id];
    IterateRpc(e, a, i);
    AcceptKeepsLookups(e, a, i.message, i.tick.now);
    EvolvesSent(a.rpc.socket, s.socket, i.tick.now);
    TickEvolves(e, s, i.tick);
    EvolvesSent(s.socket, Tick(e, s, i.tick).0.socket, i.tick.now);
    SentByEvolves(q.inflight, q.born, a.rpc.socket, s.socket, last, i.tick.now);
    TickProgress(e, s, i.tick, id, last);
    ProgressBorn(q, Tick(e, s, i.tick).0.queries[id], Tick(e, s, i.tick).0.socket, last, i.tick.now);
  }

  lemma ProgressBorn(q: Query, q': Query, sock': Socket, last: int, now: int)
    requires Progress(q, q', sock', last, now)
    ensures q'.born == q.born
  {
  }
}
