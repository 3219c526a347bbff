/**
  Every put resolves in bounded time: while its lookup is open it waits for it, at most
  until the lookup's deadline; then its own requests are out, and one timeout later the
  next tick reports it.
 */
module RpcResolution {
  import opened Ids
  import opened Bep42
  import opened Nodes
  import opened Sockets
  import opened IterativeQueries
  import opened QueryCache
  import opened Rpc
  import opened RpcReports
  import opened RpcSockets
  import opened RpcLiveness
  import opened RpcEngine
  import opened RpcPuts
  import opened Actor

  /** The ids of the put were issued since it was created, and sent by `last`. */
  ghost predicate PutSentBy(p: P.Put, sock: Socket, last: int) {
    p.born <= sock.sent && SentBy(p.inflight, p.born, sock, last)
  }

  lemma PutSentByEvolves(p: P.Put, a: Socket, b: Socket, last: int, now: int)
    requires PutSentBy(p, a, last) && Evolves(a, b, now) && b.sent <= p.born + TID_SPACE
    ensures PutSentBy(p, b, last)
  {
    hide SentBy, Evolves;
    EvolvesSent(a, b, now);
    SentByEvolves(p.inflight, p.born, a, b, last, now);
  }

  /** A started put whose requests are all older than the timeout is reported by the next tick. */
  lemma StartedPutCompletes(e: Env, s: State, i: TickInput, t: Id, last: int)
    requires ValidInput(s, i) && t in s.puts && P.Started(s.puts[t])
    requires PutSentBy(s.puts[t], s.socket, last) && last + s.socket.timeout <= i.now
    ensures t in PutIds(Tick(e, s, i).1.puts)
  {
    hide TickPuts, TickGets, FinishAll, Maintain, HandleMessage, NoDuplicates, PutIds, Issued, P.MajorityRejected,
         P.MostCommonError, ExpectedDk, AverageSubnets, PollsTo;
    var p := s.puts[t];
    TickPutsReports(s.puts, s.socket, i.putOrder, i.now);
    assert P.IsDone(p, s.socket, i.now);
    assert P.PollCompletion(p, s.socket, i.now) != P.Pending;
    var polled := TickPuts(s.puts, s.socket, i.putOrder, i.now);
    var (queries, sock, dones) := TickGets(s.queries, s.socket, i.getOrder, ExpectedDk(e, s.cache), AverageSubnets(s.cache), i.now);
    PutIdsConcat(polled, FinishAll(e, s.(queries := queries, socket := sock), dones, i.voteOrder, i.now).1);
  }

  // --- the requests of a put through a tick ---

  lemma StartSentBy(p: P.Put, a: Socket, closest: seq<Node>, now: int, last: int)
    requires PutSentBy(p, a, last) && last <= now && !P.Started(p)
    requires P.Start(p, a, closest, now).1.sent <= p.born + TID_SPACE
    ensures var (p', b, _) := P.Start(p, a, closest, now); p'.born == p.born && PutSentBy(p', b, now)
  {
    hide Issued, P.Start;
    var (p', b, _) := P.Start(p, a, closest, now);
    StartExtends(p, a, closest, now);
    forall x | x in p'.inflight
      ensures Issued(x, p.born, b.sent)
      ensures x in b.requests ==> b.requests[x].sentAt <= now
    {
      var i :| 0 <= i < |p'.inflight| && p'.inflight[i] == x;
      IssuedSplit(x, p.born, a.sent, b.sent);
    }
  }

  lemma FinishOneSentBy(e: Env, s: State, done: Done, voteOrder: VoteOrders, now: int, t: Id, last: int)
    requires t in s.puts && PutSentBy(s.puts[t], s.socket, last) && last <= now
    requires FinishOne(e, s, done, voteOrder, now).0.socket.sent <= s.puts[t].born + TID_SPACE
    ensures var s' := FinishOne(e, s, done, voteOrder, now).0;
            && t in s'.puts && s'.puts[t].born == s.puts[t].born
            && PutSentBy(s'.puts[t], s'.socket, now)
            && (s'.puts[t] == s.puts[t] ==> PutSentBy(s'.puts[t], s'.socket, last))
  {
    hide BestAddress, CacheQuery, CacheEntry, P.Start, Evolves, PutSentBy, Extends, Request;
    FinishOneReports(e, s, done, voteOrder, now);
    FinishOneEvolves(e, s, done, voteOrder, now);
    var s' := FinishOne(e, s, done, voteOrder, now).0;
    if s'.puts[t] == s.puts[t] {
      PutSentByEvolves(s.puts[t], s.socket, s'.socket, last, now);
      PutSentByLater(s'.puts[t], s'.socket, last, now);
    } else {
      var q := s.queries[done.id];
      var s1 := UpdateVotes(s.(queries := s.queries - {done.id}), q, OrderFor(voteOrder, done.id), now);
      EvolvesReflexive(s.socket, now);
      if BestAddress(q.votes, OrderFor(voteOrder, done.id)).Some? {
        RequestEvolves(s.socket, BestAddress(q.votes, OrderFor(voteOrder, done.id)).value, now);
      }
      StartExtends(s.puts[t], s1.socket, done.closest, now);
      ExtendsGrows(s1.socket, P.Start(s.puts[t], s1.socket, done.closest, now).1, now);
      PutSentByEvolves(s.puts[t], s.socket, s1.socket, last, now);
      StartSentBy(s.puts[t], s1.socket, done.closest, now, last);
    }
  }

  lemma PutSentByLater(p: P.Put, sock: Socket, last: int, later: int)
    requires PutSentBy(p, sock, last) && last <= later
    ensures PutSentBy(p, sock, later)
  {
    hide Issued;
  }

  lemma {:induction false} FinishAllSentBy(e: Env, s: State, dones: seq<Done>, voteOrder: VoteOrders, now: int, t: Id, last: int)
    requires t in s.puts && PutSentBy(s.puts[t], s.socket, last) && last <= now
    requires FinishAll(e, s, dones, voteOrder, now).0.socket.sent <= s.puts[t].born + TID_SPACE
    ensures var s' := FinishAll(e, s, dones, voteOrder, now).0;
            && t in s'.puts && s'.puts[t].born == s.puts[t].born
            && PutSentBy(s'.puts[t], s'.socket, now)
            && (P.Started(s.puts[t]) ==> PutSentBy(s'.puts[t], s'.socket, last) && P.Started(s'.puts[t]))
    decreases |dones|
  {
    hide FinishOne, PutSentBy, Evolves, P.Started;
    if dones == [] {
      PutSentByLater(s.puts[t], s.socket, last, now);
    } else {
      var s1 := FinishOne(e, s, dones[0], voteOrder, now).0;
      var s2 := FinishAll(e, s1, dones[1..], voteOrder, now).0;
      FinishAllEvolves(e, s1, dones[1..], voteOrder, now);
      EvolvesSent(s1.socket, s2.socket, now);
      FinishOneSentBy(e, s, dones[0], voteOrder, now, t, last);
      FinishOneReports(e, s, dones[0], voteOrder, now);
      FinishAllSentBy(e, s1, dones[1..], voteOrder, now, t, if P.Started(s.puts[t]) then last else now);
    }
  }

  /** Through one tick that does not report the put. */
  lemma TickSentBy(e: Env, s: State, i: TickInput, t: Id, last: int)
    requires ValidInput(s, i) && t in s.puts && PutSentBy(s.puts[t], s.socket, last) && last <= i.now
    requires Tick(e, s, i).0.socket.sent <= s.puts[t].born + TID_SPACE
    requires t !in PutIds(Tick(e, s, i).1.puts)
    ensures var s' := Tick(e, s, i).0;
            && t in s'.puts && s'.puts[t].born == s.puts[t].born
            && PutSentBy(s'.puts[t], s'.socket, i.now)
            && (P.Started(s.puts[t]) ==> PutSentBy(s'.puts[t], s'.socket, last) && P.Started(s'.puts[t]))
  {
    hide TickPuts, TickGets, FinishAll, Maintain, HandleMessage, NoDuplicates, PutIds, DoneIds, PutSentBy, Evolves, ExpectedDk, AverageSubnets;
    var edk, subnets := ExpectedDk(e, s.cache), AverageSubnets(s.cache);
    var (queries, sock, dones) := TickGets(s.queries, s.socket, i.getOrder, edk, subnets, i.now);
    var s0 := s.(queries := queries, socket := sock);
    var f := FinishAll(e, s0, dones, i.voteOrder, i.now).0;
    var s1 := Settle(e, s, i).0;
    var s2 := Maintain(e, s1, i.now);
    var s3 := HandleMessage(e, s2, i.packet, i.now).0;
    TickGetsEvolves(s.queries, s.socket, i.getOrder, edk, subnets, i.now);
    FinishAllEvolves(e, s0, dones, i.voteOrder, i.now);
    MaintainEvolves(e, s1, i.now);
    HandleMessageEvolves(e, s2, i.packet, i.now);
    EvolvesTransitive(s1.socket, s2.socket, s3.socket, i.now);
    EvolvesSent(s.socket, sock, i.now);
    EvolvesSent(sock, s1.socket, i.now);
    EvolvesSent(s1.socket, s3.socket, i.now);
    PutSentByEvolves(s.puts[t], s.socket, sock, last, i.now);
    FinishAllSentBy(e, s0, dones, i.voteOrder, i.now, t, last);
    MaintainOnlyAdds(e, s1, i.now);
    MessageKeepsPutIds(e, s2, i.packet, i.now, t);
    var p, p' := f.puts[t], s3.puts[t];
    assert p'.inflight == p.inflight && p'.born == p.born;
    PutSentByEvolves(p, s1.socket, s3.socket, i.now, i.now);
    PutSentByFields(p, p', s3.socket, i.now);
    if P.Started(s.puts[t]) {
      PutSentByEvolves(p, s1.socket, s3.socket, last, i.now);
      PutSentByFields(p, p', s3.socket, last);
    }
  }

  lemma PutSentByFields(p: P.Put, p': P.Put, sock: Socket, last: int)
    requires PutSentBy(p, sock, last) && p'.inflight == p.inflight && p'.born == p.born
    ensures PutSentBy(p', sock, last)
  {
  }

  // --- runs ---

  /** Throughout the run the put on `t` is neither reported nor displaced by an admitted put,
      iterations are at most `gap` apart and no id is reused; and until it starts, candidates of
      its lookup lie in `space`. */
  ghost predicate StaysUnresolved(e: Env, a: Loop, inputs: seq<Input>, t: Id, space: set<Address>, start: int, gap: nat)
    decreases |inputs|
  {
    && t in a.rpc.puts
    && (!P.Started(a.rpc.puts[t]) && t in a.rpc.queries ==>
          (set n | n in a.rpc.queries[t].closest :: n.address) <= space)
    && (inputs != [] ==>
          var i := inputs[0];
          && start <= i.tick.now <= start + gap
          && ValidIteration(e, a, i)
          && !AdmitsPut(a, i.message, t)
          && t !in PutIds(ReportOf(e, a, i).puts)
          && Iterate(e, a, i).0.rpc.socket.sent <= a.rpc.puts[t].born + TID_SPACE
          && (!P.Started(a.rpc.puts[t]) && t in a.rpc.queries ==>
                Iterate(e, a, i).0.rpc.socket.sent <= a.rpc.queries[t].born + TID_SPACE)
          && StaysUnresolved(e, Iterate(e, a, i).0, inputs[1..], t, space, i.tick.now, gap))
  }

  /** Where the put stands: its own requests were sent by `last`, or it waits for a lookup that
      last sent by `last`. */
  ghost predicate Standing(s: State, t: Id, space: set<Address>, last: int) {
    && t in s.puts && PutSentBy(s.puts[t], s.socket, last)
    && (!P.Started(s.puts[t]) ==>
          && ValueLookup(s, t)
          && s.queries[t].born <= s.socket.sent && s.queries[t].visited <= space
          && SentBy(s.queries[t].inflight, s.queries[t].born, s.socket, last))
  }

  /** The moment by which the put is resolved. */
  ghost function ResolvedBy(s: State, t: Id, space: set<Address>, last: int, gap: nat): int
    requires t in s.puts
    requires !P.Started(s.puts[t]) ==> t in s.queries && |s.queries[t].visited| <= |space|
  {
    if P.Started(s.puts[t]) then last + s.socket.timeout
    else Deadline(|space|, |s.queries[t].visited|, last, s.socket.timeout, gap) + gap + s.socket.timeout
  }

  /** One iteration that does not report the put: where it then stands, and since when. */
  lemma PutStep(e: Env, a: Loop, i: Input, t: Id, space: set<Address>, last: int)
    returns (last': int)
    requires EngineInv(a.rpc) && Standing(a.rpc, t, space, last) && last <= i.tick.now
    requires ValidInput(BeforeTick(e, a, i), i.tick) && !AdmitsPut(a, i.message, t)
    requires t !in PutIds(ReportOf(e, a, i).puts)
    requires Iterate(e, a, i).0.rpc.socket.sent <= a.rpc.puts[t].born + TID_SPACE
    requires !P.Started(a.rpc.puts[t]) ==> Iterate(e, a, i).0.rpc.socket.sent <= a.rpc.queries[t].born + TID_SPACE
    requires !P.Started(a.rpc.puts[t]) ==> (set n | n in a.rpc.queries[t].closest :: n.address) <= space
    ensures var s' := Iterate(e, a, i).0.rpc;
            && EngineInv(s') && Standing(s', t, space, last')
            && s'.socket.timeout == a.rpc.socket.timeout && last' <= i.tick.now
            && (P.Started(a.rpc.puts[t]) ==> P.Started(s'.puts[t]) && last' == last && i.tick.now < last + a.rpc.socket.timeout)
            && (!P.Started(a.rpc.puts[t]) && P.Started(s'.puts[t]) ==> last' == i.tick.now)
            && (!P.Started(a.rpc.puts[t]) && !P.Started(s'.puts[t]) ==>
                  || (last' == last && i.tick.now < last + a.rpc.socket.timeout && s'.queries[t].visited == a.rpc.queries[t].visited)
                  || (last' == i.tick.now && a.rpc.queries[t].visited < s'.queries[t].visited))
  {
    hide EngineInv, ValidInput, Accept, Tick, Iterate, Evolves, SentBy, PutSentBy, PutIds, DoneIds, AdmitsPut;
    var now, s := i.tick.now, BeforeTick(e, a, i);
    var (s', report) := Tick(e, s, i.tick);
    IterateRpc(e, a, i);
    AcceptKeepsEngine(e, a, i.message, now);
    AcceptKeepsPut(e, a, i.message, now, t);
    AcceptKeepsLookups(e, a, i.message, now);
    AcceptMoves(e, a, i.message, now, t);
    TickKeepsEngine(e, s, i.tick);
    TickMoves(e, s, i.tick, t);
    TickEvolves(e, s, i.tick);
    EvolvesSent(a.rpc.socket, s.socket, now);
    EvolvesSent(s.socket, s'.socket, now);
    PutSentByEvolves(a.rpc.puts[t], a.rpc.socket, s.socket, last, now);
    TickSentBy(e, s, i.tick, t, last);
    if P.Started(a.rpc.puts[t]) {
      last' := last;
      if last + s.socket.timeout <= now { StartedPutCompletes(e, s, i.tick, t, last); }
    } else if P.Started(s'.puts[t]) {
      last' := now;
    } else {
      var q := a.rpc.queries[t];
      SentByEvolves(q.inflight, q.born, a.rpc.socket, s.socket, last, now);
      TickProgress(e, s, i.tick, t, last);
      var q' := s'.queries[t];
      assert Progress(q, q', s'.socket, last, now);
      last' := if q'.visited == q.visited then last else now;
      UnstartedSentBy(s'.puts[t], s'.socket, now, last');
    }
  }

  lemma UnstartedSentBy(p: P.Put, sock: Socket, last: int, last': int)
    requires PutSentBy(p, sock, last) && !P.Started(p)
    ensures PutSentBy(p, sock, last')
  {
  }

  /** A put that has started, or has a value or peers lookup, resolves: as long as it is neither
      reported nor displaced, the clock has not passed the deadline of its lookup plus one gap
      and one timeout, or, once started, one timeout after its requests. */
  lemma {:induction false} PutsResolve(e: Env, a: Loop, inputs: seq<Input>, t: Id, space: set<Address>,
                                       start: int, gap: nat, last: int)
    requires StaysUnresolved(e, a, inputs, t, space, start, gap)
    requires EngineInv(a.rpc) && Standing(a.rpc, t, space, last)
    requires last <= start < last + a.rpc.socket.timeout
    ensures !P.Started(a.rpc.puts[t]) ==> |a.rpc.queries[t].visited| <= |space|
    ensures EndTime(inputs, start) < ResolvedBy(a.rpc, t, space, last, gap)
    decreases |inputs|
  {
    hide EngineInv, ValidInput, Accept, Tick, Iterate, Evolves, SentBy, PutSentBy, PutIds, AdmitsPut, P.Started;
    var timeout := a.rpc.socket.timeout;
    if !P.Started(a.rpc.puts[t]) {
      var v := a.rpc.queries[t].visited;
      SubsetSize(v, space);
      assert (|space| - |v|) * (timeout + gap) >= 0 by { Scale(0, |space| - |v|, timeout + gap); }
    }
    if inputs != [] {
      var i := inputs[0];
      var b, now := Iterate(e, a, i).0, i.tick.now;
      var last' := PutStep(e, a, i, t, space, last);
      PutsResolve(e, b, inputs[1..], t, space, now, gap, last');
      if !P.Started(a.rpc.puts[t]) && !P.Started(b.rpc.puts[t]) && last' == now && a.rpc.queries[t].visited < b.rpc.queries[t].visited {
        var v, v' := a.rpc.queries[t].visited, b.rpc.queries[t].visited;
        ProperSubsetSize(v, v');
        DeadlineShrinks(|space|, |v|, |v'|, last, now, timeout, gap);
      }
    }
  }
}
