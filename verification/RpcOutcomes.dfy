/**
  The diagnostics of a mutable GET are exact: over every run, the number of responses a
  lookup reports is the number of accepted answers to its primary requests.
 */
module RpcOutcomes {
  import opened Ids
  import opened Bep42
  import opened Nodes
  import opened ClosestNodes
  import opened RoutingTable
  import opened Sockets
  import opened IterativeQueries
  import opened MutableItems
  import opened QueryCache
  import opened Rpc
  import opened RpcReports
  import opened RpcSockets
  import opened RpcLiveness
  import opened RpcCounts
  import opened Actor

  lemma AcceptCounts(e: Env, a: Loop, m: ActorMessage, now: int)
    requires StateCounts(a.rpc) && YoungStep(a.rpc, Accept(e, a, m, now).0.rpc)
    ensures StateCounts(Accept(e, a, m, now).0.rpc)
  {
    hide CountsInv, StartLookup, SubmitPut, SeedAll, Replay, Young;
    match m
    case Put(request, _, extra) => SubmitPutCounts(e, a.rpc, request, extra, now);
    case Get(request, _) => LookupCounts(e, a.rpc, request, [], now);
    case SeedRouting(_) =>
    case Idle =>
  }

  /** Fewer than 2^32 requests are sent during the life of any query of the run. */
  ghost predicate YoungRun(e: Env, a: Loop, inputs: seq<Input>) {
    inputs != [] ==>
      var init, last := inputs[..|inputs| - 1], inputs[|inputs| - 1];
      var b := Actor.Run(e, a, init).0;
      && YoungRun(e, a, init)
      && YoungStep(b.rpc, BeforeTick(e, b, last)) && YoungStep(BeforeTick(e, b, last), Iterate(e, b, last).0.rpc)
  }

  /** Over every run the answers of each lookup and each put stay within its requests, every
      put's error tally is in order with one entry per code, and no id has two owners. */
  lemma {:induction false} CountsOverRuns(e: Env, a: Loop, inputs: seq<Input>)
    requires StateCounts(a.rpc) && ValidRun(e, a, inputs) && YoungRun(e, a, inputs)
    ensures StateCounts(Actor.Run(e, a, inputs).0.rpc)
  {
    hide StateCounts, YoungStep, Accept, Tick, Iterate, ValidInput;
    if inputs != [] {
      var init, last := inputs[..|inputs| - 1], inputs[|inputs| - 1];
      var b := Actor.Run(e, a, init).0;
      CountsOverRuns(e, a, init);
      AcceptCounts(e, b, last.message, last.tick.now);
      IterateRpc(e, b, last);
      TickCounts(e, BeforeTick(e, b, last), last.tick);
    }
  }

  /** After any run, the tally of a live put is the exact histogram of the errors it received if
      and only if no code came more than 255 times, which 255 requests ensure; it is then in
      order, and with fewer than 510 requests the put is rejected early exactly by a strict
      majority of 301 or 302 answers. */
  lemma PutTallyOverRuns(e: Env, a: Loop, inputs: seq<Input>, t: Id)
    requires StateCounts(a.rpc) && ValidRun(e, a, inputs) && YoungRun(e, a, inputs)
    requires t in Actor.Run(e, a, inputs).0.rpc.puts
    ensures var p := Actor.Run(e, a, inputs).0.rpc.puts[t];
            && ((forall code: int :: P.CountOf(p.errors, code) == P.Occurrences(p.received, code)) <==> P.FitsBytes(p.received))
            && (|p.inflight| <= 255 ==> P.FitsBytes(p.received))
            && (P.FitsBytes(p.received) ==>
                  && P.WellTallied(p)
                  && (p.request.PutMutable? && |p.inflight| < 510 ==>
                        (P.MajorityRejected(p).Some? <==>
                           2 * P.CountOf(p.errors, 301) > |p.inflight| || 2 * P.CountOf(p.errors, 302) > |p.inflight|)))
  {
    hide Actor.Run, ValidRun, YoungRun, P.MajorityRejected, P.CountOf, P.Occurrences, P.FitsBytes, P.WellTallied, P.Tally,
         QueryCounts, PutCounts, Disjoint;
    CountsOverRuns(e, a, inputs);
    var s := Actor.Run(e, a, inputs).0.rpc;
    var p := s.puts[t];
    PutCountsTally(p, s.socket);
    P.TallyIsExactly(p.received);
    if P.FitsBytes(p.received) && p.request.PutMutable? && |p.inflight| < 510 { P.RejectedByMajority(p); }
  }

  // --- exactness ---

  ghost predicate ValidPacket(s: State, packet: Option<Packet>) {
    packet.Some? ==> IsOrder(packet.value.putOrder, s.puts.Keys) && IsOrder(packet.value.getOrder, s.queries.Keys)
  }

  /** The tick accepted an answer to a primary request of lookup `id`. */
  predicate PrimaryAnswer(s: State, packet: Option<Packet>, now: int, id: Id) {
    && packet.Some? && id in s.queries && !IsRequest(packet.value.message.body)
    && packet.value.message.tid in s.queries[id].primary
    && Receive(s.socket, Datagram(false, packet.value.message.tid, packet.value.from), now).1
  }

  /** An accepted answer reaches the query that sent the request and no other. */
  lemma ResponseReachesOwner(e: Env, s: State, p: Packet, now: int, id: Id)
    requires ValidPacket(s, Some(p)) && Disjoint(s.queries, s.puts) && id in s.queries
    requires s.queries[id].request.GetValue? && forall i :: i in s.queries ==> forall t :: t in s.queries[i].primary ==> t in s.queries[i].inflight
    ensures var s' := HandleResponse(e, s, p, now).0;
            && id in s'.queries
            && Responded(s'.queries[id].outcome) ==
               Responded(s.queries[id].outcome) + (if p.message.tid in s.queries[id].primary then 1 else 0)
  {
    hide AnswerQuery, AnswerPut, DeliveredValue, TableAdd, Responded, BumpInvalidResponse, NoDuplicates;
    var m, q := p.message, s.queries[id];
    var readOnly := FindQuery(s.queries, p.getOrder, m.tid, true);
    var put := FindPut(s.puts, p.putOrder, m.tid);
    var found := FindQuery(s.queries, p.getOrder, m.tid, false);
    OutcomeBumped(e, q, m.body);
    AnswerCounts(e, q, p.from, m, now);
    assert id in p.getOrder;
    if m.tid in q.inflight {
      forall j | j in s.puts ensures m.tid !in s.puts[j].inflight {
        assert SharesNoId(q.inflight, s.puts[j].inflight);
      }
      forall j | j in s.queries && j != id ensures m.tid !in s.queries[j].inflight {
        assert SharesNoId(q.inflight, s.queries[j].inflight);
      }
      assert put.None? && WaitsFor(q, m.tid, false) && found == Some(id);
      assert m.tid in q.primary ==> WaitsFor(q, m.tid, true) && readOnly == Some(id);
    }
  }

  lemma MessageCountsAnswer(e: Env, s: State, packet: Option<Packet>, now: int, id: Id)
    requires StateCounts(s) && ValidPacket(s, packet) && id in s.queries && s.queries[id].request.GetValue?
    ensures var s' := HandleMessage(e, s, packet, now).0;
            && id in s'.queries
            && Responded(s'.queries[id].outcome) ==
               Responded(s.queries[id].outcome) + (if PrimaryAnswer(s, packet, now, id) then 1 else 0)
  {
    hide HandleRequest, HandleResponse, Receive, Tidy, Responded, Disjoint, NoDuplicates, Issued, Outstanding, PutCounts;
    if packet.Some? {
      var p := packet.value;
      var d := Datagram(IsRequest(p.message.body), p.message.tid, p.from);
      var (sock, delivered) := Receive(s.socket, d, now);
      var s1 := s.(socket := sock);
      RequestOnlyAdds(e, s1, p, now);
      ResponseReachesOwner(e, s1, p, now, id);
    }
  }

  /** One tick that does not report the lookup counts exactly its accepted primary answer;
      liveness pings and answers to other queries count nothing. */
  lemma TickCountsAnswer(e: Env, s: State, i: TickInput, id: Id)
    requires StateCounts(s) && ValidInput(s, i) && YoungStep(s, Tick(e, s, i).0)
    requires id in s.queries && s.queries[id].request.GetValue? && id !in DoneIds(Tick(e, s, i).1.gets)
    requires ValidPacket(AtMessage(e, s, i), i.packet)
    ensures var s' := Tick(e, s, i).0;
            && id in s'.queries && s'.queries[id].request == s.queries[id].request
            && Responded(s'.queries[id].outcome) ==
               Responded(s.queries[id].outcome) + (if PrimaryAnswer(AtMessage(e, s, i), i.packet, i.now, id) then 1 else 0)
  {
    hide StateCounts, Settle, Maintain, HandleMessage, Evolves, ValidInput, Responded, PrimaryAnswer, ValidPacket, DoneIds;
    var s1 := Settle(e, s, i).0;
    var s2 := Maintain(e, s1, i.now);
    var s3 := HandleMessage(e, s2, i.packet, i.now).0;
    TickEvolves(e, s, i);
    MaintainEvolves(e, s1, i.now);
    HandleMessageEvolves(e, s2, i.packet, i.now);
    EvolvesSent(s.socket, s1.socket, i.now);
    EvolvesSent(s1.socket, s2.socket, i.now);
    EvolvesSent(s2.socket, s3.socket, i.now);
    SettleReports(e, s, i);
    SettleCounts(e, s, i);
    SettleKeepsRequest(e, s, i, id);
    MaintainCounts(e, s1, i.now);
    MaintainOnlyAdds(e, s1, i.now);
    MessageCountsAnswer(e, s2, i.packet, i.now, id);
    MessageKeepsLookup(e, s2, i.packet, i.now, id);
  }

  lemma SettleKeepsRequest(e: Env, s: State, i: TickInput, id: Id)
    requires ValidInput(s, i) && id in Settle(e, s, i).0.queries
    ensures id in s.queries && Settle(e, s, i).0.queries[id].request == s.queries[id].request
  {
    hide TickPuts, TickGets, FinishAll, NoDuplicates, ExpectedDk, AverageSubnets;
    var edk, subnets := ExpectedDk(e, s.cache), AverageSubnets(s.cache);
    var (queries, sock, dones) := TickGets(s.queries, s.socket, i.getOrder, edk, subnets, i.now);
    TickGetsReports(s.queries, s.socket, i.getOrder, edk, subnets, i.now);
    FinishAllReports(e, s.(queries := queries, socket := sock), dones, i.voteOrder, i.now);
  }

  /** A counted answer counts as a value exactly when it delivers a verified item of the target
      to the callers, and as an invalid value exactly when it is a mutable answer that does not. */
  lemma ValuesAreVerified(e: Env, q: Query, from: Address, m: Message, now: int)
    requires q.request.GetValue? && m.tid in q.primary
    ensures var q' := AnswerQuery(e, q, from, m, now);
            && (q'.outcome.values > q.outcome.values <==>
                  exists item :: Verified(e.crypto, item) && item.target == q.request.target
                                 && q'.responses == q.responses + [Mutable(item)])
            && (q'.outcome.invalidValues > q.outcome.invalidValues <==>
                  m.body.GetMutableResponse? && q'.responses == q.responses)
  {
    hide AddCandidates, AddResponder, AddVote, ValidateImmutable, Verified, CloserNodes;
    AnswerKeepsResponses(e, q, from, m, now);
    var delivered := DeliveredValue(e, q, m.body);
    if delivered.Some? {
      assert (q.responses + [delivered.value])[|q.responses|] == delivered.value;
    }
  }

  lemma AnswerKeepsResponses(e: Env, q: Query, from: Address, m: Message, now: int)
    ensures var delivered := DeliveredValue(e, q, m.body);
            AnswerQuery(e, q, from, m, now).responses ==
            q.responses + (if delivered.Some? then [delivered.value] else [])
  {
    hide Bump, DeliveredValue, AddAll, Insert;
    assert q.responses + [] == q.responses;
  }

  /** The mutable lookup `id` stays open over the run. */
  ghost predicate StaysCounted(e: Env, a: Loop, inputs: seq<Input>, id: Id)
    decreases |inputs|
  {
    && id in a.rpc.queries && a.rpc.queries[id].request.GetValue?
    && (inputs != [] ==>
          var i := inputs[0];
          var s := BeforeTick(e, a, i);
          && ValidIteration(e, a, i) && ValidPacket(AtMessage(e, s, i.tick), i.tick.packet)
          && YoungStep(a.rpc, s) && YoungStep(s, Iterate(e, a, i).0.rpc)
          && id !in DoneIds(ReportOf(e, a, i).gets)
          && StaysCounted(e, Iterate(e, a, i).0, inputs[1..], id))
  }

  /** Accepted answers to primary requests of `id` over the run. */
  function PrimaryAnswers(e: Env, a: Loop, inputs: seq<Input>, id: Id): nat
    decreases |inputs|
  {
    if inputs == [] then 0
    else
      var i := inputs[0];
      (if PrimaryAnswer(AtMessage(e, BeforeTick(e, a, i), i.tick), i.tick.packet, i.tick.now, id) then 1 else 0) +
      PrimaryAnswers(e, Iterate(e, a, i).0, inputs[1..], id)
  }

  function After(e: Env, a: Loop, inputs: seq<Input>): Loop
    decreases |inputs|
  {
    if inputs == [] then a else After(e, Iterate(e, a, inputs[0]).0, inputs[1..])
  }

  /** Over every run in which a mutable lookup stays open, `responded()` rises by exactly the
      number of accepted answers to its primary requests, and stays within their number. */
  lemma {:induction false} RespondedIsExact(e: Env, a: Loop, inputs: seq<Input>, id: Id)
    requires StateCounts(a.rpc) && StaysCounted(e, a, inputs, id)
    ensures var b := After(e, a, inputs);
            && id in b.rpc.queries && StateCounts(b.rpc)
            && Responded(b.rpc.queries[id].outcome) == Responded(a.rpc.queries[id].outcome) + PrimaryAnswers(e, a, inputs, id)
            && Responded(b.rpc.queries[id].outcome) <= |b.rpc.queries[id].primary|
    decreases |inputs|
  {
    hide StateCounts, YoungStep, Accept, Tick, Iterate, ValidInput, ValidPacket, PrimaryAnswer, Responded, DoneIds, AtMessage;
    if inputs == [] {
      CountsBound(a.rpc, id);
    } else {
      var i := inputs[0];
      var s := BeforeTick(e, a, i);
      AcceptCounts(e, a, i.message, i.tick.now);
      AcceptKeepsLookups(e, a, i.message, i.tick.now);
      IterateRpc(e, a, i);
      TickCounts(e, s, i.tick);
      TickCountsAnswer(e, s, i.tick, id);
      RespondedIsExact(e, Iterate(e, a, i).0, inputs[1..], id);
    }
  }

  lemma CountsBound(s: State, id: Id)
    requires StateCounts(s) && id in s.queries
    ensures Responded(s.queries[id].outcome) <= |s.queries[id].primary|
  {
    hide Issued, NoDuplicates, Disjoint, PutCounts, Responded;
  }
}
