/**
  Accepted puts make progress and resolve: a put waits for a value or peers lookup on its
  target or has requests of its own under way, and either comes to an end in bounded time.
 */
module RpcPuts {
  import opened Ids
  import opened Bep42
  import opened Nodes
  import opened RoutingTable
  import opened Sockets
  import opened IterativeQueries
  import opened Lru
  import opened QueryCache
  import opened Rpc
  import opened RpcReports
  import opened RpcSockets
  import opened RpcLiveness
  import opened RpcEngine
  import opened Actor

  // --- progress ---

  predicate ValueLookup(s: State, t: Id) {
    t in s.queries && !s.queries[t].request.FindNode?
  }

  /** A put on `t` has started, or a lookup that will start it or fail it is live. */
  predicate Moving(s: State, t: Id) {
    t in s.puts ==> P.Started(s.puts[t]) || ValueLookup(s, t)
  }

  /** The condition under which an accepted put is left with nothing that could finish it. */
  predicate Stalls(s: State, request: P.PutRequest, extra: seq<Node>, now: int) {
    var t := request.target;
    if UsableCache(s.cache, t, now)
    then (forall n :: n in CachedNodes(s.cache, t) + extra ==> n.token.None?) && !ValueLookup(s, t)
    else t in s.queries && s.queries[t].request.FindNode?
  }

  /** `Rpc::put` leaves a new put without progress exactly when the nodes cached for the target
      carry no token, or when it finds a find_node lookup running there. */
  lemma StallsExactly(e: Env, s: State, request: P.PutRequest, extra: seq<Node>, now: int)
    requires Admit(s.puts, request) == Proceed
    ensures Moving(SubmitPut(e, s, request, extra, now).0, request.target) <==> !Stalls(s, request, extra, now)
  {
    hide StartLookup, P.SendAll, UsableCache, Extends, Promote;
    var t := request.target;
    var s1 := s.(cache := s.cache.(entries := Promote(s.cache.entries, t)));
    var put := P.NewPut(request, extra, s.socket.sent);
    var nodes := CachedNodes(s.cache, t);
    if UsableCache(s.cache, t, now) {
      UsableIsNonEmpty(s.cache, t, now);
      SendAllEffect(put, s1.socket, nodes + extra, now);
    } else {
      var salt := if request.PutMutable? then request.salt else None;
      LookupOnlyAdds(e, s1, GetValue(t, None, salt), [], now);
      if t !in s.queries { LookupKind(e, s1, GetValue(t, None, salt), [], now); }
    }
  }

  lemma UsableIsNonEmpty(c: Cache, t: Id, now: int)
    requires UsableCache(c, t, now)
    ensures CachedNodes(c, t) != []
  {
  }

  lemma LookupKind(e: Env, s: State, request: GetRequest, extra: seq<Address>, now: int)
    requires request.target !in s.queries
    ensures request.target in StartLookup(e, s, request, extra, now).queries
    ensures StartLookup(e, s, request, extra, now).queries[request.target].request == request
  {
    hide LaunchQuery, Extends;
    LaunchExtends(e, s, request, extra, now);
  }

  /** A put keeps moving through `Rpc::put` unless a put admitted on its target stalls. */
  lemma SubmitPutMoves(e: Env, s: State, request: P.PutRequest, extra: seq<Node>, now: int, t: Id)
    requires Moving(s, t)
    requires request.target == t && Admit(s.puts, request) == Proceed ==> !Stalls(s, request, extra, now)
    ensures Moving(SubmitPut(e, s, request, extra, now).0, t)
  {
    hide StartLookup, UsableCache, CachedNodes, Promote, P.Start, P.NewPut, Stalls, P.Started;
    if request.target == t && Admit(s.puts, request) == Proceed {
      StallsExactly(e, s, request, extra, now);
    } else {
      var s1 := s.(cache := s.cache.(entries := Promote(s.cache.entries, request.target)));
      var salt := if request.PutMutable? then request.salt else None;
      LookupOnlyAdds(e, s1, GetValue(request.target, None, salt), [], now);
    }
  }

  /** Every stall comes from a find_node lookup on the target, running or cached. */
  lemma StallsOnlyByFindNode(s: State, request: P.PutRequest, extra: seq<Node>, now: int)
    requires EngineInv(s) && Stalls(s, request, extra, now)
    ensures var t := request.target;
            || (t in s.queries && s.queries[t].request.FindNode?)
            || (Peek(s.cache.entries, t).Some? && Peek(s.cache.entries, t).value.isFindNode)
  {
    hide EngineInv, UsableCache, CachedNodes, Peek;
    var t := request.target;
    if UsableCache(s.cache, t, now) {
      UsableIsNonEmpty(s.cache, t, now);
      NonEmptyIsCached(s.cache, t);
      assert CachedNodes(s.cache, t)[0] in CachedNodes(s.cache, t) + extra;
      if !Peek(s.cache.entries, t).value.isFindNode {
        EngineTokens(s, t);
      }
    }
  }

  lemma EngineTokens(s: State, t: Id)
    requires EngineInv(s) && Peek(s.cache.entries, t).Some? && !Peek(s.cache.entries, t).value.isFindNode
    ensures forall n :: n in CachedNodes(s.cache, t) ==> n.token.Some?
  {
    hide CacheInv, TableInv, QueriesInv, CachedNodes;
    CachedNodesHaveTokens(s.cache, t);
  }

  lemma NonEmptyIsCached(c: Cache, t: Id)
    requires CachedNodes(c, t) != []
    ensures Peek(c.entries, t).Some?
  {
  }

  // --- a tick ---

  /** Finishing the lookup of `t`, when it is not a find_node lookup, starts the put that waits
      for it or fails it; nothing else touches a put that has not started. */
  lemma FinishOneStarts(e: Env, s: State, done: Done, voteOrder: VoteOrders, now: int, t: Id)
    requires t in s.puts
    requires done.id == t && ValueLookup(s, t) ==> AllTokens(done.closest)
    ensures var (s', failed) := FinishOne(e, s, done, voteOrder, now);
            && t in s'.puts
            && (done.id == t && ValueLookup(s, t) ==> P.Started(s'.puts[t]) || t in PutIds(failed))
            && (!(done.id == t && ValueLookup(s, t)) ==> s'.puts[t] == s.puts[t] && t !in PutIds(failed))
  {
    hide BestAddress, CacheQuery, P.SendAll, Extends, AllTokens;
    if done.id in s.queries {
      var q := s.queries[done.id];
      var s1 := UpdateVotes(s.(queries := s.queries - {done.id}), q, OrderFor(voteOrder, done.id), now);
      var s2 := s1.(cache := CacheQuery(s1.cache, q.request.target, q.closest, CacheEntry(e, q, done.closest)));
      if done.id == t && ValueLookup(s, t) && !P.Started(s.puts[t]) {
        if done.closest != [] {
          SendAllEffect(s2.puts[t], s2.socket, done.closest + s2.puts[t].extra, now);
          FirstHasToken(done.closest, s2.puts[t].extra);
        } else {
          var r := (t, PutErr(P.Query(P.NoClosestNodes)));
          assert r in [r];
        }
      }
    }
  }

  lemma FirstHasToken(closest: seq<Node>, extra: seq<Node>)
    requires closest != [] && AllTokens(closest)
    ensures exists n :: n in closest + extra && n.token.Some?
  {
    assert closest[0] in closest;
    assert (closest + extra)[0] == closest[0];
  }

  lemma {:induction false} FinishAllStarts(e: Env, s: State, dones: seq<Done>, voteOrder: VoteOrders, now: int, t: Id)
    requires DistinctDones(dones) && t in s.puts
    requires ValueLookup(s, t) ==> forall d :: d in dones && d.id == t ==> AllTokens(d.closest)
    ensures var (s', failed) := FinishAll(e, s, dones, voteOrder, now);
            && t in s'.puts
            && (t in DoneIds(dones) && ValueLookup(s, t) ==> P.Started(s'.puts[t]) || t in PutIds(failed))
            && (!(t in DoneIds(dones) && ValueLookup(s, t)) ==> s'.puts[t] == s.puts[t] && t !in PutIds(failed))
    decreases |dones|
  {
    hide FinishOne, DoneIds, PutIds, AllTokens;
    assert dones == [] ==> DoneIds(dones) == {} by { EmptyDoneIds(); }
    PutIdsSplit([]);
    if dones != [] {
      var (s1, failed) := FinishOne(e, s, dones[0], voteOrder, now);
      var (s2, more) := FinishAll(e, s1, dones[1..], voteOrder, now);
      FinishOneStarts(e, s, dones[0], voteOrder, now, t);
      FinishOneReports(e, s, dones[0], voteOrder, now);
      DoneIdsCons(dones);
      FinishAllStarts(e, s1, dones[1..], voteOrder, now, t);
      PutIdsConcat(failed, more);
    }
  }

  lemma PutIdsConcat(a: seq<(Id, PutResult)>, b: seq<(Id, PutResult)>)
    ensures PutIds(a + b) == PutIds(a) + PutIds(b)
  {
  }

  /** Polling and cleanup, seen from a put: a finished value lookup starts or fails it, and
      only a started put is reported otherwise. */
  lemma SettleStarts(e: Env, s: State, i: TickInput, t: Id)
    requires EngineInv(s) && ValidInput(s, i) && t in s.puts
    ensures var (s', dones, results) := Settle(e, s, i);
            && (t in s'.puts <==> t !in PutIds(results))
            && (t in DoneIds(dones) && ValueLookup(s, t) && t in s'.puts ==> P.Started(s'.puts[t]))
            && (!(t in DoneIds(dones) && ValueLookup(s, t)) && t in s'.puts ==> s'.puts[t] == s.puts[t])
            && (!(t in DoneIds(dones) && ValueLookup(s, t)) && !P.Started(s.puts[t]) ==> t in s'.puts)
            && (t !in DoneIds(dones) && ValueLookup(s, t) ==> ValueLookup(s', t))
  {
    hide TableInv, CacheInv, TickGets, FinishAll, TickPuts, ExpectedDk, AverageSubnets, NoDuplicates, AllTokens, DoneIds, PutIds,
         QueryShape, P.Started, PollsTo;
    var edk, subnets := ExpectedDk(e, s.cache), AverageSubnets(s.cache);
    var (queries, sock, dones) := TickGets(s.queries, s.socket, i.getOrder, edk, subnets, i.now);
    var s0 := s.(queries := queries, socket := sock);
    var (s1, failed) := FinishAll(e, s0, dones, i.voteOrder, i.now);
    var polled := TickPuts(s.puts, s.socket, i.putOrder, i.now);
    TickGetsKeepsShapes(s.queries, s.socket, i.getOrder, edk, subnets, i.now);
    TickGetsReports(s.queries, s.socket, i.getOrder, edk, subnets, i.now);
    FinishAllReports(e, s0, dones, i.voteOrder, i.now);
    FinishAllStarts(e, s0, dones, i.voteOrder, i.now, t);
    PutIdsConcat(polled, failed);
    if !P.Started(s.puts[t]) { UnstartedIsNotPolled(s, i, t); }
  }

  lemma UnstartedIsNotPolled(s: State, i: TickInput, t: Id)
    requires ValidInput(s, i) && t in s.puts && !P.Started(s.puts[t])
    ensures t !in PutIds(TickPuts(s.puts, s.socket, i.putOrder, i.now))
  {
    hide TickPuts, NoDuplicates;
    TickPutsReports(s.puts, s.socket, i.putOrder, i.now);
  }

  /** A message changes of a put nothing but its tally. */
  lemma MessageKeepsPutIds(e: Env, s: State, packet: Option<Packet>, now: int, t: Id)
    requires t in s.puts
    ensures var s' := HandleMessage(e, s, packet, now).0;
            && t in s'.puts && s'.puts[t].inflight == s.puts[t].inflight && s'.puts[t].born == s.puts[t].born
            && s'.puts[t].request == s.puts[t].request
  {
    hide StartLookup, TableAdd, AnswerQuery, SecureId, IsValidForIp, DeliveredValue, Receive, Tidy, P.RecordError, HandleRequest;
    if packet.Some? {
      var p := packet.value;
      var (sock, delivered) := Receive(s.socket, Datagram(IsRequest(p.message.body), p.message.tid, p.from), now);
      RequestOnlyAdds(e, s.(socket := sock), p, now);
    }
  }

  /** One tick, seen from a put: a moving put keeps moving, and one that has not started stays
      as it is, unreported, unless a value or peers lookup on its target is reported. */
  lemma TickMoves(e: Env, s: State, i: TickInput, t: Id)
    requires EngineInv(s) && ValidInput(s, i)
    ensures var (s', report) := Tick(e, s, i);
            && (Moving(s, t) ==> Moving(s', t))
            && (Moving(s, t) && t in DoneIds(report.gets) && t in s'.puts ==> P.Started(s'.puts[t]))
            && (t in s.puts && !P.Started(s.puts[t]) && (t in DoneIds(report.gets) ==> !ValueLookup(s, t)) ==>
                  t in s'.puts && !P.Started(s'.puts[t]) && t !in PutIds(report.puts))
  {
    hide EngineInv, ValidInput, Settle, Maintain, HandleMessage, DoneIds, PutIds;
    var s1 := Settle(e, s, i).0;
    var s2 := Maintain(e, s1, i.now);
    SettleReports(e, s, i);
    if t in s.puts { SettleStarts(e, s, i, t); }
    MaintainOnlyAdds(e, s1, i.now);
    HandleMessageOnlyAdds(e, s2, i.packet, i.now);
    if t in s2.puts { MessageKeepsPutIds(e, s2, i.packet, i.now, t); }
    if t in s2.queries { MessageKeepsLookup(e, s2, i.packet, i.now, t); }
  }

  // --- runs ---

  /** The message of an iteration is a put on `t` that `Rpc::put` admits. */
  predicate AdmitsPut(a: Loop, m: ActorMessage, t: Id) {
    m.Put? && m.put.target == t && Admit(a.rpc.puts, m.put) == Proceed
  }

  lemma AcceptMoves(e: Env, a: Loop, m: ActorMessage, now: int, t: Id)
    requires Moving(a.rpc, t)
    requires AdmitsPut(a, m, t) ==> !Stalls(a.rpc, m.put, m.extra, now)
    ensures Moving(Accept(e, a, m, now).0.rpc, t)
  {
    hide StartLookup, SubmitPut, SeedAll, Replay, Stalls;
    match m
    case Put(request, _, extra) => SubmitPutMoves(e, a.rpc, request, extra, now, t);
    case Get(request, _) => LookupOnlyAdds(e, a.rpc, request, [], now);
    case SeedRouting(_) =>
    case Idle =>
  }

  /** No put admitted on `t` over the run meets the stalling condition when it is submitted. */
  ghost predicate NeverStalls(e: Env, a: Loop, inputs: seq<Input>, t: Id) {
    inputs != [] ==>
      var init, last := inputs[..|inputs| - 1], inputs[|inputs| - 1];
      var b := Actor.Run(e, a, init).0;
      && NeverStalls(e, a, init, t)
      && (AdmitsPut(b, last.message, t) ==> !Stalls(b.rpc, last.message.put, last.message.extra, last.tick.now))
  }

  /** A put on `t` moves in every state of the run, after messages and after ticks. */
  ghost predicate MovesThroughout(e: Env, a: Loop, inputs: seq<Input>, t: Id) {
    && Moving(Actor.Run(e, a, inputs).0.rpc, t)
    && (inputs != [] ==>
          var init, last := inputs[..|inputs| - 1], inputs[|inputs| - 1];
          MovesThroughout(e, a, init, t) && Moving(BeforeTick(e, Actor.Run(e, a, init).0, last), t))
  }

  /** Over every run, a put on `t` has at every moment started with at least one request or a
      live value or peers lookup, if and only if no put admitted on `t` stalled. */
  lemma {:induction false} PutsKeepMoving(e: Env, a: Loop, inputs: seq<Input>, t: Id)
    requires EngineInv(a.rpc) && ValidRun(e, a, inputs) && Moving(a.rpc, t)
    ensures MovesThroughout(e, a, inputs, t) <==> NeverStalls(e, a, inputs, t)
  {
    hide EngineInv, Accept, Tick, Iterate, ValidInput, Moving, Stalls, DoneIds, PutIds, P.Started, ValueLookup;
    if inputs != [] {
      var init, last := inputs[..|inputs| - 1], inputs[|inputs| - 1];
      var b := Actor.Run(e, a, init).0;
      var s := BeforeTick(e, b, last);
      PutsKeepMoving(e, a, init, t);
      EngineOverRuns(e, a, init);
      AcceptKeepsEngine(e, b, last.message, last.tick.now);
      IterateRpc(e, b, last);
      TickMoves(e, s, last.tick, t);
      AdmittedMoves(e, b, last, t);
      if Moving(b.rpc, t) && (AdmitsPut(b, last.message, t) ==> !Stalls(b.rpc, last.message.put, last.message.extra, last.tick.now)) {
        AcceptMoves(e, b, last.message, last.tick.now, t);
      }
    }
  }

  lemma AdmittedMoves(e: Env, a: Loop, i: Input, t: Id)
    ensures AdmitsPut(a, i.message, t) ==>
              (Moving(BeforeTick(e, a, i), t) <==> !Stalls(a.rpc, i.message.put, i.message.extra, i.tick.now))
  {
    hide SubmitPut, Stalls, Moving;
    if AdmitsPut(a, i.message, t) {
      StallsExactly(e, a.rpc, i.message.put, i.message.extra, i.tick.now);
    }
  }

  /** Nobody helps the put on `t`: no other put on `t` is admitted, and no value or peers lookup
      on `t` is reported. */
  ghost predicate Forsaken(e: Env, a: Loop, inputs: seq<Input>, t: Id) {
    inputs != [] ==>
      var init, last := inputs[..|inputs| - 1], inputs[|inputs| - 1];
      var b := Actor.Run(e, a, init).0;
      && Forsaken(e, a, init, t)
      && !AdmitsPut(b, last.message, t)
      && (t in DoneIds(ReportOf(e, b, last).gets) ==> !ValueLookup(BeforeTick(e, b, last), t))
  }

  /** A put that has not started stays unstarted and unanswered for as long as it is forsaken:
      every channel that waits for it keeps waiting. */
  lemma {:induction false} ForsakenPutWaits(e: Env, a: Loop, inputs: seq<Input>, t: Id)
    requires EngineInv(a.rpc) && ValidRun(e, a, inputs) && Forsaken(e, a, inputs, t)
    requires t in a.rpc.puts && !P.Started(a.rpc.puts[t])
    ensures var b := Actor.Run(e, a, inputs).0;
            t in b.rpc.puts && !P.Started(b.rpc.puts[t]) && PutWaiting(a, t) <= PutWaiting(b, t)
  {
    hide EngineInv, Accept, Tick, Iterate, ValidInput, DoneIds, PutIds, P.Started, ValueLookup, AdmitsPut, PutWaiting;
    if inputs != [] {
      var init, last := inputs[..|inputs| - 1], inputs[|inputs| - 1];
      var b := Actor.Run(e, a, init).0;
      ForsakenPutWaits(e, a, init, t);
      EngineOverRuns(e, a, init);
      AcceptKeepsEngine(e, b, last.message, last.tick.now);
      AcceptKeepsPut(e, b, last.message, last.tick.now, t);
      IterateRpc(e, b, last);
      TickMoves(e, BeforeTick(e, b, last), last.tick, t);
      UnreportedKeepWaiting(e, b, last, t);
    }
  }

  lemma UnreportedKeepWaiting(e: Env, a: Loop, i: Input, t: Id)
    requires t !in PutIds(ReportOf(e, a, i).puts)
    ensures PutWaiting(a, t) <= PutWaiting(Iterate(e, a, i).0, t)
  {
    hide SubmitPut, StartLookup, SeedAll, Replay, Tick, CloseGets, ClosePuts, PutIds, DoneIds, Occurs, SenderOccurs;
    var a1 := Accept(e, a, i.message, i.tick.now).0;
    var (rpc, report) := Tick(e, a1.rpc, i.tick);
    CloseGetsConserves(a1.(rpc := rpc), report.gets, t, 0);
    ClosePutsConserves(CloseGets(a1.(rpc := rpc), report.gets).0, report.puts, t, 0);
  }

  /** A put no other put displaces is left alone by the message half of an iteration. */
  lemma AcceptKeepsPut(e: Env, a: Loop, m: ActorMessage, now: int, t: Id)
    requires t in a.rpc.puts && !AdmitsPut(a, m, t)
    ensures var s := Accept(e, a, m, now).0.rpc; t in s.puts && s.puts[t] == a.rpc.puts[t]
  {
    hide StartLookup, SeedAll, Replay, P.Start, UsableCache, CachedNodes, Promote;
    match m
    case Put(request, _, extra) =>
      var s1 := a.rpc.(cache := a.rpc.cache.(entries := Promote(a.rpc.cache.entries, request.target)));
      var salt := if request.PutMutable? then request.salt else None;
      LookupOnlyAdds(e, s1, GetValue(request.target, None, salt), [], now);
    case Get(request, _) => LookupOnlyAdds(e, a.rpc, request, [], now);
    case SeedRouting(_) =>
    case Idle =>
  }

  /** A mutable put meets one already in flight for its target: it is absorbed when it carries
      the same signature, refused when it is older, when its `cas` does not name the one in
      flight or when it has none, and replaces it otherwise. */
  lemma MutablePutMeetsAnother(e: Env, s: State, request: P.PutRequest, extra: seq<Node>, now: int)
    requires request.PutMutable? && request.target in s.puts && s.puts[request.target].request.PutMutable?
    ensures var inflight := s.puts[request.target].request;
            var (s', error) := SubmitPut(e, s, request, extra, now);
            && request.target in s'.puts
            && (s'.puts[request.target].request != inflight ==>
                  request.cas == Some(inflight.seqNo) && request.seqNo >= inflight.seqNo && error.None?)
            && (request.sig != inflight.sig && request.cas == Some(inflight.seqNo) && request.seqNo >= inflight.seqNo ==>
                  s'.puts[request.target].request == request && error.None?)
            && (error.Some? ==> s' == s)
  {
    hide StartLookup, P.SendAll, UsableCache, CachedNodes, Promote, Extends;
    var t := request.target;
    var s1 := s.(cache := s.cache.(entries := Promote(s.cache.entries, t)));
    LookupOnlyAdds(e, s1, GetValue(t, None, request.salt), [], now);
    var put := P.NewPut(request, extra, s.socket.sent);
    StartExtends(put, s1.socket, CachedNodes(s.cache, t), now);
  }

  lemma FinishOneKeepsTally(e: Env, s: State, done: Done, voteOrder: VoteOrders, now: int, t: Id)
    requires t in s.puts
    ensures var s' := FinishOne(e, s, done, voteOrder, now).0; t in s'.puts && s'.puts[t] == s.puts[t].(inflight := s'.puts[t].inflight)
  {
    hide BestAddress, CacheQuery, CacheEntry, P.Start, Extends, Request;
    if done.id in s.queries && t == done.id && !P.Started(s.puts[t]) {
      var q := s.queries[done.id];
      var s1 := UpdateVotes(s.(queries := s.queries - {done.id}), q, OrderFor(voteOrder, done.id), now);
      StartExtends(s.puts[t], s1.socket, done.closest, now);
    }
  }

  lemma {:induction false} FinishAllKeepsTally(e: Env, s: State, dones: seq<Done>, voteOrder: VoteOrders, now: int, t: Id)
    requires t in s.puts
    ensures var s' := FinishAll(e, s, dones, voteOrder, now).0; t in s'.puts && s'.puts[t] == s.puts[t].(inflight := s'.puts[t].inflight)
    decreases |dones|
  {
    hide FinishOne;
    if dones != [] {
      FinishOneKeepsTally(e, s, dones[0], voteOrder, now, t);
      FinishAllKeepsTally(e, FinishOne(e, s, dones[0], voteOrder, now).0, dones[1..], voteOrder, now, t);
    }
  }

  lemma TickKeepsPutRequest(e: Env, s: State, i: TickInput, t: Id)
    requires t in s.puts && t in Tick(e, s, i).0.puts
    ensures Tick(e, s, i).0.puts[t].request == s.puts[t].request
  {
    hide TickPuts, TickGets, FinishAll, Maintain, StartLookup, TableAdd, AnswerQuery, SecureId, IsValidForIp, DeliveredValue,
         Receive, Tidy, P.RecordError, HandleRequest, ExpectedDk, AverageSubnets;
    var (queries, sock, dones) := TickGets(s.queries, s.socket, i.getOrder, ExpectedDk(e, s.cache), AverageSubnets(s.cache), i.now);
    FinishAllKeepsTally(e, s.(queries := queries, socket := sock), dones, i.voteOrder, i.now, t);
    var s1 := Settle(e, s, i).0;
    MaintainOnlyAdds(e, s1, i.now);
    var s2 := Maintain(e, s1, i.now);
    if i.packet.Some? {
      var p := i.packet.value;
      var (sock', delivered) := Receive(s2.socket, Datagram(IsRequest(p.message.body), p.message.tid, p.from), i.now);
      RequestOnlyAdds(e, s2.(socket := sock'), p, i.now);
    }
  }

  /** Over a whole iteration of the actor, a mutable put in flight gives way to another mutable
      put only when that one names its sequence number in `cas` and is not older. */
  lemma DisplacedOnlyByCas(e: Env, a: Loop, i: Input, t: Id)
    requires t in a.rpc.puts && a.rpc.puts[t].request.PutMutable? && t in Iterate(e, a, i).0.rpc.puts
    requires var after := Iterate(e, a, i).0.rpc.puts[t].request; after.PutMutable? && after != a.rpc.puts[t].request
    ensures var before, m := a.rpc.puts[t].request, i.message;
            && m.Put? && m.put.target == t && m.put.PutMutable?
            && m.put.cas == Some(before.seqNo) && m.put.seqNo >= before.seqNo
            && Iterate(e, a, i).0.rpc.puts[t].request == m.put
  {
    hide Tick, SubmitPut, StartLookup, SeedAll, Replay, Iterate;
    var s := BeforeTick(e, a, i);
    IterateRpc(e, a, i);
    AcceptPutRequest(e, a, i.message, i.tick.now, t);
    TickKeepsPutRequest(e, s, i.tick, t);
    if i.message.Put? && i.message.put.target == t && i.message.put.PutMutable? {
      MutablePutMeetsAnother(e, a.rpc, i.message.put, i.message.extra, i.tick.now);
    }
  }

  lemma SubmitKeepsPuts(e: Env, s: State, request: P.PutRequest, extra: seq<Node>, now: int, t: Id)
    requires t in s.puts
    ensures var s' := SubmitPut(e, s, request, extra, now).0;
            && t in s'.puts
            && (s'.puts[t].request == s.puts[t].request || (request.target == t && s'.puts[t].request == request))
  {
    hide StartLookup, P.Start, UsableCache, CachedNodes, Promote, Extends, Admit;
    var s1 := s.(cache := s.cache.(entries := Promote(s.cache.entries, request.target)));
    var salt := if request.PutMutable? then request.salt else None;
    LookupOnlyAdds(e, s1, GetValue(request.target, None, salt), [], now);
    var put := P.NewPut(request, extra, s.socket.sent);
    StartExtends(put, s1.socket, CachedNodes(s.cache, request.target), now);
  }

  lemma AcceptPutRequest(e: Env, a: Loop, m: ActorMessage, now: int, t: Id)
    requires t in a.rpc.puts
    ensures var s := Accept(e, a, m, now).0.rpc;
            && t in s.puts
            && (s.puts[t].request == a.rpc.puts[t].request || (m.Put? && m.put.target == t && s.puts[t].request == m.put))
  {
    hide StartLookup, SubmitPut, SeedAll, Replay;
    match m
    case Put(request, _, extra) => SubmitKeepsPuts(e, a.rpc, request, extra, now, t);
    case Get(request, _) => LookupOnlyAdds(e, a.rpc, request, [], now);
    case SeedRouting(_) =>
    case Idle =>
  }

  /** A put that meets no mutable put of its target starts at once if and only if some cached node of
      the target was seen within the last five minutes: one request goes to each cached or
      extra node with a token, in order, and no lookup is touched. Otherwise it waits for the
      live lookup of the target, or for a value lookup launched for it. */
  lemma StartsAtOnce(e: Env, s: State, request: P.PutRequest, extra: seq<Node>, now: int)
    requires !(request.PutMutable? && request.target in s.puts && s.puts[request.target].request.PutMutable?)
    requires |CachedNodes(s.cache, request.target)| + |extra| <= TID_SPACE
    ensures var (s', error) := SubmitPut(e, s, request, extra, now);
            var t, cached := request.target, CachedNodes(s.cache, request.target);
            && error.None? && t in s'.puts && s'.puts[t].request == request && s'.puts[t].storedAt == 0 && s'.puts[t].errors == []
            && ((exists n :: n in cached && now - n.lastSeen <= 300_000) ==>
                  && s'.queries == s.queries && s'.cache == s.cache.(entries := Promote(s.cache.entries, t))
                  && P.SentInOrder(s.socket, s'.socket, P.TokenHolders(cached + extra), now)
                  && |s'.puts[t].inflight| == |P.TokenHolders(cached + extra)|)
            && ((forall n :: n in cached ==> now - n.lastSeen > 300_000) ==>
                  && s'.puts[t].inflight == [] && s'.queries.Keys == s.queries.Keys + {t}
                  && (t in s.queries ==> s'.queries == s.queries && s'.socket == s.socket)
                  && (t !in s.queries ==>
                        s'.queries[t].request == GetValue(t, None, if request.PutMutable? then request.salt else None)))
  {
    hide LaunchQuery, P.SendAll, CachedNodes, Promote, Extends, P.SentInOrder, P.TokenHolders;
    var t, cached := request.target, CachedNodes(s.cache, request.target);
    var put := P.NewPut(request, extra, s.socket.sent);
    var s1 := s.(cache := s.cache.(entries := Promote(s.cache.entries, t)));
    P.SendAllHolders(put, s1.socket, cached + extra, now);
    StartExtends(put, s1.socket, cached, now);
    var salt := if request.PutMutable? then request.salt else None;
    LookupOnlyAdds(e, s1, GetValue(t, None, salt), [], now);
    LaunchExtends(e, s1, GetValue(t, None, salt), [], now);
  }
}
