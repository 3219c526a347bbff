/**
  What follows when the lookup of an announcement times out after one answer: the put goes to
  the node that answered and to the nodes handed in with it, and they refuse it one by one,
  all with the same error code.
 */
module SentScenario {
  import opened Ids
  import opened Bep42
  import opened Nodes
  import opened RoutingTable
  import opened Sockets
  import opened IterativeQueries
  import opened QueryCache
  import opened Rpc
  import opened RpcReports
  import opened RpcLiveness
  import opened RpcCounts
  import opened RpcRuns
  import opened Actor
  import opened Scenarios
  import opened PanicScenario

  /** The default request timeout, two seconds. */
  const TIMEOUT: nat := 2000

  /** The announcement is made with usable nodes, few enough to count their ids. */
  predicate Usable(e: Env, c: Call) {
    PrivateNetwork(e, 1) && |c.extra| < 1000 && forall n :: n in c.extra ==> n.token.Some? && n.address.port != 0
  }

  /** The nodes the put is sent to. */
  function Targets(e: Env, c: Call, time: int): (r: seq<Node>)
    requires |e.bootstrap| == 1
    ensures |r| == 1 + |c.extra|
  {
    [Answerer(e, 0, time)] + c.extra
  }

  /** The id of the `j`th request after the lookup's two. */
  function TidAt(j: nat): Tid
    requires j <= 1000
  {
    2 + j
  }

  /** The ids of the first `n` of them. */
  function TidsFrom(n: nat): (r: seq<Tid>)
    requires n <= 1000
    ensures |r| == n && forall j :: 0 <= j < n ==> r[j] == TidAt(j)
  {
    if n == 0 then [] else TidsFrom(n - 1) + [TidAt(n - 1)]
  }

  /** The put after `k` refusals with the given code. */
  function RefusedPut(c: Call, code: int, k: nat): P.Put
    requires |c.extra| < 1000
  {
    P.NewPut(ANNOUNCE, c.extra, 0).(inflight := TidsFrom(1 + |c.extra|),
                                    errors := P.Tally(P.Copies(code, k)), received := P.Copies(code, k))
  }

  /** The put is out, and the first `k` nodes have refused it. */
  ghost predicate Refused(e: Env, s: State, c: Call, code: int, k: nat, time: int)
    requires Usable(e, c)
  {
    && k <= 1 + |c.extra|
    && s.queries == map[] && s.table.id == SELF && AllNodes(s.table) != [] && s.publicAddress == None
    && s.lastRefresh == time && s.lastPing == time
    && s.socket.timeout == TIMEOUT && s.socket.sent == 3 + |c.extra|
    && s.puts == map[SELF := RefusedPut(c, code, k)]
    && (forall j :: k <= j < 1 + |c.extra| ==>
          TidAt(j) in s.socket.requests &&
          s.socket.requests[TidAt(j)] == InflightRequest(Targets(e, c, time)[j].address, time + TIMEOUT))
    && (forall j :: 0 <= j < k ==> TidAt(j) !in s.socket.requests)
  }

  // --- the put is sent ---

  lemma {:induction false} OneAnswerer(e: Env, nodes: seq<Node>, time: int)
    requires |e.bootstrap| == 1 && FirstAnswerers(e, nodes, 1, time)
    ensures nodes == [Answerer(e, 0, time)]
  {
    hide AnswererId;
    assert nodes[0] in nodes;
  }

  /** The first `m` of the nodes have been sent to. */
  ghost predicate SentTo(p: P.Put, q: P.Put, s: Socket, r: Socket, nodes: seq<Node>, m: nat, now: int)
    requires m <= |nodes| <= 1000
  {
    && q == p.(inflight := TidsFrom(m)) && r == s.(sent := 2 + m, requests := r.requests)
    && (forall j :: 0 <= j < m ==> TidAt(j) in r.requests && r.requests[TidAt(j)] == InflightRequest(nodes[j].address, now))
  }

  lemma OneMoreIsSent(p: P.Put, q: P.Put, s: Socket, r: Socket, nodes: seq<Node>, m: nat, now: int)
    requires m < |nodes| <= 1000 && SentTo(p, q, s, r, nodes, m, now)
    ensures SentTo(p, q.(inflight := q.inflight + [TidAt(m)]), s, Request(r, nodes[m].address, now), nodes, m + 1, now)
    ensures Wrap(r.sent) == TidAt(m)
  {
    assert Wrap(2 + m) == TidAt(m);
    var r' := Request(r, nodes[m].address, now);
    forall j | 0 <= j < m + 1
      ensures TidAt(j) in r'.requests && r'.requests[TidAt(j)] == InflightRequest(nodes[j].address, now)
    {
    }
  }

  lemma {:induction false} EveryoneIsSent(p: P.Put, q: P.Put, s: Socket, r: Socket, nodes: seq<Node>, m: nat, now: int)
    requires m <= |nodes| <= 1000 && SentTo(p, q, s, r, nodes, m, now)
    requires forall n :: n in nodes ==> n.token.Some?
    ensures var (q', r') := P.SendAll(q, r, nodes[m..], now); SentTo(p, q', s, r', nodes, |nodes|, now)
    decreases |nodes| - m
  {
    hide SentTo;
    if m < |nodes| {
      assert nodes[m..][0] == nodes[m] && nodes[m..][1..] == nodes[m + 1..];
      assert nodes[m] in nodes;
      OneMoreIsSent(p, q, s, r, nodes, m, now);
      EveryoneIsSent(p, q.(inflight := q.inflight + [TidAt(m)]), s, Request(r, nodes[m].address, now), nodes, m + 1, now);
    }
  }

  lemma FinishOnly(e: Env, s: State, d: Done, order: VoteOrders, now: int)
    ensures FinishAll(e, s, [d], order, now) == FinishOne(e, s, d, order, now)
  {
    hide FinishOne;
    var (s1, failed) := FinishOne(e, s, d, order, now);
    assert [d][1..] == [];
    assert FinishAll(e, s1, [], order, now) == (s1, []);
    assert failed + [] == failed;
  }

  lemma {:induction false} NoVotes(order: seq<Address>)
    ensures BestFrom(map[], order, None, 0) == None
  {
    if order != [] { NoVotes(order[1..]); }
  }

  lemma FinishedAnnouncement(e: Env, s: State, d: Done, c: Call, code: int, order: VoteOrders, time: int)
    requires Usable(e, c) && LookingUp(e, s, VALUE_LOOKUP, time) && s.puts == map[SELF := P.NewPut(ANNOUNCE, c.extra, 0)]
    requires d.id == SELF && d.closest == [Answerer(e, 0, time)] && AllNodes(s.table) != [] && s.socket.timeout == TIMEOUT
    ensures var (s', failed) := FinishOne(e, s, d, order, time + TIMEOUT);
            && failed == [] && Refused(e, s', c, code, 0, time)
            && s' == s.(queries := map[], puts := s'.puts, socket := s.socket.(sent := s'.socket.sent, requests := s'.socket.requests))
  {
    hide Asked, CacheEntry, AnswererId, AllNodes, P.SendAll;
    var q, now := s.queries[SELF], time + TIMEOUT;
    NoVotes(OrderFor(order, SELF));
    forall entry: Cached ensures CacheQuery(s.cache, SELF, [], entry) == s.cache { }
    var p, nodes := s.puts[SELF], Targets(e, c, time);
    assert TidsFrom(0) == p.inflight;
    EveryoneIsSent(p, p, s.socket, s.socket, nodes, 0, now);
    assert nodes[0..] == nodes;
    assert s.queries - {SELF} == map[];
    assert P.Tally([]) == [] by { P.EmptyIsEmpty(); }
    var p' := P.SendAll(p, s.socket, nodes, now).0;
    assert p' == RefusedPut(c, code, 0);
    assert s.puts[SELF := p'] == map[SELF := p'];
  }

  /** The lookup is over: its put is sent to the node that answered and to the others. */
  lemma AnnouncementIsSent(e: Env, a: Loop, i: TickInput, c: Call, code: int, time: int)
    requires Usable(e, c) && Answered(e, a, 1, c, time) && a.rpc.socket.timeout == TIMEOUT
    requires i.getOrder == [SELF] && i.now == time + TIMEOUT
    ensures var (s', dones, results) := Settle(e, a.rpc, i);
            && results == [] && Refused(e, s', c, code, 0, time) && s'.socket.lastCleanup == time
            && dones == [MakeDone(SELF, a.rpc.queries[SELF], ExpectedDk(e, a.rpc.cache), 20)]
            && forall d :: d in dones ==> |d.closest| <= 1
  {
    hide MakeDone, ExpectedDk, AverageSubnets, Asked, FirstAnswerers, Answerer, TickPuts, TickGets, FinishOne, FinishAll, AllNodes,
         TableAdd;
    var s := a.rpc;
    var q := s.queries[SELF];
    UnstartedNotPolled(s.puts, s.socket, i.putOrder, i.now);
    LookupTimesOut(e, s, VALUE_LOOKUP, time, i.now);
    AnswerersAreFound(e, q, ExpectedDk(e, s.cache), 1, time);
    OneAnswerer(e, q.responders, time);
    MakeDoneId(SELF, q, ExpectedDk(e, s.cache), 20);
    var d := MakeDone(SELF, q, ExpectedDk(e, s.cache), 20);
    FirstAnswererIsKept(e, time);
    FinishedAnnouncement(e, s, d, c, code, i.voteOrder, time);
    FinishOnly(e, s, d, i.voteOrder, i.now);
    assert s.(queries := s.queries, socket := s.socket) == s;
    assert PutIds([]) == {};
    var after := FinishOne(e, s, d, i.voteOrder, i.now).0;
    assert after.puts - {} == after.puts;
    var none: seq<(Id, PutResult)> := [];
    assert none + none == none;
    assert Settle(e, s, i) == (after, [d], none);
  }

  lemma FirstAnswererIsKept(e: Env, time: int)
    requires |e.bootstrap| == 1
    ensures AllNodes(TableAdd(Table(SELF, map[]), Answerer(e, 0, time).(token := None), time).0) != []
  {
    hide AllNodes, TableAdd;
    NotSelf();
    TableIsNotEmpty(Table(SELF, map[]), Answerer(e, 0, time).(token := None), time);
  }

  lemma NotSelf()
    ensures AnswererId(0) != SELF
  {
    assert AnswererId(0)[2] == 0 && SELF[2] == 255;
  }

  lemma TableIsNotEmpty(t: Table, n: Node, now: int)
    requires t.buckets == map[] && t.id != n.id
    ensures AllNodes(TableAdd(t, n, now).0) != []
  {
    hide AllNodes, TableInv, Distance;
    DistanceIsUltrametric(t.id, n.id, n.id);
    var t' := TableAdd(t, n, now).0;
    assert [] + [n] == [n];
    assert t'.buckets == map[Distance(t.id, n.id) := [n]];
    EmptyIsValid(t.id);
    assert t == Table(t.id, map[]);
    AddKeepsInv(t, n, now);
    AllNodesExact(t');
    assert Holds(t', n);
  }

  // --- it is refused ---

  /** Node `k` refuses the put. */
  function RefusalOf(e: Env, c: Call, code: int, k: nat, time: int): Packet
    requires Usable(e, c) && k <= |c.extra|
  {
    Packet(Message(TidAt(k), false, None, ErrorMessage(P.ErrorSpecific(code, ""))), Targets(e, c, time)[k].address,
           [SELF], [], SELF, 0)
  }

  lemma TargetsAnswer(e: Env, c: Call, k: nat, time: int)
    requires Usable(e, c) && k <= |c.extra|
    ensures Targets(e, c, time)[k].address.port != 0
  {
    hide AnswererId;
    var targets := Targets(e, c, time);
    assert targets[k] == (if k == 0 then Answerer(e, 0, time) else c.extra[k - 1]);
    assert k > 0 ==> c.extra[k - 1] in c.extra;
  }

  lemma RefusalIsDelivered(e: Env, s: State, c: Call, code: int, k: nat, time: int)
    requires Usable(e, c) && k <= |c.extra| && Refused(e, s, c, code, k, time)
    ensures var from := Targets(e, c, time)[k].address;
            var (sock, delivered) := Receive(s.socket, Datagram(false, TidAt(k), from), time + TIMEOUT);
            delivered && Refused(e, s.(socket := sock, puts := map[SELF := RefusedPut(c, code, k + 1)]), c, code, k + 1, time)
  {
    hide AllNodes, RefusedPut, Targets;
    TargetsAnswer(e, c, k, time);
    var targets, now := Targets(e, c, time), time + TIMEOUT;
    var tidy := Tidy(s.socket, now);
    forall j | k <= j < 1 + |c.extra|
      ensures TidAt(j) in tidy.requests && tidy.requests[TidAt(j)] == InflightRequest(targets[j].address, now)
    {
    }
    forall j | 0 <= j < k ensures TidAt(j) !in tidy.requests {
    }
    var (requests, accepted) := Remove(tidy.requests, TIMEOUT, TidAt(k), targets[k].address, now);
    assert accepted && requests == tidy.requests - {TidAt(k)};
  }

  lemma RefusalIsTaken(c: Call, code: int, k: nat)
    requires k <= |c.extra| < 1000
    ensures P.TakeError(RefusedPut(c, code, k), P.ErrorSpecific(code, "")) == RefusedPut(c, code, k + 1)
    ensures P.CountOf(RefusedPut(c, code, k).errors, code) == k % 256
    ensures TidAt(k) in RefusedPut(c, code, k).inflight
  {
    hide P.Tally, P.Copies, P.RecordError, P.CountOf;
    assert TidsFrom(1 + |c.extra|)[k] == TidAt(k);
    CopiesCount(code, k);
    P.OneMoreError(P.Copies(code, k), P.ErrorSpecific(code, ""));
    MoreCopies(code, k);
  }

  /** The refusal is tallied; it finds its count at 255 exactly every 256th time. */
  lemma RefusalIsTallied(e: Env, s: State, c: Call, code: int, k: nat, time: int)
    requires Usable(e, c) && k <= |c.extra| && Refused(e, s, c, code, k, time)
    ensures var (s', response) := HandleMessage(e, s, Some(RefusalOf(e, c, code, k, time)), time + TIMEOUT);
            response == None && Refused(e, s', c, code, k + 1, time)
    ensures MessageOverflows(s, Some(RefusalOf(e, c, code, k, time)), time + TIMEOUT) <==> k % 256 == 255
  {
    hide AllNodes, Receive, Targets, RefusedPut, P.TakeError, P.CountOf;
    RefusalIsDelivered(e, s, c, code, k, time);
    RefusalIsTaken(c, code, k);
    var p := RefusalOf(e, c, code, k, time);
    assert FindPut(s.puts, [SELF], TidAt(k)) == Some(SELF);
    var put' := P.TakeError(s.puts[SELF], P.ErrorSpecific(code, ""));
    assert s.puts[SELF := put'] == map[SELF := put'];
  }

  lemma MoreCopies(code: int, k: nat)
    ensures P.Copies(code, k + 1) == P.Copies(code, k) + [P.ErrorSpecific(code, "")]
  {
  }

  lemma CopiesCount(code: int, k: nat)
    ensures P.CountOf(P.Tally(P.Copies(code, k)), code) == k % 256
  {
    hide P.Tally, P.Copies, P.CountOf;
    P.TallyModulo(P.Copies(code, k), code);
    P.CopiesOccur(code, k, code);
  }

  /** While a node is still to answer, a tick does nothing but handle its message. */
  lemma RefusalTick(e: Env, s: State, c: Call, code: int, k: nat, time: int, i: TickInput)
    requires Usable(e, c) && k <= |c.extra| && Refused(e, s, c, code, k, time)
    requires i.putOrder == [SELF] && i.getOrder == [] && i.now == time + TIMEOUT
    ensures AtMessage(e, s, i) == s
    ensures Tick(e, s, i) == (HandleMessage(e, s, i.packet, i.now).0, Report([], [], HandleMessage(e, s, i.packet, i.now).1))
  {
    hide AllNodes, HandleMessage, ExpectedDk, AverageSubnets, P.Tally, P.Copies;
    var p := s.puts[SELF];
    assert p.inflight[k] == TidAt(k);
    assert Inflight(s.socket, TidAt(k), i.now);
    assert P.PollCompletion(p, s.socket, i.now) == P.Pending;
    assert [SELF][1..] == [];
    assert TickPuts(s.puts, s.socket, [], i.now) == [];
    assert TickPuts(s.puts, s.socket, [SELF], i.now) == [];
    assert TickGets(s.queries, s.socket, [], ExpectedDk(e, s.cache), AverageSubnets(s.cache), i.now) == (s.queries, s.socket, []);
    assert PutIds([]) == {};
    assert s.puts - {} == s.puts;
    assert s.(queries := s.queries, socket := s.socket) == s;
    NothingFinished(e, s, i.voteOrder, i.now);
    var none: seq<(Id, PutResult)> := [];
    assert none + none == none;
    assert Settle(e, s, i) == (s.(puts := s.puts - PutIds(none)), [], none);
    assert Maintain(e, s, i.now) == s;
  }

  lemma NothingFinished(e: Env, s: State, order: VoteOrders, now: int)
    ensures FinishAll(e, s, [], order, now) == (s, [])
  {
  }

  // --- as runs ---

  /** The iteration in which node `k` refuses; the first also ends the lookup. */
  function RefusalInput(e: Env, c: Call, code: int, k: nat, time: int): Input
    requires Usable(e, c) && k <= |c.extra|
  {
    Input(Idle, TickInput(time + TIMEOUT, [SELF], if k == 0 then [SELF] else [], map[], Some(RefusalOf(e, c, code, k, time))))
  }

  /** One answer, then the first `k` refusals. */
  function RefusalRun(e: Env, c: Call, code: int, k: nat, time: int): seq<Input>
    requires Usable(e, c) && k <= 1 + |c.extra|
  {
    if k == 0 then AnswerRun(e, time, 1, c)
    else RefusalRun(e, c, code, k - 1, time) + [RefusalInput(e, c, code, k - 1, time)]
  }

  /** The state of a run that a refusal can follow. */
  ghost predicate Refusing(e: Env, a: Loop, c: Call, code: int, k: nat, time: int)
    requires Usable(e, c)
  {
    && PutWaiting(a, SELF) == [c.channel]
    && if k == 0 then Answered(e, a, 1, c, time) && a.rpc.socket.timeout == TIMEOUT
       else Refused(e, a.rpc, c, code, k, time)
  }

  /** One refusal. It is a valid iteration unless overflow is checked and it is a 256th one. */
  lemma RefusalIteration(e: Env, a: Loop, c: Call, code: int, k: nat, time: int)
    requires Usable(e, c) && k <= |c.extra| && Refusing(e, a, c, code, k, time)
    ensures var i := RefusalInput(e, c, code, k, time);
            && Refusing(e, Iterate(e, a, i).0, c, code, k + 1, time)
            && ValidInput(Accept(e, a, i.message, i.tick.now).0.rpc, i.tick)
            && (IterationFits(e, a, i) <==> (e.overflowChecks ==> k % 256 != 255))
  {
    hide Tick, Iterate, HandleMessage, MessageOverflows, Refused, RefusalOf, Answered, AtMessage;
    var i := RefusalInput(e, c, code, k, time);
    IdleChangesNothing(e, a, i.tick.now);
    OneOrder(SELF);
    NoOrder();
    if k == 0 {
      FirstRefusal(e, a, c, code, time);
    } else {
      RefusalTick(e, a.rpc, c, code, k, time, i.tick);
      RefusalIsTallied(e, a.rpc, c, code, k, time);
      RefusedKeys(e, a.rpc, c, code, k, time);
    }
    SilentTick(e, a, i);
  }

  lemma RefusedKeys(e: Env, s: State, c: Call, code: int, k: nat, time: int)
    requires Usable(e, c) && Refused(e, s, c, code, k, time)
    ensures s.queries.Keys == {} && s.puts.Keys == {SELF}
  {
    hide AllNodes;
  }

  lemma SilentTick(e: Env, a: Loop, i: Input)
    requires i.message.Idle? && Tick(e, a.rpc, i.tick).1.puts == [] && Tick(e, a.rpc, i.tick).1.response == None
    ensures Iterate(e, a, i).0.rpc == Tick(e, a.rpc, i.tick).0
    ensures PutWaiting(Iterate(e, a, i).0, SELF) == PutWaiting(a, SELF)
  {
    hide Tick, CloseGets, ClosePuts, DoneIds, Occurs, SenderOccurs;
    IterateRpc(e, a, i);
    var (rpc, report) := Tick(e, a.rpc, i.tick);
    CloseGetsConserves(a.(rpc := rpc), report.gets, SELF, 0);
    ClosePutsConserves(CloseGets(a.(rpc := rpc), report.gets).0, report.puts, SELF, 0);
    assert PutIds([]) == {};
  }

  /** The first refusal arrives in the tick that sends the put. */
  lemma FirstRefusal(e: Env, a: Loop, c: Call, code: int, time: int)
    requires Usable(e, c) && Answered(e, a, 1, c, time) && a.rpc.socket.timeout == TIMEOUT
    ensures var i := RefusalInput(e, c, code, 0, time).tick;
            var (s', report) := Tick(e, a.rpc, i);
            && report.puts == [] && report.response == None && Refused(e, s', c, code, 1, time)
            && TickFits(e, a.rpc, i) && a.rpc.queries.Keys == {SELF} && a.rpc.puts.Keys == {SELF}
  {
    hide MakeDone, ExpectedDk, AverageSubnets, Asked, FirstAnswerers, AnswererId, Settle, AllNodes, TableAdd, HandleMessage,
         MessageOverflows, P.Tally, P.Copies;
    var s, i := a.rpc, RefusalInput(e, c, code, 0, time).tick;
    AnnouncementIsSent(e, a, i, c, code, time);
    var s1 := Settle(e, s, i).0;
    assert Maintain(e, s1, i.now) == s1;
    RefusalIsTallied(e, s1, c, code, 0, time);
  }

  /** The runs are lives of a node, for as long as no count overflows or nobody checks. */
  lemma {:induction false} RefusalsArrive(e: Env, b: Birth, c: Call, code: int, k: nat)
    requires Usable(e, c) && k <= 1 + |c.extra| && b.id == SELF && b.timeout == TIMEOUT
    requires e.overflowChecks ==> k <= 255
    ensures Life(e, b, RefusalRun(e, c, code, k, b.time))
    ensures Refusing(e, Run(e, Newborn(b), RefusalRun(e, c, code, k, b.time)).0, c, code, k, b.time)
    ensures Clock(RefusalRun(e, c, code, k, b.time), b.time) <= b.time + TIMEOUT
  {
    hide Life, Run, Refusing, Accept, Iterate, ValidInput, IterationFits, Newborn, YoungStep;
    if k == 0 {
      AnswersArrive(e, b, 1, c);
      RefusingBegins(e, Run(e, Newborn(b), AnswerRun(e, b.time, 1, c)).0, c, code, b.time);
    } else {
      var init, i := RefusalRun(e, c, code, k - 1, b.time), RefusalInput(e, c, code, k - 1, b.time);
      RefusalsArrive(e, b, c, code, k - 1);
      var a := Run(e, Newborn(b), init).0;
      RefusalIteration(e, a, c, code, k - 1, b.time);
      IdleChangesNothing(e, a, i.tick.now);
      RefusingSent(e, a, c, code, k - 1, b.time);
      RefusingSent(e, Iterate(e, a, i).0, c, code, k, b.time);
      FewRequestsAreYoung(a.rpc, BeforeTick(e, a, i));
      FewRequestsAreYoung(BeforeTick(e, a, i), Iterate(e, a, i).0.rpc);
      LifeGoesOn(e, b, init, i);
    }
  }

  lemma RefusingBegins(e: Env, a: Loop, c: Call, code: int, time: int)
    requires Usable(e, c) && Answered(e, a, 1, c, time) && a.rpc.socket.timeout == TIMEOUT
    ensures Refusing(e, a, c, code, 0, time)
  {
  }

  lemma RefusingSent(e: Env, a: Loop, c: Call, code: int, k: nat, time: int)
    requires Usable(e, c) && Refusing(e, a, c, code, k, time)
    ensures a.rpc.socket.sent <= 2000
  {
    hide AllNodes, FirstAnswerers, Asked;
  }
}
