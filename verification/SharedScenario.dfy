/**
  A lookup whose diagnostics do not add up. Two seeded nodes share one private address, so the
  lookup queries one address twice and is answered twice: one node queried, two responses.
 */
module SharedScenario {
  import opened Ids
  import opened Bep42
  import opened Nodes
  import opened ClosestNodes
  import opened RoutingTable
  import opened Sockets
  import opened IterativeQueries
  import opened QueryCache
  import opened Lru
  import opened Rpc
  import opened RpcLiveness
  import opened RpcCounts
  import opened RpcRuns
  import opened Actor
  import opened Scenarios
  import opened SentScenario

  const SHARED: Address := Address(0x0a000001, 6881)

  const ID_A: Id := [1, 0, 0, 0, 0, 0, 0, 0, 0, 0, 0, 0, 0, 0, 0, 0, 0, 0, 0, 0]
  const ID_B: Id := [2, 0, 0, 0, 0, 0, 0, 0, 0, 0, 0, 0, 0, 0, 0, 0, 0, 0, 0, 0]

  function NodeA(time: int): Node { Node(ID_A, SHARED, None, time) }
  function NodeB(time: int): Node { Node(ID_B, SHARED, None, time) }

  const LOOKUP: GetRequest := GetValue(SELF, None, None)

  /** The answer to request number `tid`: no values. */
  function NoValuesTo(tid: Tid): Packet {
    Packet(Message(tid, false, None, NoValuesResponse(ID_A, TOKEN, None)), SHARED, [], [SELF], SELF, 0)
  }

  function SharedRun(g: GetSender, time: int): seq<Input> {
    [Input(SeedRouting([NodeA(time), NodeB(time)]), TickInput(time, [], [], map[], None)),
     Input(Get(LOOKUP, g), TickInput(time, [], [SELF], map[], Some(NoValuesTo(0)))),
     Input(Idle, TickInput(time, [], [SELF], map[], Some(NoValuesTo(2))))]
  }

  // --- the seeded table ---

  lemma BothAreKept(time: int)
    ensures AllNodes(SeedAll(Table(OWN_ID, map[]), [NodeA(time), NodeB(time)], time)) == [NodeA(time), NodeB(time)]
  {
    hide Distance, First21Bits, TableInv, Flatten, AllNodes;
    var a, b := NodeA(time), NodeB(time);
    var t0 := Table(OWN_ID, map[]);
    SharedDistances();
    SharedSecurity(time);
    assert [] + [a] == [a] && [] + [b] == [b];
    var t1 := TableAdd(t0, a, time).0;
    assert t1 == Table(OWN_ID, map[153 := [a]]);
    assert !Taken(t1.buckets, b);
    var t2 := TableAdd(t1, b, time).0;
    assert t2 == Table(OWN_ID, map[153 := [a], 154 := [b]]);
    assert [a, b][1..] == [b] && [b][1..] == [];
    assert SeedAll(t2, [], time) == t2;
    assert SeedAll(t1, [b], time) == SeedAll(t2, [], time);
    assert SeedAll(t0, [a, b], time) == SeedAll(t1, [b], time);
    FlattenNeighbours(t2.buckets, a, b);
    assert AllNodes(t2) == Flatten(t2.buckets, 1) by { AllNodesIsFlatten(t2); }
  }

  lemma AllNodesIsFlatten(t: Table)
    ensures AllNodes(t) == Flatten(t.buckets, 1)
  {
  }

  lemma SharedDistances()
    ensures Distance(OWN_ID, ID_A) == 153 && Distance(OWN_ID, ID_B) == 154
  {
  }

  lemma SharedSecurity(time: int)
    ensures IsSecure(NodeA(time)) && IsSecure(NodeB(time)) && IsExempt(SHARED.ip) && First21Bits(ID_A) != First21Bits(ID_B)
  {
    assert First21Bits(ID_A)[0] == 1 && First21Bits(ID_B)[0] == 2;
  }

  lemma FlattenNeighbours(buckets: Buckets, a: Node, b: Node)
    requires buckets == map[153 := [a], 154 := [b]]
    ensures Flatten(buckets, 1) == [a, b]
  {
    EmptyBucketsAreSkipped(buckets, 1, 153);
    EmptyBucketsAreSkipped(buckets, 155, 161);
    assert Flatten(buckets, 161) == [];
    assert Flatten(buckets, 154) == [b] + Flatten(buckets, 155);
    assert Flatten(buckets, 153) == [a] + Flatten(buckets, 154);
  }

  // --- the lookup ---

  /** The lookup has asked its one address twice, and `k` answers have been counted. */
  ghost predicate AskedTwice(s: State, k: nat, time: int) {
    && s.queries.Keys == {SELF} && s.puts == map[] && s.lastRefresh == time && s.lastPing == time
    && s.socket.lastCleanup == time && s.socket.timeout > 0 && s.socket.sent == 4
    && (forall tid: Tid :: 0 < tid < 4 && !(tid == 2 && k == 2) ==>
          tid in s.socket.requests && s.socket.requests[tid] == InflightRequest(SHARED, time))
    && (k == 0 ==> 0 in s.socket.requests && s.socket.requests[0] == InflightRequest(SHARED, time))
    && TwiceAsking(s.queries[SELF], k)
  }

  predicate TwiceAsking(q: Query, k: nat) {
    && q.request == LOOKUP && q.inflight == [0, 1, 2, 3] && q.primary == [0, 2] && q.visited == {SHARED}
    && Responded(q.outcome) == k
    && forall n :: n in q.closest ==> n.address == SHARED
  }

  lemma TwiceVisited(q: Query, s: Socket, time: int)
    requires q.inflight == [] && q.primary == [] && q.visited == {} && s.sent == 0
    ensures var (q', s') := VisitAll(q, s, [SHARED, SHARED], time);
            && q' == q.(inflight := [0, 1, 2, 3], primary := [0, 2], visited := {SHARED})
            && s' == s.(sent := 4, requests := s'.requests)
            && forall tid: Tid :: tid < 4 ==> tid in s'.requests && s'.requests[tid] == InflightRequest(SHARED, time)
  {
    var (q1, s1) := Visit(q, s, SHARED, time);
    var (q2, s2) := Visit(q1, s1, SHARED, time);
    assert [SHARED, SHARED][1..] == [SHARED] && [SHARED][1..] == [];
    assert VisitAll(q2, s2, [], time) == (q2, s2);
    assert VisitAll(q1, s1, [SHARED], time) == VisitAll(q2, s2, [], time);
    assert Wrap(0) == 0 && Wrap(1) == 1 && Wrap(2) == 2 && Wrap(3) == 3;
    assert q2.inflight == [0, 1, 2, 3] && q2.primary == [0, 2];
  }

  /** What the two seeds make of a new lookup. */
  lemma SeedsShareAddress(a: Node, b: Node, edk: nat, subnets: nat, seeds: seq<Node>, q: Query)
    requires a.address == SHARED == b.address && First21Bits(a.id) != First21Bits(b.id) && IsExempt(SHARED.ip)
    requires seeds == TakeUntilSecure(SELF, AddAll(SELF, [], [a, b]), edk, subnets)
    requires q == AddCandidates(NewQuery(LOOKUP, 0), seeds)
    ensures |seeds| == 2 && multiset(q.closest) == multiset{a, b} && ToVisit(q) == [SHARED, SHARED]
    ensures q == NewQuery(LOOKUP, 0).(closest := q.closest)
  {
    hide First21Bits, IsExempt, AddAll, TakeLength, Unvisited;
    PairIsKept(SELF, a, b);
    var all := AddAll(SELF, [], [a, b]);
    assert |all| == |multiset(all)| == 2;
    assert all[..2] == all;
    assert all[0] in multiset(all) && all[1] in multiset(all);
    assert all == [all[0], all[1]];
    assert multiset(all) == multiset{all[0], all[1]};
    assert all[0] == a ==> all[1] == b by {
      if all[0] == a { assert multiset{all[0], all[1]} - multiset{a} == multiset{all[1]}; }
    }
    assert all[0] == b ==> all[1] == a by {
      if all[0] == b { assert multiset{all[0], all[1]} - multiset{b} == multiset{all[1]}; }
    }
    PairIsKept(SELF, all[0], all[1]);
    var nodes := q.closest;
    assert |nodes| == |multiset(nodes)| == 2;
    assert nodes[0] in multiset(nodes) && nodes[1] in multiset(nodes);
    assert Top(q) == nodes;
    PairIsUnvisited(nodes, SHARED);
  }

  lemma SeededLaunch(e: Env, s: State, time: int)
    requires e.bootstrap == [] && s.cache == EMPTY_CACHE && AllNodes(s.table) == [NodeA(time), NodeB(time)]
    requires s.socket.sent == 0
    ensures var (q, sock) := LaunchQuery(e, s, LOOKUP, [], time);
            && sock == s.socket.(sent := 4, requests := sock.requests)
            && (forall tid: Tid :: tid < 4 ==> tid in sock.requests && sock.requests[tid] == InflightRequest(SHARED, time))
            && q == NewQuery(LOOKUP, 0).(closest := q.closest, inflight := [0, 1, 2, 3], primary := [0, 2], visited := {SHARED})
            && forall n :: n in q.closest ==> n.address == SHARED
  {
    hide AllNodes, VisitAll, AddAll, Unvisited, TakeLength, ExpectedDk, AverageSubnets, First21Bits, IsExempt;
    SharedSecurity(time);
    var seeds := Seeds(e, s, SELF);
    var q := AddCandidates(NewQuery(LOOKUP, 0), seeds);
    SeedsShareAddress(NodeA(time), NodeB(time), ExpectedDk(e, s.cache), AverageSubnets(s.cache), seeds, q);
    NothingCached();
    NothingAdded(q);
    NoVisits(NewQuery(LOOKUP, 0), s.socket, time);
    TwiceVisited(q, s.socket, time);
    forall n | n in q.closest ensures n.address == SHARED {
      assert n in multiset(q.closest);
    }
  }

  lemma NothingCached()
    ensures CachedNodes(EMPTY_CACHE, SELF) == []
  {
  }

  lemma LaunchedIsAsking(q: Query)
    requires q == NewQuery(LOOKUP, 0).(closest := q.closest, inflight := [0, 1, 2, 3], primary := [0, 2], visited := {SHARED})
    requires forall n :: n in q.closest ==> n.address == SHARED
    ensures TwiceAsking(q, 0)
  {
  }

  lemma LaunchedIsAsked(s: State, q: Query, time: int)
    requires s.queries == map[SELF := q] && s.puts == map[] && s.lastRefresh == time && s.lastPing == time
    requires s.socket.lastCleanup == time && s.socket.timeout > 0 && s.socket.sent == 4
    requires forall tid: Tid :: tid < 4 ==> tid in s.socket.requests && s.socket.requests[tid] == InflightRequest(SHARED, time)
    requires TwiceAsking(q, 0)
    ensures AskedTwice(s, 0, time)
  {
    hide TwiceAsking;
  }

  lemma SeededLookup(e: Env, s: State, time: int)
    requires e.bootstrap == [] && s.queries == map[] && s.puts == map[] && s.cache == EMPTY_CACHE
    requires AllNodes(s.table) == [NodeA(time), NodeB(time)] && s.lastRefresh == time && s.lastPing == time
    requires s.socket.sent == 0 && s.socket.requests == map[] && s.socket.timeout > 0 && s.socket.lastCleanup == time
    ensures AskedTwice(StartLookup(e, s, LOOKUP, [], time), 0, time)
  {
    hide AllNodes, LaunchQuery, Promote, AskedTwice, NewQuery, TwiceAsking;
    SeededLaunch(e, s, time);
    var (q, sock) := LaunchQuery(e, s, LOOKUP, [], time);
    assert s.queries[SELF := q] == map[SELF := q];
    LaunchedIsAsking(q);
    LaunchedIsAsked(StartLookup(e, s, LOOKUP, [], time), q, time);
  }

  lemma NothingAdded(q: Query)
    ensures AddCandidates(q, []) == q
  {
  }

  lemma NoVisits(q: Query, s: Socket, time: int)
    ensures VisitAll(q, s, [] + [], time) == (q, s)
  {
  }

  // --- the answers ---

  lemma SharedAnswerArrives(e: Env, s: State, k: nat, time: int)
    requires k < 2 && AskedTwice(s, k, time)
    ensures var (s', response) := HandleMessage(e, s, Some(NoValuesTo(2 * k)), time);
            response == None && AskedTwice(s', k + 1, time) && !MessageOverflows(s, Some(NoValuesTo(2 * k)), time)
            && s'.socket.timeout == s.socket.timeout
  {
    hide Insert, TableAdd;
    var q, p := s.queries[SELF], NoValuesTo(2 * k);
    var sock := s.socket.(requests := s.socket.requests - {2 * k});
    assert Receive(s.socket, Datagram(false, 2 * k, SHARED), time) == (sock, true);
    assert FindPut(s.puts, [], p.message.tid) == None;
    assert 2 * k in q.primary && 2 * k in q.inflight;
    assert FindQuery(s.queries, [SELF], p.message.tid, false) == Some(SELF);
    NothingAdded(q);
  }

  lemma {:induction false} NothingLeft(nodes: seq<Node>, visited: set<Address>)
    requires forall n :: n in nodes ==> n.address in visited
    ensures Unvisited(nodes, visited) == []
  {
    if nodes != [] { NothingLeft(nodes[1..], visited); }
  }

  lemma SharedTick(e: Env, s: State, k: nat, i: TickInput)
    requires e.bootstrap == [] && AskedTwice(s, k, i.now) && i.getOrder == [SELF] && i.putOrder == []
    ensures AtMessage(e, s, i) == s
    ensures Tick(e, s, i) == (HandleMessage(e, s, i.packet, i.now).0, Report([], [], HandleMessage(e, s, i.packet, i.now).1))
  {
    hide AllNodes, ExpectedDk, AverageSubnets, HandleMessage;
    var q := s.queries[SELF];
    NothingLeft(Top(q), q.visited);
    assert VisitClosest(q, s.socket, i.now) == (q, s.socket);
    assert Inflight(s.socket, 1, i.now) && 1 in q.inflight;
    assert AnyLive(q, s.socket, i.now);
    assert TickQuery(q, s.socket, i.now) == (q, s.socket, false);
    assert s.queries[SELF := q] == s.queries;
    TickOne(s.queries, s.socket, SELF, ExpectedDk(e, s.cache), AverageSubnets(s.cache), i.now);
    assert TickPuts(s.puts, s.socket, [], i.now) == [];
    NothingFinished(e, s, i.voteOrder, i.now);
    var none: seq<(Id, PutResult)> := [];
    assert none + none == none && PutIds(none) == {} && s.puts - {} == s.puts;
    assert s.(queries := s.queries, socket := s.socket) == s;
    assert Settle(e, s, i) == (s.(puts := s.puts - PutIds(none)), [], none);
    assert Maintain(e, s, i.now) == s;
  }

  lemma SharedIteration(e: Env, a: Loop, m: ActorMessage, k: nat, time: int)
    requires k < 2 && e.bootstrap == [] && AskedTwice(Accept(e, a, m, time).0.rpc, k, time) && !m.Put?
    ensures var i := Input(m, TickInput(time, [], [SELF], map[], Some(NoValuesTo(2 * k))));
            && AskedTwice(Iterate(e, a, i).0.rpc, k + 1, time) && ValidIteration(e, a, i)
  {
    hide Accept, Tick, Iterate, HandleMessage, AskedTwice, MessageOverflows, AtMessage;
    var i := Input(m, TickInput(time, [], [SELF], map[], Some(NoValuesTo(2 * k))));
    var s := Accept(e, a, m, time).0.rpc;
    SharedTick(e, s, k, i.tick);
    SharedAnswerArrives(e, s, k, time);
    QuietIteration(e, a, i);
    OneOrder(SELF);
    NoOrder();
    SharedKeys(s, k, time);
  }

  lemma SharedKeys(s: State, k: nat, time: int)
    requires AskedTwice(s, k, time)
    ensures s.queries.Keys == {SELF} && s.puts.Keys == {} && s.socket.sent == 4
    ensures |s.queries[SELF].visited| == 1 && Responded(s.queries[SELF].outcome) == k
  {
  }

  // --- the run ---

  /** The iteration that seeds the table of a node without bootstrap nodes. */
  lemma SeedingIteration(e: Env, b: Birth, a: Loop, i: Input)
    requires e.bootstrap == [] && b.id == OWN_ID && b.timeout > 0 && a == Newborn(b)
    requires i == Input(SeedRouting([NodeA(b.time), NodeB(b.time)]), TickInput(b.time, [], [], map[], None))
    ensures ValidIteration(e, a, i)
    ensures var s := Iterate(e, a, i).0.rpc;
            s == NewState(OWN_ID, b.timeout, b.serverMode, b.time).(table := s.table)
            && AllNodes(s.table) == [NodeA(b.time), NodeB(b.time)]
  {
    hide AllNodes, SeedAll, ExpectedDk, AverageSubnets;
    BothAreKept(b.time);
    var a1 := Accept(e, a, i.message, b.time).0;
    var s := a1.rpc;
    assert TickPuts(s.puts, s.socket, [], b.time) == [];
    assert TickGets(s.queries, s.socket, [], ExpectedDk(e, s.cache), AverageSubnets(s.cache), b.time) == (s.queries, s.socket, []);
    NothingFinished(e, s, map[], b.time);
    var none: seq<(Id, PutResult)> := [];
    assert none + none == none && PutIds(none) == {} && s.puts - {} == s.puts;
    assert s.(queries := s.queries, socket := s.socket) == s;
    assert Settle(e, s, i.tick) == (s.(puts := s.puts - PutIds(none)), [], none);
    assert Maintain(e, s, b.time) == s;
    assert Tick(e, s, i.tick) == (s, Report([], [], None));
    QuietIteration(e, a, i);
    NoOrder();
  }

  lemma LookupIteration(e: Env, a: Loop, g: GetSender, timeout: nat, serverMode: bool, time: int)
    requires e.bootstrap == [] && timeout > 0
    requires a.rpc == NewState(OWN_ID, timeout, serverMode, time).(table := a.rpc.table)
    requires AllNodes(a.rpc.table) == [NodeA(time), NodeB(time)]
    ensures AskedTwice(Accept(e, a, Get(LOOKUP, g), time).0.rpc, 0, time)
  {
    hide AllNodes, StartLookup, AskedTwice, Replay;
    SeededLookup(e, a.rpc, time);
  }

  /** In three iterations of a new node a lookup has queried one address and counted two
      responses, so that its diagnostics do not add up. */
  lemma DiagnosticsDoNotAddUp(e: Env, b: Birth, g: GetSender)
    requires e.bootstrap == [] && b.id == OWN_ID && b.timeout > 0
    ensures var inputs := SharedRun(g, b.time);
            var s := Run(e, Newborn(b), inputs).0.rpc;
            && Life(e, b, inputs) && SELF in s.queries
            && var o := FinalOutcome(s.queries[SELF]);
               o.queried == 1 && Responded(o) == 2 && Responded(o) + TimedOut(o) != o.queried
  {
    hide Run, Life, Accept, Iterate, AskedTwice, ValidIteration, YoungStep, Newborn, AllNodes;
    var inputs, a0 := SharedRun(g, b.time), Newborn(b);
    var i0, i1, i2 := inputs[0], inputs[1], inputs[2];
    LifeBegins(e, b);
    SeedingIteration(e, b, a0, i0);
    var a1 := Iterate(e, a0, i0).0;
    assert BeforeTick(e, a0, i0).socket.sent == 0 by { SeedingSendsNothing(e, b, i0.message); }
    GoesOn(e, b, [], i0);
    assert [] + [i0] == [i0];
    LookupIteration(e, a1, g, b.timeout, b.serverMode, b.time);
    SharedIteration(e, a1, i1.message, 0, b.time);
    var a2 := Iterate(e, a1, i1).0;
    SharedKeys(BeforeTick(e, a1, i1), 0, b.time);
    SharedKeys(a2.rpc, 1, b.time);
    GoesOn(e, b, [i0], i1);
    assert [i0] + [i1] == [i0, i1];
    IdleChangesNothing(e, a2, b.time);
    SharedIteration(e, a2, i2.message, 1, b.time);
    var a3 := Iterate(e, a2, i2).0;
    SharedKeys(a3.rpc, 2, b.time);
    GoesOn(e, b, [i0, i1], i2);
    assert [i0, i1] + [i2] == inputs;
    FinalKeepsCounters(a3.rpc.queries[SELF]);
  }

  lemma FinalKeepsCounters(q: Query)
    ensures FinalOutcome(q).queried == |q.visited| && Responded(FinalOutcome(q)) == Responded(q.outcome)
  {
  }

  lemma SeedingSendsNothing(e: Env, b: Birth, m: ActorMessage)
    requires m.SeedRouting?
    ensures Accept(e, Newborn(b), m, b.time).0.rpc.socket.sent == 0
  {
    hide SeedAll;
  }

  /** A run at one moment goes on while only few requests are sent. */
  lemma GoesOn(e: Env, b: Birth, inputs: seq<Input>, i: Input)
    requires Life(e, b, inputs) && ValidIteration(e, Run(e, Newborn(b), inputs).0, i)
    requires Clock(inputs, b.time) <= i.tick.now
    requires var a := Run(e, Newborn(b), inputs).0;
             BeforeTick(e, a, i).socket.sent <= 2000 && Iterate(e, a, i).0.rpc.socket.sent <= 2000
    ensures Life(e, b, inputs + [i]) && Run(e, Newborn(b), inputs + [i]).0 == Iterate(e, Run(e, Newborn(b), inputs).0, i).0
  {
    hide Run, Life, Accept, Iterate, ValidIteration, YoungStep;
    var a := Run(e, Newborn(b), inputs).0;
    FewRequestsAreYoung(a.rpc, BeforeTick(e, a, i));
    FewRequestsAreYoung(BeforeTick(e, a, i), Iterate(e, a, i).0.rpc);
    LifeGoesOn(e, b, inputs, i);
  }
}
