/**
  The other way a put stalls. A find_node lookup on the target has finished, and the nodes it
  found are cached without tokens; the put starts with them and sends nothing.
 */
module CachedStallScenario {
  import opened Ids
  import opened Bep42
  import opened Nodes
  import opened ClosestNodes
  import opened RoutingTable
  import opened Sockets
  import opened IterativeQueries
  import opened QueryCache
  import opened Lru
  import opened Rpc
  import opened RpcPuts
  import opened RpcLiveness
  import opened RpcRuns
  import opened Actor
  import opened Scenarios
  import opened SentScenario
  import opened SharedScenario
  import opened StallScenario

  /** The node that the bootstrap node names. It carries no token. */
  function Named(time: int): Node {
    Node(AnswererId(1), SHARED, None, time)
  }

  /** The bootstrap node names it. */
  function Naming(e: Env, time: int): Packet
    requires |e.bootstrap| == 1
  {
    Packet(Message(0, false, None, FindNodeResponse(AnswererId(0), [Named(time)])), e.bootstrap[0], [], [SELF], SELF, 0)
  }

  function CachedCalls(e: Env, g: GetSender, c: nat, time: int): seq<Input>
    requires |e.bootstrap| == 1
  {
    [Input(Get(FIND_SELF, g), TickInput(time, [], [SELF], map[], Some(Naming(e, time)))),
     Input(Idle, TickInput(time, [], [SELF], map[], None)),
     Input(Idle, TickInput(time + TIMEOUT, [], [SELF], map[], None)),
     Input(Put(ANNOUNCE, c, []), TickInput(time + TIMEOUT, [SELF], [], map[], None))]
  }

  /** The lookup knows the named node; `visited` says whether it has been asked. */
  ghost predicate Knowing(e: Env, a: Loop, asked: bool, time: int)
    requires |e.bootstrap| == 1
  {
    var s := a.rpc;
    && a.putSenders == map[]
    && s.queries.Keys == {SELF} && s.puts == map[] && s.cache == EMPTY_CACHE && s.publicAddress == None
    && s.table.id == SELF && AllNodes(s.table) != []
    && s.lastRefresh == time && s.lastPing == time && s.socket.lastCleanup == time
    && s.socket.timeout == TIMEOUT && s.socket.sent == (if asked then 4 else 2)
    && (forall t :: t in s.socket.requests ==> s.socket.requests[t].sentAt == time)
    && KnowingQuery(s.queries[SELF], asked, time) && Asked(s.queries[SELF], s.socket, 1, e.bootstrap[0], time)
    && s.queries[SELF].visited == {e.bootstrap[0]} + (if asked then {SHARED} else {})
  }

  predicate KnowingQuery(q: Query, asked: bool, time: int) {
    q.request == FIND_SELF && q.closest == [Named(time)] && q.votes == map[]
  }

  // --- the named node is learnt and asked ---

  lemma OneVisited(q: Query, s: Socket, e: Env, time: int)
    requires |e.bootstrap| == 1 && s.sent == 0 && q.visited == {}
    ensures VisitAll(q, s, e.bootstrap, time).0.visited == {e.bootstrap[0]}
  {
    VisitAllEffect(q, s, e.bootstrap, time);
    assert forall x :: x in e.bootstrap <==> x == e.bootstrap[0];
  }

  lemma FindLaunches(e: Env, b: Birth, g: GetSender)
    requires PrivateNetwork(e, 1) && b.id == SELF && b.timeout == TIMEOUT
    ensures var a := Accept(e, Newborn(b), Get(FIND_SELF, g), b.time).0;
            && LookingUp(e, a.rpc, FIND_SELF, b.time) && a.rpc.puts == map[] && a.putSenders == map[]
            && a.rpc.table == Table(SELF, map[]) && a.rpc.socket.timeout == TIMEOUT
            && a.rpc.queries[SELF].visited == {e.bootstrap[0]}
            && Asked(a.rpc.queries[SELF], a.rpc.socket, 0, e.bootstrap[0], b.time)
  {
    hide StartLookup, Replay, LookingUp, Asked;
    LaunchWaits(e, Newborn(b).rpc, FIND_SELF, b.time);
    FindVisits(e, Newborn(b).rpc, b.time);
    assert 2 * 0 == 0;
  }

  lemma FindVisits(e: Env, s: State, time: int)
    requires |e.bootstrap| == 1 && s.queries == map[] && s.cache == EMPTY_CACHE && s.table == Table(SELF, map[]) && s.socket.sent == 0
    ensures SELF in StartLookup(e, s, FIND_SELF, [], time).queries
    ensures StartLookup(e, s, FIND_SELF, [], time).queries[SELF].visited == {e.bootstrap[0]}
  {
    hide VisitAll, AllNodes, TakeLength, Promote;
    EmptyTable(SELF);
    assert Seeds(e, s, SELF) == [];
    NothingCached();
    assert e.bootstrap + [] == e.bootstrap;
    var n := NewQuery(FIND_SELF, 0);
    var (q, sock) := VisitAll(n, s.socket, e.bootstrap, time);
    VisitAllEffect(n, s.socket, e.bootstrap, time);
    OneVisited(n, s.socket, e, time);
    NothingAdded(q);
    NothingToVisit(q, sock, time);
  }

  lemma OneCandidate(q: Query, n: Node)
    requires q.closest == []
    ensures AddCandidates(q, [n]) == q.(closest := [n])
  {
    assert [n][1..] == [];
    var one := ClosestNodes.Insert(q.request.target, [], n);
    assert one == [n];
    assert ClosestNodes.AddAll(q.request.target, one, []) == one;
  }

  lemma NamingArrives(e: Env, a: Loop, time: int)
    requires PrivateNetwork(e, 1) && LookingUp(e, a.rpc, FIND_SELF, time) && a.rpc.puts == map[] && a.putSenders == map[]
    requires a.rpc.table == Table(SELF, map[]) && a.rpc.socket.timeout == TIMEOUT
    requires a.rpc.queries[SELF].visited == {e.bootstrap[0]} && Asked(a.rpc.queries[SELF], a.rpc.socket, 0, e.bootstrap[0], time)
    ensures var (s', response) := HandleMessage(e, a.rpc, Some(Naming(e, time)), time);
            response == None && Knowing(e, a.(rpc := s'), false, time)
    ensures !MessageOverflows(a.rpc, Some(Naming(e, time)), time)
  {
    hide AllNodes, TableAdd, AddAll, AnswererId;
    var s, p := a.rpc, Naming(e, time);
    var q := s.queries[SELF];
    var sock := s.socket.(requests := s.socket.requests - {0});
    assert Receive(s.socket, Datagram(false, 0, e.bootstrap[0]), time) == (sock, true);
    assert FindPut(s.puts, [], 0) == None;
    assert FindQuery(s.queries, [SELF], 0, false) == Some(SELF);
    OneCandidate(q, Named(time));
    FirstAnswererIsKept(e, time);
    AddKeepsId(s.table, Node(AnswererId(0), p.from, None, time), time);
  }

  lemma KnowingVisit(e: Env, q: Query, s: Socket, asked: bool, time: int)
    requires |e.bootstrap| == 1 && e.bootstrap[0] != SHARED && KnowingQuery(q, asked, time)
    requires s.sent == (if asked then 4 else 2) && (forall t :: t in s.requests ==> s.requests[t].sentAt == time)
    requires Asked(q, s, 1, e.bootstrap[0], time) && q.visited == {e.bootstrap[0]} + (if asked then {SHARED} else {})
    ensures var (q', s') := VisitClosest(q, s, time);
            && KnowingQuery(q', true, time) && s' == s.(sent := 4, requests := s'.requests)
            && (forall t :: t in s'.requests ==> s'.requests[t].sentAt == time)
            && Asked(q', s', 1, e.bootstrap[0], time) && q'.visited == {e.bootstrap[0], SHARED}
  {
    hide VisitAll, Named;
    var n := Named(time);
    NamedAddress(time);
    assert Top(q) == [n];
    OneUnvisited(n, q.visited);
    if asked {
      VisitClosestEffect(q, s, time);
    } else {
      VisitAllExact(q, s, [SHARED], time);
      VisitAllEffect(q, s, [SHARED], time);
      assert (set x | x in [SHARED]) == {SHARED};
    }
  }

  /** A tick while the lookup waits: it asks the named node unless it has. */
  lemma KnowingTick(e: Env, a: Loop, asked: bool, i: TickInput)
    requires |e.bootstrap| == 1 && Knowing(e, a, asked, i.now) && i.getOrder == [SELF] && i.putOrder == [] && i.packet == None
    requires e.bootstrap[0] != SHARED
    ensures var (s', report) := Tick(e, a.rpc, i);
            report == Report([], [], None) && Knowing(e, a.(rpc := s'), true, i.now) && s' == AtMessage(e, a.rpc, i)
  {
    hide AllNodes, ExpectedDk, AverageSubnets, VisitClosest, TickQuery, KnowingQuery, Asked;
    var s := a.rpc;
    var q := s.queries[SELF];
    KnowingVisit(e, q, s.socket, asked, i.now);
    var (q', sock) := VisitClosest(q, s.socket, i.now);
    StillLive(q', sock, e.bootstrap[0], i.now);
    LiveIsNotDone(q, s.socket, i.now);
    TickOne(s.queries, s.socket, SELF, ExpectedDk(e, s.cache), AverageSubnets(s.cache), i.now);
    assert TickPuts(s.puts, s.socket, [], i.now) == [];
    var s0 := s.(queries := s.queries[SELF := q'], socket := sock);
    NothingFinished(e, s0, i.voteOrder, i.now);
    var none: seq<(Id, PutResult)> := [];
    assert none + none == none && PutIds(none) == {} && s.puts - {} == s.puts;
    assert Settle(e, s, i) == (s0.(puts := s0.puts - PutIds(none)), [], none);
    assert Maintain(e, s0, i.now) == s0;
  }

  lemma LiveIsNotDone(q: Query, s: Socket, now: int)
    requires var (q', s') := VisitClosest(q, s, now); AnyLive(q', s', now)
    ensures var (q', s') := VisitClosest(q, s, now); TickQuery(q, s, now) == (q', s', false)
  {
    hide VisitClosest;
  }

  lemma NamedAddress(time: int)
    ensures Named(time).address == SHARED && Named(time).token.None? && Named(time).lastSeen == time
  {
  }

  lemma OneUnvisited(n: Node, visited: set<Address>)
    ensures Unvisited([n], visited) == if n.address in visited then [] else [n.address]
  {
    assert [n][1..] == [];
    assert Unvisited([], visited) == [];
  }

  // --- the lookup ends ---

  /** What is cached: the named node, with whatever estimates. */
  ghost predicate NamedIsCached(c: Cache, time: int) {
    |c.entries| == 1 && c.entries[0].0 == SELF && c.entries[0].1.nodes == [Named(time)]
  }

  lemma NamedIsFound(c: Cache, time: int)
    requires NamedIsCached(c, time)
    ensures CachedNodes(c, SELF) == [Named(time)] && |Promote(c.entries, SELF)| == 1
  {
    hide Named;
    assert HasKey(c.entries, SELF) && KeyIndex(c.entries, SELF) == 0;
  }

  lemma FindIsCached(e: Env, a: Loop, i: TickInput, time: int)
    requires |e.bootstrap| == 1 && Knowing(e, a, true, time) && i.getOrder == [SELF] && i.putOrder == []
    requires i.now == time + TIMEOUT && i.packet == None && e.bootstrap[0] != SHARED
    ensures var (s', report) := Tick(e, a.rpc, i);
            && report.puts == [] && report.response == None && TickFits(e, a.rpc, i)
            && s'.queries == map[] && s'.puts == map[] && NamedIsCached(s'.cache, time) && s'.socket.sent == 4
            && s'.lastRefresh == time && s'.lastPing == time && AllNodes(s'.table) != []
  {
    hide AllNodes, ExpectedDk, AverageSubnets, MakeDone, FinishOne, Asked, Named;
    var s := a.rpc;
    var q := s.queries[SELF];
    NamedAddress(time);
    assert Top(q) == [Named(time)];
    OneUnvisited(Named(time), q.visited);
    VisitClosestEffect(q, s.socket, i.now);
    assert !AnyLive(q, s.socket, i.now);
    var edk, subnets := ExpectedDk(e, s.cache), AverageSubnets(s.cache);
    TickOne(s.queries, s.socket, SELF, edk, subnets, i.now);
    var d := MakeDone(SELF, q, edk, subnets);
    FindIsDone(q, edk, subnets, time);
    assert s.queries[SELF := q] == s.queries;
    assert TickPuts(s.puts, s.socket, [], i.now) == [];
    var s0 := s.(queries := s.queries, socket := s.socket);
    assert s0 == s;
    FinishedFind(e, s, d, i.voteOrder, i.now, time);
    FinishOnly(e, s, d, i.voteOrder, i.now);
    var s1 := FinishOne(e, s, d, i.voteOrder, i.now).0;
    var none: seq<(Id, PutResult)> := [];
    assert none + none == none && PutIds(none) == {} && s1.puts - {} == s1.puts;
    assert Settle(e, s, i) == (s1.(puts := s1.puts - PutIds(none)), [d], none);
    assert Maintain(e, s1, i.now) == s1;
  }

  lemma FindIsDone(q: Query, edk: nat, subnets: nat, time: int)
    requires KnowingQuery(q, true, time)
    ensures MakeDone(SELF, q, edk, subnets) == Done(SELF, [Named(time)], None)
  {
    hide Named;
    assert Top(q) == [Named(time)];
  }

  lemma FinishedFind(e: Env, s: State, d: Done, order: VoteOrders, now: int, time: int)
    requires s.queries.Keys == {SELF} && KnowingQuery(s.queries[SELF], true, time) && s.cache == EMPTY_CACHE
    requires d == Done(SELF, [Named(time)], None)
    ensures var (s', failed) := FinishOne(e, s, d, order, now);
            && failed == [] && NamedIsCached(s'.cache, time) && s' == s.(queries := map[], cache := s'.cache)
  {
    hide Named, CacheEntry;
    var q := s.queries[SELF];
    NoVotes(OrderFor(order, SELF));
    assert s.queries - {SELF} == map[];
    EntryHoldsNodes(e, q, d.closest);
    FirstIsCached(s.cache, q.closest, CacheEntry(e, q, d.closest), time);
  }

  lemma EntryHoldsNodes(e: Env, q: Query, closest: seq<Node>)
    ensures CacheEntry(e, q, closest).nodes == closest
  {
    hide SubnetsCount;
  }

  lemma FirstIsCached(c: Cache, closest: seq<Node>, entry: Cached, time: int)
    requires c == EMPTY_CACHE && closest != [] && entry.nodes == [Named(time)]
    ensures NamedIsCached(CacheQuery(c, SELF, closest, entry), time)
  {
    hide Named;
    assert Peek(c.entries, SELF) == None;
    assert Store(c.entries, MAX_CACHED, SELF, entry) == [(SELF, entry)];
  }

  // --- the put stalls ---

  lemma PutFindsNamed(e: Env, a: Loop, c: nat, now: int, time: int)
    requires a.rpc.queries == map[] && a.rpc.puts == map[] && a.putSenders == map[] && NamedIsCached(a.rpc.cache, time)
    requires time <= now <= time + TIMEOUT
    ensures var a' := Accept(e, a, Put(ANNOUNCE, c, []), now).0;
            && a'.rpc.queries == map[] && a'.rpc.socket == a.rpc.socket && PutWaiting(a', SELF) == [c]
            && a'.rpc.puts == map[SELF := P.NewPut(ANNOUNCE, [], a.rpc.socket.sent)]
            && a'.rpc == a.rpc.(puts := a'.rpc.puts, cache := a'.rpc.cache)
    ensures Stalls(a.rpc, ANNOUNCE, [], now) && Admit(a.rpc.puts, ANNOUNCE) == Proceed && PutFits(a.rpc, ANNOUNCE, now)
  {
    hide Named, Promote, CachedNodes;
    var s, n := a.rpc, Named(time);
    NamedIsFound(s.cache, time);
    NamedAddress(time);
    assert CachedNodes(s.cache, SELF) == [n];
    assert n in CachedNodes(s.cache, SELF) && ValidToken(n, now);
    assert UsableCache(s.cache, SELF, now);
    var put := P.NewPut(ANNOUNCE, [], s.socket.sent);
    NothingIsSent(put, s.socket, n, now);
    assert [n] + [] == [n] && [] + [c] == [c];
    assert s.puts[SELF := put] == map[SELF := put];
  }

  lemma NothingIsSent(p: P.Put, s: Socket, n: Node, now: int)
    requires n.token.None? && p.extra == [] && p.inflight == []
    ensures P.Start(p, s, [n], now) == (p, s, None)
  {
    assert [n] + p.extra == [n] && [n][1..] == [];
    assert P.SendAll(p, s, [], now) == (p, s);
  }

  lemma StalledTick(e: Env, s: State, i: TickInput, time: int)
    requires s.queries == map[] && s.puts.Keys == {SELF} && !P.Started(s.puts[SELF]) && AllNodes(s.table) != []
    requires s.lastRefresh == time && s.lastPing == time && i.now == time + TIMEOUT
    requires i.putOrder == [SELF] && i.getOrder == [] && i.packet == None
    ensures var (s', report) := Tick(e, s, i);
            && report == Report([], [], None) && s'.queries == map[] && s'.puts == s.puts && s'.socket.sent == s.socket.sent
            && TickFits(e, s, i)
  {
    hide AllNodes, ExpectedDk, AverageSubnets;
    UnstartedNotPolled(s.puts, s.socket, i.putOrder, i.now);
    assert TickGets(s.queries, s.socket, [], ExpectedDk(e, s.cache), AverageSubnets(s.cache), i.now) == (s.queries, s.socket, []);
    NothingFinished(e, s, i.voteOrder, i.now);
    var none: seq<(Id, PutResult)> := [];
    assert none + none == none && PutIds(none) == {} && s.puts - {} == s.puts;
    assert s.(queries := s.queries, socket := s.socket) == s;
    assert Settle(e, s, i) == (s.(puts := s.puts - PutIds(none)), [], none);
    assert Maintain(e, s, i.now) == s;
  }

  // --- the run ---

  lemma NamingIteration(e: Env, a: Loop, g: GetSender, time: int)
    requires PrivateNetwork(e, 1)
    requires var b := Accept(e, a, Get(FIND_SELF, g), time).0;
             && LookingUp(e, b.rpc, FIND_SELF, time) && b.rpc.puts == map[] && b.putSenders == map[]
             && b.rpc.table == Table(SELF, map[]) && b.rpc.socket.timeout == TIMEOUT
             && b.rpc.queries[SELF].visited == {e.bootstrap[0]} && Asked(b.rpc.queries[SELF], b.rpc.socket, 0, e.bootstrap[0], time)
    ensures var i := Input(Get(FIND_SELF, g), TickInput(time, [], [SELF], map[], Some(Naming(e, time))));
            Knowing(e, Iterate(e, a, i).0, false, time) && ValidIteration(e, a, i)
  {
    hide Accept, Tick, Iterate, HandleMessage, Knowing, MessageOverflows, Asked, AllNodes;
    var i := Input(Get(FIND_SELF, g), TickInput(time, [], [SELF], map[], Some(Naming(e, time))));
    var b := Accept(e, a, i.message, time).0;
    QuietTick(e, b.rpc, i.tick, FIND_SELF);
    NamingArrives(e, b, time);
    QuietIteration(e, a, i);
    OneOrder(SELF);
    NoOrder();
  }

  lemma KnowingIteration(e: Env, a: Loop, i: Input)
    requires |e.bootstrap| == 1 && Knowing(e, a, false, i.tick.now) && e.bootstrap[0] != SHARED
    requires i.message == Idle && i.tick == TickInput(i.tick.now, [], [SELF], map[], None)
    ensures Knowing(e, Iterate(e, a, i).0, true, i.tick.now) && ValidIteration(e, a, i)
  {
    hide Tick, Iterate, Knowing, AtMessage, MessageOverflows;
    IdleChangesNothing(e, a, i.tick.now);
    KnowingTick(e, a, false, i.tick);
    QuietIteration(e, a, i);
    OneOrder(SELF);
    NoOrder();
    KnowingFields(e, a, false, i.tick.now);
    NoMessageFits(e, a.rpc, i.tick);
  }

  lemma NoMessageFits(e: Env, s: State, i: TickInput)
    requires i.packet == None
    ensures TallyFits(e, s, i)
  {
    hide AtMessage;
  }

  lemma KnowingFields(e: Env, a: Loop, asked: bool, time: int)
    requires |e.bootstrap| == 1 && Knowing(e, a, asked, time)
    ensures a.rpc.queries.Keys == {SELF} && a.rpc.puts.Keys == {} && a.rpc.socket.sent <= 4 && a.putSenders == map[]
  {
    hide AllNodes, Asked;
  }

  /** Four iterations of a new node: a find_node lookup on a target is answered, ends and is
      cached; then an announcement to the target is admitted, stalls, and its caller waits. */
  lemma CachedNodesStall(e: Env, b: Birth, g: GetSender, c: nat)
    requires PrivateNetwork(e, 1) && e.bootstrap[0] != SHARED && b.id == SELF && b.timeout == TIMEOUT
    ensures var inputs := CachedCalls(e, g, c, b.time);
            var a := Run(e, Newborn(b), inputs).0;
            && Life(e, b, inputs) && !NeverStalls(e, Newborn(b), inputs, SELF)
            && SELF in a.rpc.puts && !P.Started(a.rpc.puts[SELF]) && a.rpc.queries == map[] && PutWaiting(a, SELF) == [c]
  {
    hide Run, Life, Accept, Iterate, Tick, Knowing, ValidIteration, NeverStalls, Stalls, LookingUp, Asked, AllNodes, TickFits, IterationFits;
    var inputs, a0 := CachedCalls(e, g, c, b.time), Newborn(b);
    var i0, i1, i2, i3 := inputs[0], inputs[1], inputs[2], inputs[3];
    LifeBegins(e, b);
    FindLaunches(e, b, g);
    NamingIteration(e, a0, g, b.time);
    var a1 := Iterate(e, a0, i0).0;
    KnowingFields(e, a1, false, b.time);
    LookingUpSent(e, BeforeTick(e, a0, i0), b.time);
    GoesOn(e, b, [], i0);
    assert [] + [i0] == [i0];
    IdleChangesNothing(e, a1, b.time);
    KnowingIteration(e, a1, i1);
    var a2 := Iterate(e, a1, i1).0;
    KnowingFields(e, a2, true, b.time);
    GoesOn(e, b, [i0], i1);
    assert [i0] + [i1] == [i0, i1];
    IdleChangesNothing(e, a2, i2.tick.now);
    EndingIteration(e, a2, i2, b.time);
    var a3 := Iterate(e, a2, i2).0;
    GoesOn(e, b, [i0, i1], i2);
    assert [i0, i1] + [i2] == [i0, i1, i2];
    StallingIteration(e, a3, i3, c, b.time);
    GoesOn(e, b, [i0, i1, i2], i3);
    assert [i0, i1, i2] + [i3] == inputs;
    StalledLast(e, a0, [i0, i1, i2], i3);
  }

  lemma LookingUpSent(e: Env, s: State, time: int)
    requires |e.bootstrap| == 1 && LookingUp(e, s, FIND_SELF, time)
    ensures s.socket.sent == 2
  {
    hide Asked;
  }

  lemma EndingIteration(e: Env, a: Loop, i: Input, time: int)
    requires |e.bootstrap| == 1 && Knowing(e, a, true, time) && e.bootstrap[0] != SHARED
    requires i == Input(Idle, TickInput(time + TIMEOUT, [], [SELF], map[], None))
    ensures var b := Iterate(e, a, i).0;
            && b.rpc.queries == map[] && b.rpc.puts == map[] && b.putSenders == map[] && NamedIsCached(b.rpc.cache, time)
            && b.rpc.socket.sent == 4 && b.rpc.lastRefresh == time && b.rpc.lastPing == time && AllNodes(b.rpc.table) != []
    ensures ValidIteration(e, a, i)
  {
    hide Tick, Iterate, Knowing, TickFits, NamedIsCached, AllNodes;
    IdleChangesNothing(e, a, i.tick.now);
    FindIsCached(e, a, i.tick, time);
    IterateRpc(e, a, i);
    NobodyWaits(e, a, i, time);
    OneOrder(SELF);
    NoOrder();
    KnowingFields(e, a, true, time);
  }

  lemma NobodyWaits(e: Env, a: Loop, i: Input, time: int)
    requires |e.bootstrap| == 1 && Knowing(e, a, true, time) && i.message == Idle
    ensures Iterate(e, a, i).0.putSenders == map[]
  {
    hide Tick, CloseGets, ClosePuts, DoneIds, PutIds, Occurs, SenderOccurs, AllNodes, Asked;
    var (rpc, report) := Tick(e, a.rpc, i.tick);
    CloseGetsConserves(a.(rpc := rpc), report.gets, SELF, 0);
    ClosePutsConserves(CloseGets(a.(rpc := rpc), report.gets).0, report.puts, SELF, 0);
  }

  lemma StallingIteration(e: Env, a: Loop, i: Input, c: nat, time: int)
    requires a.rpc.queries == map[] && a.rpc.puts == map[] && a.putSenders == map[] && NamedIsCached(a.rpc.cache, time)
    requires a.rpc.socket.sent == 4 && a.rpc.lastRefresh == time && a.rpc.lastPing == time && AllNodes(a.rpc.table) != []
    requires i == Input(Put(ANNOUNCE, c, []), TickInput(time + TIMEOUT, [SELF], [], map[], None))
    ensures var b := Iterate(e, a, i).0;
            && SELF in b.rpc.puts && !P.Started(b.rpc.puts[SELF]) && b.rpc.queries == map[] && PutWaiting(b, SELF) == [c]
            && b.rpc.socket.sent == 4 && BeforeTick(e, a, i).socket.sent == 4
    ensures ValidIteration(e, a, i) && AdmitsPut(a, i.message, SELF) && Stalls(a.rpc, ANNOUNCE, [], i.tick.now)
  {
    hide Accept, Tick, Iterate, TickFits, NamedIsCached, AllNodes, Stalls, PutFits;
    PutFindsNamed(e, a, c, i.tick.now, time);
    var s := Accept(e, a, i.message, i.tick.now).0.rpc;
    StalledTick(e, s, i.tick, time);
    QuietIteration(e, a, i);
    OneOrder(SELF);
    NoOrder();
  }

  lemma StalledLast(e: Env, a: Loop, inputs: seq<Input>, i: Input)
    requires var b := Run(e, a, inputs).0; AdmitsPut(b, i.message, SELF) && Stalls(b.rpc, i.message.put, i.message.extra, i.tick.now)
    ensures !NeverStalls(e, a, inputs + [i], SELF)
  {
    hide Run, Stalls, AdmitsPut;
    assert (inputs + [i])[..|inputs|] == inputs;
  }
}
