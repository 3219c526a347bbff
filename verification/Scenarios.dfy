/**
  Concrete runs of a new node, one for each failure the other modules describe: a put that
  makes the thread panic, a put that never makes progress, and a peer announcement that ends
  in a concurrency error.

  In all of them the node looks up its own identifier and its bootstrap nodes are in a
  private network, so that every state along the run can be written down.
 */
module Scenarios {
  import opened Ids
  import opened Bep42
  import opened Nodes
  import opened ClosestNodes
  import opened RoutingTable
  import opened Sockets
  import opened IterativeQueries
  import opened QueryCache
  import opened Lru
  import opened Rpc
  import opened Actor

  const SELF: Id := [255, 255, 255, 255, 255, 255, 255, 255, 255, 255, 255, 255, 255, 255, 255, 255, 255, 255, 255, 255]

  /** `n` bootstrap nodes of the network 10.0.0.0/8. */
  predicate PrivateNetwork(e: Env, n: nat) {
    |e.bootstrap| == n && forall j :: 0 <= j < n ==> e.bootstrap[j].ip >> 24 == 10 && e.bootstrap[j].port != 0
  }

  // --- the first requests of a lookup ---

  /** The lookup sent the request numbered `n` to `to`, and it waits in the table. */
  predicate Asked(q: Query, s: Socket, n: nat, to: Address, now: int) {
    n < TID_SPACE && n in q.inflight && n in s.requests && s.requests[n] == InflightRequest(to, now)
  }

  /** `s'` and `q'` are `s` and `q` after requests sent at `now`, numbered from `s.sent` on. */
  ghost predicate Later(q: Query, s: Socket, q': Query, s': Socket, now: int) {
    && s' == s.(sent := s'.sent, requests := s'.requests)
    && q' == q.(inflight := q'.inflight, primary := q'.primary, visited := q'.visited)
    && (forall n: nat, to :: Asked(q, s, n, to, now) && n < s.sent ==> Asked(q', s', n, to, now))
    && (forall t :: t in s'.requests ==> (t in s.requests && s'.requests[t] == s.requests[t]) || s'.requests[t].sentAt == now)
  }

  lemma VisitExact(q: Query, s: Socket, to: Address, now: int)
    requires s.sent + 2 <= TID_SPACE
    ensures var (q', s') := Visit(q, s, to, now);
            && s'.sent == s.sent + 2 && Later(q, s, q', s', now)
            && Asked(q', s', s.sent, to, now) && Asked(q', s', s.sent + 1, to, now)
  {
    assert Wrap(s.sent) == s.sent && Wrap(s.sent + 1) == s.sent + 1;
  }

  lemma {:induction false} VisitAllExact(q: Query, s: Socket, addresses: seq<Address>, now: int)
    requires s.sent + 2 * |addresses| <= TID_SPACE
    ensures var (q', s') := VisitAll(q, s, addresses, now);
            && s'.sent == s.sent + 2 * |addresses| && Later(q, s, q', s', now)
            && (forall j :: 0 <= j < |addresses| ==> Asked(q', s', s.sent + 2 * j, addresses[j], now))
            && (addresses != [] ==> Asked(q', s', s.sent + 1, addresses[0], now))
    decreases |addresses|
  {
    hide Visit, Asked;
    if addresses != [] {
      var (q1, s1) := Visit(q, s, addresses[0], now);
      var (q', s') := VisitAll(q, s, addresses, now);
      VisitExact(q, s, addresses[0], now);
      VisitAllExact(q1, s1, addresses[1..], now);
      forall j | 0 < j < |addresses| ensures Asked(q', s', s.sent + 2 * j, addresses[j], now) {
        assert addresses[1..][j - 1] == addresses[j];
        assert s1.sent + 2 * (j - 1) == s.sent + 2 * j;
      }
    }
  }

  /** The lookup of its own identifier is the only one, has no candidates and waits for answers
      that were all asked for at `time`. */
  ghost predicate LookingUp(e: Env, s: State, request: GetRequest, time: int) {
    && s.queries.Keys == {SELF} && s.cache == EMPTY_CACHE && s.table.id == SELF && s.publicAddress == None
    && s.lastRefresh == time && s.lastPing == time
    && s.socket.lastCleanup == time && s.socket.timeout > 0 && s.socket.sent == 2 * |e.bootstrap|
    && (forall t :: t in s.socket.requests ==> s.socket.requests[t].sentAt == time)
    && (var q := s.queries[SELF];
        && q.request == request && q.closest == [] && q.votes == map[]
        && e.bootstrap != [] && Asked(q, s.socket, 1, e.bootstrap[0], time))
  }

  lemma EmptyTable(id: Id)
    ensures AllNodes(Table(id, map[])) == []
  {
    EmptyFlatten(1);
  }

  lemma {:induction false} EmptyFlatten(from: nat)
    ensures Flatten(map[], from) == []
    decreases 161 - from
  {
    if from <= 160 { EmptyFlatten(from + 1); }
  }

  lemma LaunchWaits(e: Env, s: State, request: GetRequest, time: int)
    requires request.target == SELF && 0 < |e.bootstrap| <= 256
    requires s.queries == map[] && s.cache == EMPTY_CACHE && s.table == Table(SELF, map[]) && s.publicAddress == None
    requires s.lastRefresh == time && s.lastPing == time
    requires s.socket.sent == 0 && s.socket.requests == map[] && s.socket.timeout > 0 && s.socket.lastCleanup == time
    ensures var s' := StartLookup(e, s, request, [], time);
            && LookingUp(e, s', request, time) && s'.puts == s.puts && s'.table == s.table && s'.queries[SELF].responders == []
            && s'.socket.timeout == s.socket.timeout
            && (forall j :: 0 <= j < |e.bootstrap| ==> Asked(s'.queries[SELF], s'.socket, 2 * j, e.bootstrap[j], time))
  {
    hide VisitAll, AllNodes, TakeLength, Asked;
    EmptyTable(SELF);
    var n := NewQuery(request, 0);
    assert Seeds(e, s, SELF) == [];
    assert Peek(EMPTY_CACHE.entries, SELF) == None;
    assert e.bootstrap + [] == e.bootstrap;
    var (q, sock) := VisitAll(n, s.socket, e.bootstrap, time);
    VisitAllExact(n, s.socket, e.bootstrap, time);
    NothingToVisit(q, sock, time);
    assert AddAll(SELF, [], []) == [];
    assert AddCandidates(AddCandidates(q, []), []) == q;
    assert LaunchQuery(e, s, request, [], time) == (q, sock);
  }

  lemma NothingToVisit(q: Query, s: Socket, now: int)
    requires q.closest == []
    ensures VisitClosest(q, s, now) == (q, s)
  {
    assert Top(q) == [];
  }

  // --- a tick while it waits ---

  /** Nothing is due, nothing is done and no put has started: the tick only handles its message. */
  lemma QuietTick(e: Env, s: State, i: TickInput, request: GetRequest)
    requires LookingUp(e, s, request, i.now) && i.getOrder == [SELF] && (forall t :: t in s.puts ==> !P.Started(s.puts[t]))
    ensures AtMessage(e, s, i) == s
    ensures Tick(e, s, i) == (HandleMessage(e, s, i.packet, i.now).0, Report([], [], HandleMessage(e, s, i.packet, i.now).1))
  {
    hide AllNodes, ExpectedDk, AverageSubnets, HandleMessage, Asked;
    var q := s.queries[SELF];
    UnstartedNotPolled(s.puts, s.socket, i.putOrder, i.now);
    NothingToVisit(q, s.socket, i.now);
    assert AnyLive(q, s.socket, i.now) by { StillLive(q, s.socket, e.bootstrap[0], i.now); }
    assert TickQuery(q, s.socket, i.now) == (q, s.socket, false);
    assert s.queries[SELF := q] == s.queries;
    TickOne(s.queries, s.socket, SELF, ExpectedDk(e, s.cache), AverageSubnets(s.cache), i.now);
    assert PutIds([]) == {};
    assert s.puts - {} == s.puts;
    assert Settle(e, s, i) == (s, [], []);
    assert Maintain(e, s, i.now) == s;
  }

  lemma TickOne(queries: map<Id, Query>, sock: Socket, id: Id, edk: nat, subnets: nat, now: int)
    requires id in queries
    ensures var (q, sock', done) := TickQuery(queries[id], sock, now);
            TickGets(queries, sock, [id], edk, subnets, now) ==
            (queries[id := q], sock', if done then [MakeDone(id, q, edk, subnets)] else [])
  {
    hide TickQuery, MakeDone;
    var (q, sock', done) := TickQuery(queries[id], sock, now);
    assert [id][1..] == [];
    assert TickGets(queries[id := q], sock', [], edk, subnets, now) == (queries[id := q], sock', []);
    var dones := if done then [MakeDone(id, q, edk, subnets)] else [];
    assert dones + [] == dones;
  }

  lemma StillLive(q: Query, s: Socket, to: Address, now: int)
    requires Asked(q, s, 1, to, now) && s.timeout > 0
    ensures AnyLive(q, s, now)
  {
    assert 1 in q.inflight && Inflight(s, 1, now);
  }

  lemma {:induction false} UnstartedNotPolled(puts: map<Id, P.Put>, sock: Socket, order: seq<Id>, now: int)
    requires forall t :: t in puts ==> !P.Started(puts[t])
    ensures TickPuts(puts, sock, order, now) == []
    decreases |order|
  {
    if order != [] { UnstartedNotPolled(puts, sock, order[1..], now); }
  }

  /** An iteration whose tick reports nothing and delivers nothing only changes the engine. */
  lemma QuietIteration(e: Env, a: Loop, i: Input)
    requires Tick(e, Accept(e, a, i.message, i.tick.now).0.rpc, i.tick).1 == Report([], [], None)
    ensures var a1 := Accept(e, a, i.message, i.tick.now).0;
            Iterate(e, a, i).0 == a1.(rpc := Tick(e, a1.rpc, i.tick).0)
  {
    hide Accept, Tick;
  }

  // --- an announcement, and answers to its lookup ---

  const VALUE_LOOKUP: GetRequest := GetValue(SELF, None, None)
  const ANNOUNCE: P.PutRequest := P.AnnouncePeer(SELF)
  const TOKEN: Bytes := [7]

  /** Who announces, and the nodes handed in with the announcement. */
  datatype Call = Call(channel: nat, extra: seq<Node>)

  function Announcement(c: Call): ActorMessage {
    Put(ANNOUNCE, c.channel, c.extra)
  }

  function AnswererId(k: nat): Id
    requires k < 65536
  {
    [ByteOf(k / 256), ByteOf(k % 256), 0, 0, 0, 0, 0, 0, 0, 0, 0, 0, 0, 0, 0, 0, 0, 0, 0, 0]
  }

  function Answerer(e: Env, k: nat, now: int): Node
    requires k < |e.bootstrap| <= 256
  {
    Node(AnswererId(k), e.bootstrap[k], Some(TOKEN), now)
  }

  function ByteOf(n: nat): (b: bv8)
    requires n < 256
    ensures b as nat == n
  {
    if n == 0 then 0 else ByteOf(n - 1) + 1
  }

  lemma AnswerersDiffer(j: nat, k: nat)
    requires j < k <= 256
    ensures First21Bits(AnswererId(j)) != First21Bits(AnswererId(k)) && AnswererId(j) != AnswererId(k)
  {
    hide ByteOf;
    var x, y := AnswererId(j), AnswererId(k);
    if j / 256 != k / 256 {
      assert First21Bits(x)[0] != First21Bits(y)[0];
    } else {
      assert First21Bits(x)[1] != First21Bits(y)[1];
    }
  }

  /** Bootstrap node `k` answers the request it got: no values, but a token. */
  function AnswerOf(e: Env, k: nat): Packet
    requires k < |e.bootstrap| <= 256
  {
    Packet(Message(2 * k, false, None, NoValuesResponse(AnswererId(k), TOKEN, None)), e.bootstrap[k], [SELF], [SELF], SELF, 0)
  }

  ghost predicate FirstAnswerers(e: Env, nodes: seq<Node>, k: nat, time: int)
    requires |e.bootstrap| <= 256
  {
    |nodes| == k <= |e.bootstrap| && forall n :: n in nodes ==> exists j :: 0 <= j < k && n == Answerer(e, j, time)
  }

  /** The announcement waits for its lookup, which the first `k` nodes answered. */
  ghost predicate Answered(e: Env, a: Loop, k: nat, c: Call, time: int)
    requires |e.bootstrap| <= 256
  {
    && LookingUp(e, a.rpc, VALUE_LOOKUP, time)
    && a.rpc.puts == map[SELF := P.NewPut(ANNOUNCE, c.extra, 0)] && PutWaiting(a, SELF) == [c.channel]
    && FirstAnswerers(e, a.rpc.queries[SELF].responders, k, time)
    && (forall j :: k <= j < |e.bootstrap| ==> Asked(a.rpc.queries[SELF], a.rpc.socket, 2 * j, e.bootstrap[j], time))
    && (k == 0 ==> a.rpc.table == Table(SELF, map[]))
    && (k == 1 ==> a.rpc.table == TableAdd(Table(SELF, map[]), Answerer(e, 0, time).(token := None), time).0)
  }

  lemma OneMoreAnswerer(e: Env, nodes: seq<Node>, k: nat, time: int)
    requires k < |e.bootstrap| <= 256 && PrivateNetwork(e, |e.bootstrap|) && FirstAnswerers(e, nodes, k, time)
    ensures FirstAnswerers(e, Insert(SELF, nodes, Answerer(e, k, time)), k + 1, time)
  {
    hide Position, First21Bits, IsSecure, AnswererId;
    var n := Answerer(e, k, time);
    forall x | x in nodes ensures !Blocks(x, n) && !SameEntry(x, n) {
      var j :| 0 <= j < k && x == Answerer(e, j, time);
      AnswerersDiffer(j, k);
      AnswererIsSecure(e, j, time);
    }
    InsertContents(SELF, nodes, n);
    var more := Insert(SELF, nodes, n);
    assert |multiset(more)| == |more|;
    forall x | x in more ensures exists j :: 0 <= j < k + 1 && x == Answerer(e, j, time) {
      assert x in multiset(more);
      if x in nodes {
        var j :| 0 <= j < k && x == Answerer(e, j, time);
      } else {
        assert x == n;
      }
    }
  }

  lemma AnswererIsSecure(e: Env, k: nat, time: int)
    requires k < |e.bootstrap| <= 256 && PrivateNetwork(e, |e.bootstrap|)
    ensures IsSecure(Answerer(e, k, time)) && Subnet(Answerer(e, k, time)) == 2
  {
    PrivateIsExempt(e.bootstrap[k].ip);
  }

  lemma PrivateIsExempt(ip: bv32)
    requires ip >> 24 == 10
    ensures IsExempt(ip) && (ip >> 26) & 0x3f == 2
  {
  }

  /** What the answer of node `k` does to the engine. */
  lemma AnswerArrives(e: Env, a: Loop, k: nat, c: Call, time: int)
    requires k < |e.bootstrap| <= 256 && PrivateNetwork(e, |e.bootstrap|) && Answered(e, a, k, c, time)
    ensures var (s', response) := HandleMessage(e, a.rpc, Some(AnswerOf(e, k)), time);
            response == None && Answered(e, a.(rpc := s'), k + 1, c, time) && s'.socket.timeout == a.rpc.socket.timeout
  {
    hide Insert, TableAdd, FirstAnswerers, AnswererId, Bump;
    var s, p := a.rpc, AnswerOf(e, k);
    var q, m := s.queries[SELF], p.message;
    assert Asked(q, s.socket, 2 * k, e.bootstrap[k], time);
    OneMoreAnswerer(e, q.responders, k, time);
    var sock := s.socket.(requests := s.socket.requests - {2 * k});
    assert Receive(s.socket, Datagram(false, 2 * k, e.bootstrap[k]), time) == (sock, true);
    var q' := AnswerQuery(e, q, p.from, m, time);
    assert AddAll(SELF, [], []) == [];
    assert q'.responders == Insert(SELF, q.responders, Answerer(e, k, time));
    assert FindPut(s.puts, [SELF], m.tid) == None;
    assert FindQuery(s.queries, [SELF], m.tid, false) == Some(SELF);
    AddKeepsId(s.table, Node(AnswererId(k), p.from, None, time), time);
    forall j | k + 1 <= j < |e.bootstrap| ensures Asked(q', sock, 2 * j, e.bootstrap[j], time) {
      assert Asked(q, s.socket, 2 * j, e.bootstrap[j], time);
    }
    assert Asked(q', sock, 1, e.bootstrap[0], time);
  }

  lemma AddKeepsId(t: Table, n: Node, now: int)
    ensures TableAdd(t, n, now).0.id == t.id
  {
  }

  /** The announcement starts a lookup that every bootstrap node is asked for. */
  lemma AnnouncementWaits(e: Env, a: Loop, c: Call, timeout: nat, serverMode: bool, time: int)
    requires 0 < |e.bootstrap| <= 256 && timeout > 0
    requires a == Loop(NewState(SELF, timeout, serverMode, time), map[], map[])
    ensures Answered(e, Accept(e, a, Announcement(c), time).0, 0, c, time)
    ensures Accept(e, a, Announcement(c), time).0.rpc.socket.timeout == timeout
    ensures PutFits(a.rpc, ANNOUNCE, time)
  {
    hide StartLookup, LookingUp;
    var s := a.rpc;
    assert Peek(EMPTY_CACHE.entries, SELF) == None;
    assert !UsableCache(s.cache, SELF, time);
    assert Promote(s.cache.entries, SELF) == s.cache.entries;
    assert s.(cache := s.cache.(entries := s.cache.entries)) == s;
    LaunchWaits(e, s, VALUE_LOOKUP, time);
    var s2 := StartLookup(e, s, VALUE_LOOKUP, [], time);
    assert [] + [c.channel] == [c.channel];
    assert s2.puts[SELF := P.NewPut(ANNOUNCE, c.extra, 0)] == map[SELF := P.NewPut(ANNOUNCE, c.extra, 0)];
    LookupIgnoresPuts(e, s2, VALUE_LOOKUP, time, map[SELF := P.NewPut(ANNOUNCE, c.extra, 0)]);
  }

  lemma LookupIgnoresPuts(e: Env, s: State, request: GetRequest, time: int, puts: map<Id, P.Put>)
    requires LookingUp(e, s, request, time)
    ensures LookingUp(e, s.(puts := puts), request, time)
  {
  }

  /** The iteration in which node `k` answers. */
  function AnswerInput(e: Env, m: ActorMessage, k: nat, time: int): Input
    requires k < |e.bootstrap| <= 256
  {
    Input(m, TickInput(time, [SELF], [SELF], map[], Some(AnswerOf(e, k))))
  }

  lemma AnswerIteration(e: Env, a: Loop, m: ActorMessage, k: nat, c: Call, time: int)
    requires k < |e.bootstrap| <= 256 && PrivateNetwork(e, |e.bootstrap|)
    requires Answered(e, Accept(e, a, m, time).0, k, c, time) && (m.Put? ==> PutFits(a.rpc, m.put, time))
    ensures Answered(e, Iterate(e, a, AnswerInput(e, m, k, time)).0, k + 1, c, time)
    ensures Iterate(e, a, AnswerInput(e, m, k, time)).0.rpc.socket.timeout == Accept(e, a, m, time).0.rpc.socket.timeout
    ensures ValidIteration(e, a, AnswerInput(e, m, k, time))
  {
    hide Accept, Tick, HandleMessage, Iterate, PutFits, FirstAnswerers;
    var i, a1 := AnswerInput(e, m, k, time), Accept(e, a, m, time).0;
    AnswerArrives(e, a1, k, c, time);
    QuietTick(e, a1.rpc, i.tick, VALUE_LOOKUP);
    QuietIteration(e, a, i);
    OneOrder(SELF);
  }

  lemma OneOrder(id: Id)
    ensures IsOrder([id], {id})
  {
  }

  lemma NoOrder()
    ensures IsOrder([], {})
  {
  }

  // --- the lookup times out ---

  lemma {:induction false} OneSubnet(nodes: seq<Node>, k: nat)
    requires forall n :: n in nodes ==> Subnet(n) == k
    ensures |Subnets(nodes)| <= 1
  {
    hide Subnet;
    SubsetSize(Subnets(nodes), {k});
  }

  /** Too few subnets: the secure cut takes every node. */
  lemma CutTakesAll(target: Id, nodes: seq<Node>, edk: nat, subnets: nat, k: nat)
    requires (forall n :: n in nodes ==> Subnet(n) == k) && subnets > 1
    ensures TakeUntilSecure(target, nodes, edk, subnets) == nodes
  {
    hide Subnet, TopDistance, Subnets;
    var u := StopIndex(target, nodes, edk, subnets, 0);
    if u < |nodes| {
      OneSubnet(nodes[..u + 1], k);
      assert false;
    }
    assert nodes[..|nodes|] == nodes;
  }

  /** Once the timeout has passed, the tick finds the lookup done, with every node that answered. */
  lemma LookupTimesOut(e: Env, s: State, request: GetRequest, time: int, now: int)
    requires LookingUp(e, s, request, time) && now - time >= s.socket.timeout
    ensures var q := s.queries[SELF];
            TickGets(s.queries, s.socket, [SELF], ExpectedDk(e, s.cache), AverageSubnets(s.cache), now) ==
            (s.queries, s.socket, [MakeDone(SELF, q, ExpectedDk(e, s.cache), 20)])
  {
    hide MakeDone, Asked;
    var q := s.queries[SELF];
    NothingToVisit(q, s.socket, now);
    assert !AnyLive(q, s.socket, now);
    assert AverageSubnets(s.cache) == 20;
    assert s.queries[SELF := q] == s.queries;
    TickOne(s.queries, s.socket, SELF, ExpectedDk(e, s.cache), 20, now);
  }

  lemma AnswerersAreFound(e: Env, q: Query, edk: nat, k: nat, time: int)
    requires |e.bootstrap| <= 256 && PrivateNetwork(e, |e.bootstrap|) && FirstAnswerers(e, q.responders, k, time)
    requires q.request == VALUE_LOOKUP
    ensures MakeDone(SELF, q, edk, 20).closest == q.responders
  {
    hide Subnet, AnswererId;
    forall n | n in q.responders ensures Subnet(n) == 2 {
      var j :| 0 <= j < k && n == Answerer(e, j, time);
      AnswererIsSecure(e, j, time);
    }
    CutTakesAll(SELF, q.responders, edk, 20, 2);
  }

  lemma IdleChangesNothing(e: Env, a: Loop, now: int)
    ensures Accept(e, a, Idle, now).0 == a
  {
  }

  /** An iteration in which nothing arrives. */
  function Timeout(now: int): Input {
    Input(Idle, TickInput(now, [SELF], [SELF], map[], None))
  }
}
