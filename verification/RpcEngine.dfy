/**
  What every step of the engine keeps: the routing table, the books of the lookup cache,
  and the order, compatibility and tokens of what every live lookup has collected.
 */
module RpcEngine {
  import opened Ids
  import opened Bep42
  import opened Nodes
  import opened ClosestNodes
  import opened RoutingTable
  import opened Sockets
  import opened IterativeQueries
  import opened Lru
  import opened QueryCache
  import opened Rpc
  import opened RpcReports
  import opened RpcSockets
  import opened RpcLiveness
  import opened Actor

  predicate AllTokens(nodes: seq<Node>) {
    forall n :: n in nodes ==> n.token.Some?
  }

  /** A live lookup is filed under its target, both its node sets are in order and pairwise
      compatible, and every responder came with a token. */
  ghost predicate QueryShape(id: Id, q: Query) {
    && q.request.target == id
    && StrictlySorted(id, q.closest) && PairwiseCompatible(q.closest)
    && StrictlySorted(id, q.responders) && PairwiseCompatible(q.responders)
    && AllTokens(q.responders)
  }

  /** Nodes cached for a lookup other than find_node all carry tokens. */
  predicate EntryShape(entry: (Id, Cached)) {
    entry.1.isFindNode || AllTokens(entry.1.nodes)
  }

  ghost predicate CacheInv(c: Cache) {
    && (exists finds: nat :: Balanced(c, finds))
    && (forall entry :: entry in c.entries ==> EntryShape(entry))
  }

  ghost predicate QueriesInv(queries: map<Id, Query>) {
    forall id :: id in queries ==> QueryShape(id, queries[id])
  }

  ghost predicate EngineInv(s: State) {
    TableInv(s.table) && CacheInv(s.cache) && QueriesInv(s.queries)
  }

  // --- lookups ---

  lemma CandidatesKeepShape(id: Id, q: Query, nodes: seq<Node>)
    requires QueryShape(id, q)
    ensures QueryShape(id, AddCandidates(q, nodes))
  {
    hide StrictlySorted, PairwiseCompatible, AddAll;
    AddAllKeepsOrder(id, q.closest, nodes);
    AddAllKeepsCompatible(id, q.closest, nodes);
  }

  lemma ResponderKeepsShape(id: Id, q: Query, node: Node)
    requires QueryShape(id, q) && node.token.Some?
    ensures QueryShape(id, AddResponder(q, node))
  {
    hide StrictlySorted, PairwiseCompatible, Accepts, Position;
    InsertKeepsOrder(id, q.responders, node);
    InsertKeepsCompatible(id, q.responders, node);
  }

  lemma VisitedKeepsShape(id: Id, q: Query, s: Socket, q': Query, s': Socket)
    requires Visited(q, s, q', s') && QueryShape(id, q)
    ensures QueryShape(id, q')
  {
    hide StrictlySorted, PairwiseCompatible, Issued;
  }

  lemma LaunchShape(e: Env, s: State, request: GetRequest, extra: seq<Address>, now: int)
    ensures QueryShape(request.target, LaunchQuery(e, s, request, extra, now).0)
  {
    hide Visited, Seeds, CachedNodes, VisitAll, VisitClosest, QueryShape, AddCandidates, Extends;
    var seeds := Seeds(e, s, request.target);
    var asked := if seeds == [] || |seeds| < |e.bootstrap| then e.bootstrap else [];
    var q0 := NewQuery(request, s.socket.sent);
    NewShape(request, s.socket.sent);
    var (q1, s1) := VisitAll(q0, s.socket, asked + extra, now);
    VisitAllEffect(q0, s.socket, asked + extra, now);
    VisitedKeepsShape(request.target, q0, s.socket, q1, s1);
    CandidatesKeepShape(request.target, q1, seeds);
    var cached := CachedNodes(s.cache, request.target);
    CandidatesKeepShape(request.target, AddCandidates(q1, seeds), cached);
    var q2 := AddCandidates(AddCandidates(q1, seeds), cached);
    var (q3, s3) := VisitClosest(q2, s1, now);
    VisitClosestEffect(q2, s1, now);
    VisitedKeepsShape(request.target, q2, s1, q3, s3);
  }

  lemma NewShape(request: GetRequest, born: nat)
    ensures QueryShape(request.target, NewQuery(request, born))
  {
  }

  lemma AnswerKeepsShape(e: Env, id: Id, q: Query, from: Address, m: Message, now: int)
    requires QueryShape(id, q)
    ensures QueryShape(id, AnswerQuery(e, q, from, m, now))
  {
    hide StrictlySorted, PairwiseCompatible, AddAll, Insert, Bump, DeliveredValue, AddCandidates, AddResponder;
    CandidatesKeepShape(id, q, CloserNodes(m.body));
    var q1 := AddCandidates(q, CloserNodes(m.body));
    if CarriesToken(m.body) {
      ResponderKeepsShape(id, q1, Node(m.body.id, from, Some(m.body.token), now));
    }
  }

  // --- the cache ---

  lemma PromoteKeepsCache(c: Cache, key: Id)
    requires CacheInv(c)
    ensures CacheInv(c.(entries := Promote(c.entries, key)))
  {
    hide Balanced, EntryShape;
    var finds: nat :| Balanced(c, finds);
    PromoteBalanced(c, finds, key);
  }

  lemma CachedNodesHaveTokens(c: Cache, key: Id)
    requires CacheInv(c) && Peek(c.entries, key).Some? && !Peek(c.entries, key).value.isFindNode
    ensures AllTokens(CachedNodes(c, key))
  {
    hide Balanced, AllTokens;
    var i := KeyIndex(c.entries, key);
    assert c.entries[i] in c.entries;
  }

  lemma CacheQueryKeepsCache(c: Cache, target: Id, closest: seq<Node>, e: Cached)
    requires CacheInv(c) && EntryShape((target, e))
    ensures CacheInv(CacheQuery(c, target, closest, e))
  {
    hide Balanced, EntryShape;
    var finds: nat :| Balanced(c, finds);
    CacheQueryBalanced(c, finds, target, closest, e);
  }

  // --- the steps ---

  lemma LookupKeepsEngine(e: Env, s: State, request: GetRequest, extra: seq<Address>, now: int)
    requires EngineInv(s)
    ensures EngineInv(StartLookup(e, s, request, extra, now))
  {
    hide TableInv, CacheInv, QueryShape, LaunchQuery, Promote;
    if request.target !in s.queries {
      LaunchShape(e, s, request, extra, now);
      PromoteKeepsCache(s.cache, request.target);
    }
  }

  lemma SubmitPutKeepsEngine(e: Env, s: State, request: P.PutRequest, extra: seq<Node>, now: int)
    requires EngineInv(s)
    ensures EngineInv(SubmitPut(e, s, request, extra, now).0)
  {
    hide TableInv, CacheInv, QueryShape, StartLookup, Promote, P.Start, UsableCache, CachedNodes;
    PromoteKeepsCache(s.cache, request.target);
    var s1 := s.(cache := s.cache.(entries := Promote(s.cache.entries, request.target)));
    var salt := if request.PutMutable? then request.salt else None;
    LookupKeepsEngine(e, s1, GetValue(request.target, None, salt), [], now);
  }

  lemma {:induction false} SeedAllKeepsTable(t: Table, nodes: seq<Node>, now: int)
    requires TableInv(t)
    ensures TableInv(SeedAll(t, nodes, now))
    decreases |nodes|
  {
    hide TableInv, TableAdd;
    if nodes != [] {
      AddKeepsInv(t, nodes[0], now);
      SeedAllKeepsTable(TableAdd(t, nodes[0], now).0, nodes[1..], now);
    }
  }

  lemma AcceptKeepsEngine(e: Env, a: Loop, m: ActorMessage, now: int)
    requires EngineInv(a.rpc)
    ensures EngineInv(Accept(e, a, m, now).0.rpc)
  {
    hide TableInv, CacheInv, QueriesInv, StartLookup, SubmitPut, SeedAll, Replay;
    match m
    case Put(request, _, extra) => SubmitPutKeepsEngine(e, a.rpc, request, extra, now);
    case Get(request, _) => LookupKeepsEngine(e, a.rpc, request, [], now);
    case SeedRouting(nodes) => SeedAllKeepsTable(a.rpc.table, nodes, now);
    case Idle =>
  }

  lemma {:induction false} TickGetsKeepsShapes(queries: map<Id, Query>, sock: Socket, order: seq<Id>, edk: nat, subnets: nat, now: int)
    requires QueriesInv(queries)
    ensures var (qs, _, dones) := TickGets(queries, sock, order, edk, subnets, now);
            && QueriesInv(qs)
            && forall d :: d in dones ==> d.id in queries && (queries[d.id].request.FindNode? || AllTokens(d.closest))
    decreases |order|
  {
    hide QueryShape, VisitClosest, Extends, AllTokens, Visited;
    if order != [] {
      if order[0] !in queries {
        TickGetsKeepsShapes(queries, sock, order[1..], edk, subnets, now);
      } else {
        var id := order[0];
        var (q, sock1, done) := TickQuery(queries[id], sock, now);
        VisitClosestEffect(queries[id], sock, now);
        VisitedKeepsShape(id, queries[id], sock, q, sock1);
        VisitedFields(queries[id], sock, q, sock1);
        TickGetsKeepsShapes(queries[id := q], sock1, order[1..], edk, subnets, now);
        assert q.request.FindNode? || AllTokens(MakeDone(id, q, edk, subnets).closest) by { DoneTokens(id, q, edk, subnets); }
        MakeDoneId(id, q, edk, subnets);
      }
    }
  }

  lemma DoneTokens(id: Id, q: Query, edk: nat, subnets: nat)
    requires QueryShape(id, q)
    ensures q.request.FindNode? || AllTokens(MakeDone(id, q, edk, subnets).closest)
  {
    hide TakeLength;
  }

  lemma FinishOneKeepsEngine(e: Env, s: State, done: Done, voteOrder: VoteOrders, now: int)
    requires EngineInv(s)
    requires done.id in s.queries ==> s.queries[done.id].request.FindNode? || AllTokens(done.closest)
    ensures EngineInv(FinishOne(e, s, done, voteOrder, now).0)
  {
    hide TableInv, CacheInv, QueryShape, BestAddress, CacheQuery, P.Start, AllTokens;
    if done.id in s.queries {
      var q := s.queries[done.id];
      CacheQueryKeepsCache(s.cache, q.request.target, q.closest, CacheEntry(e, q, done.closest));
    }
  }

  lemma {:induction false} FinishAllKeepsEngine(e: Env, s: State, dones: seq<Done>, voteOrder: VoteOrders, now: int)
    requires EngineInv(s)
    requires forall d :: d in dones && d.id in s.queries ==> s.queries[d.id].request.FindNode? || AllTokens(d.closest)
    ensures EngineInv(FinishAll(e, s, dones, voteOrder, now).0)
    decreases |dones|
  {
    hide EngineInv, FinishOne, AllTokens;
    if dones != [] {
      FinishOneKeepsEngine(e, s, dones[0], voteOrder, now);
      FinishOneReports(e, s, dones[0], voteOrder, now);
      FinishAllKeepsEngine(e, FinishOne(e, s, dones[0], voteOrder, now).0, dones[1..], voteOrder, now);
    }
  }

  lemma SettleKeepsEngine(e: Env, s: State, i: TickInput)
    requires EngineInv(s) && ValidInput(s, i)
    ensures EngineInv(Settle(e, s, i).0)
  {
    hide TableInv, CacheInv, QueriesInv, TickGets, FinishAll, TickPuts, ExpectedDk, AverageSubnets, NoDuplicates, AllTokens;
    var edk, subnets := ExpectedDk(e, s.cache), AverageSubnets(s.cache);
    var (queries, sock, dones) := TickGets(s.queries, s.socket, i.getOrder, edk, subnets, i.now);
    TickGetsKeepsShapes(s.queries, s.socket, i.getOrder, edk, subnets, i.now);
    TickGetsReports(s.queries, s.socket, i.getOrder, edk, subnets, i.now);
    FinishAllKeepsEngine(e, s.(queries := queries, socket := sock), dones, i.voteOrder, i.now);
  }

  lemma {:induction false} RemoveAllKeepsTable(t: Table, nodes: seq<Node>, now: int)
    requires TableInv(t)
    ensures TableInv(RemoveAll(t, nodes, now))
    decreases |nodes|
  {
    hide TableInv, TableRemove;
    if nodes != [] {
      RemoveKeepsInv(t, nodes[0].id);
      RemoveAllKeepsTable(if IsStale(nodes[0], now) then TableRemove(t, nodes[0].id) else t, nodes[1..], now);
    }
  }

  lemma MaintainKeepsEngine(e: Env, s: State, now: int)
    requires EngineInv(s)
    ensures EngineInv(Maintain(e, s, now))
  {
    hide TableInv, CacheInv, QueriesInv, StartLookup, RemoveAll, PingAll, AllNodes;
    var s1 := if now - s.lastRefresh >= REFRESH_TABLE_INTERVAL then TryServerMode(s) else s;
    var s2 := if now - s.lastPing >= PING_TABLE_INTERVAL then PingAndPurge(s1, now) else s1;
    RemoveAllKeepsTable(s1.table, AllNodes(s1.table), now);
    LookupKeepsEngine(e, s2.(lastRefresh := now), FindNode(s2.table.id), [], now);
  }

  lemma HandleRequestKeepsEngine(e: Env, s: State, p: Packet, now: int)
    requires EngineInv(s)
    ensures EngineInv(HandleRequest(e, s, p, now))
  {
    hide TableInv, CacheInv, QueriesInv, StartLookup, TableAdd, SecureId, IsValidForIp;
    if p.message.body.FindNodeRequest? {
      AddKeepsInv(s.table, Node(p.message.body.target, p.from, None, now), now);
    }
    var s1 := if e.bootstrap == [] && p.message.body.FindNodeRequest?
              then s.(table := TableAdd(s.table, Node(p.message.body.target, p.from, None, now), now).0)
              else s;
    var newId := SecureId(p.randomId, p.from.ip, p.randomByte);
    LookupKeepsEngine(e, s1.(firewalled := false), FindNode(newId), [], now);
    EmptyIsValid(newId);
  }

  lemma HandleResponseKeepsEngine(e: Env, s: State, p: Packet, now: int)
    requires EngineInv(s)
    ensures EngineInv(HandleResponse(e, s, p, now).0)
  {
    hide TableInv, CacheInv, QueryShape, AnswerQuery, AnswerPut, DeliveredValue, TableAdd, FindPut;
    var m := p.message;
    var primary := FindQuery(s.queries, p.getOrder, m.tid, true);
    if primary.Some? {
      OutcomeKeepsShape(primary.value, s.queries[primary.value]);
    }
    var found := FindQuery(s.queries, p.getOrder, m.tid, false);
    if found.Some? {
      AnswerKeepsShape(e, found.value, s.queries[found.value], p.from, m, now);
    }
    if AuthorId(m.body).Some? {
      AddKeepsInv(s.table, Node(AuthorId(m.body).value, p.from, None, now), now);
    }
  }

  lemma OutcomeKeepsShape(id: Id, q: Query)
    requires QueryShape(id, q)
    ensures QueryShape(id, q.(outcome := BumpInvalidResponse(q.outcome)))
  {
  }

  lemma HandleMessageKeepsEngine(e: Env, s: State, packet: Option<Packet>, now: int)
    requires EngineInv(s)
    ensures EngineInv(HandleMessage(e, s, packet, now).0)
  {
    hide TableInv, CacheInv, QueriesInv, HandleRequest, HandleResponse, Receive;
    if packet.Some? {
      var p := packet.value;
      var (sock, delivered) := Receive(s.socket, Datagram(IsRequest(p.message.body), p.message.tid, p.from), now);
      HandleRequestKeepsEngine(e, s.(socket := sock), p, now);
      HandleResponseKeepsEngine(e, s.(socket := sock), p, now);
    }
  }

  lemma TickKeepsEngine(e: Env, s: State, i: TickInput)
    requires EngineInv(s) && ValidInput(s, i)
    ensures EngineInv(Tick(e, s, i).0)
  {
    hide EngineInv, ValidInput, Settle, Maintain, HandleMessage;
    var s1 := Settle(e, s, i).0;
    SettleKeepsEngine(e, s, i);
    MaintainKeepsEngine(e, s1, i.now);
    HandleMessageKeepsEngine(e, Maintain(e, s1, i.now), i.packet, i.now);
  }

  /** Over every run the routing table invariant, the cache accounting and the shape of every
      lookup hold. */
  lemma {:induction false} EngineOverRuns(e: Env, a: Loop, inputs: seq<Input>)
    requires EngineInv(a.rpc) && ValidRun(e, a, inputs)
    ensures EngineInv(Actor.Run(e, a, inputs).0.rpc)
  {
    hide EngineInv, Accept, Tick, Iterate, ValidInput;
    if inputs != [] {
      var init, last := inputs[..|inputs| - 1], inputs[|inputs| - 1];
      var b := Actor.Run(e, a, init).0;
      EngineOverRuns(e, a, init);
      AcceptKeepsEngine(e, b, last.message, last.tick.now);
      IterateRpc(e, b, last);
      TickKeepsEngine(e, BeforeTick(e, b, last), last.tick);
    }
  }

  /** A new node satisfies it. */
  lemma NewStateInv(id: Id, timeout: nat, serverMode: bool, now: int)
    ensures EngineInv(NewState(id, timeout, serverMode, now))
  {
    hide Balanced;
    EmptyBalanced();
    EmptyIsValid(id);
  }

  /** What a finished lookup leaves in the cache under its target: the nodes it reports, both size
      estimates, the subnets of its candidates and whether it was a find_node lookup; or
      nothing if it had no candidates. */
  lemma FinishedIsCached(e: Env, s: State, done: Done, voteOrder: VoteOrders, now: int)
    requires EngineInv(s) && done.id in s.queries
    ensures var q, s' := s.queries[done.id], FinishOne(e, s, done, voteOrder, now).0;
            && (q.closest != [] ==>
                  Peek(s'.cache.entries, done.id) ==
                  Some(Cached(done.closest, e.sizeEstimate(done.id, q.closest), e.sizeEstimate(done.id, q.responders),
                              SubnetsCount(q.closest), q.request.FindNode?)))
            && (q.closest == [] ==> forall key: Id :: Peek(s'.cache.entries, key).Some? ==> Peek(s'.cache.entries, key) == Peek(s.cache.entries, key))
  {
    hide BestAddress, CacheQuery, P.Start, Peek, Balanced, StrictlySorted, PairwiseCompatible, SubnetsCount, TableInv;
    var q := s.queries[done.id];
    assert QueryShape(done.id, q);
    var finds: nat :| Balanced(s.cache, finds);
    CacheQueryBalanced(s.cache, finds, done.id, q.closest, CacheEntry(e, q, done.closest));
    forall key: Id
      ensures q.closest == [] && Peek(CacheQuery(s.cache, done.id, q.closest, CacheEntry(e, q, done.closest)).entries, key).Some? ==>
                Peek(CacheQuery(s.cache, done.id, q.closest, CacheEntry(e, q, done.closest)).entries, key) == Peek(s.cache.entries, key)
    {
      OldestLeaves(s.cache, finds, done.id, q.closest, CacheEntry(e, q, done.closest), key);
    }
  }
}
