/**
  Reachability (src/rpc.rs): when the node counts as publicly addressable, how it gets its
  identifier renewed, and when it turns into a server.
 */
module RpcReachability {
  import opened Ids
  import opened Bep42
  import opened Nodes
  import opened RoutingTable
  import opened Sockets
  import opened IterativeQueries
  import opened Lru
  import opened QueryCache
  import opened Rpc
  import opened RpcReports
  import opened RpcSockets
  import opened RpcLiveness
  import opened Actor

  /** Not firewalled: a public address is known and our identifier is valid for its IP. */
  predicate Reachable(s: State) {
    !s.firewalled ==> s.publicAddress.Some? && IsValidForIp(s.table.id, s.publicAddress.value.ip)
  }

  /** The fields reachability depends on, and the mode, are those of `s` or firewalled. */
  predicate NotMoreOpen(s: State, s': State) {
    && s'.table.id == s.table.id && s'.socket.serverMode == s.socket.serverMode
    && (s'.firewalled || (s'.firewalled == s.firewalled && s'.publicAddress == s.publicAddress))
  }

  lemma LookupKeepsMode(e: Env, s: State, request: GetRequest, extra: seq<Address>, now: int)
    ensures NotMoreOpen(s, StartLookup(e, s, request, extra, now))
  {
    hide LaunchQuery, Extends;
    LookupOnlyAdds(e, s, request, extra, now);
    LaunchExtends(e, s, request, extra, now);
    assert LaunchQuery(e, s, request, extra, now).1.serverMode == s.socket.serverMode by {
      ExtendsMode(s.socket, LaunchQuery(e, s, request, extra, now).1, now);
    }
  }

  lemma ExtendsMode(a: Socket, b: Socket, now: int)
    requires Extends(a, b, now)
    ensures b.serverMode == a.serverMode && b.timeout == a.timeout
  {
  }

  lemma {:induction false} TickGetsMode(queries: map<Id, Query>, sock: Socket, order: seq<Id>, edk: nat, subnets: nat, now: int)
    ensures TickGets(queries, sock, order, edk, subnets, now).1.serverMode == sock.serverMode
    decreases |order|
  {
    hide Extends, VisitClosest, MakeDone;
    if order != [] {
      if order[0] !in queries {
        TickGetsMode(queries, sock, order[1..], edk, subnets, now);
      } else {
        var (q, sock1, done) := TickQuery(queries[order[0]], sock, now);
        VisitClosestEffect(queries[order[0]], sock, now);
        ExtendsMode(sock, sock1, now);
        TickGetsMode(queries[order[0] := q], sock1, order[1..], edk, subnets, now);
      }
    }
  }

  lemma FinishOneMode(e: Env, s: State, done: Done, voteOrder: VoteOrders, now: int)
    ensures NotMoreOpen(s, FinishOne(e, s, done, voteOrder, now).0)
  {
    hide BestAddress, CacheQuery, CacheEntry, P.Start, Extends;
    if done.id in s.queries {
      var q := s.queries[done.id];
      var s1 := UpdateVotes(s.(queries := s.queries - {done.id}), q, OrderFor(voteOrder, done.id), now);
      if done.id in s1.puts && !P.Started(s1.puts[done.id]) {
        StartExtends(s1.puts[done.id], s1.socket, done.closest, now);
        ExtendsMode(s1.socket, P.Start(s1.puts[done.id], s1.socket, done.closest, now).1, now);
      }
    }
  }

  lemma {:induction false} FinishAllMode(e: Env, s: State, dones: seq<Done>, voteOrder: VoteOrders, now: int)
    ensures NotMoreOpen(s, FinishAll(e, s, dones, voteOrder, now).0)
    decreases |dones|
  {
    hide FinishOne;
    if dones != [] {
      FinishOneMode(e, s, dones[0], voteOrder, now);
      FinishAllMode(e, FinishOne(e, s, dones[0], voteOrder, now).0, dones[1..], voteOrder, now);
    }
  }

  lemma SettleMode(e: Env, s: State, i: TickInput)
    ensures NotMoreOpen(s, Settle(e, s, i).0)
  {
    hide TickGets, FinishAll, TickPuts, ExpectedDk, AverageSubnets;
    var edk, subnets := ExpectedDk(e, s.cache), AverageSubnets(s.cache);
    var (queries, sock, dones) := TickGets(s.queries, s.socket, i.getOrder, edk, subnets, i.now);
    TickGetsMode(s.queries, s.socket, i.getOrder, edk, subnets, i.now);
    FinishAllMode(e, s.(queries := queries, socket := sock), dones, i.voteOrder, i.now);
  }

  lemma {:induction false} RemoveAllKeepsId(t: Table, nodes: seq<Node>, now: int)
    ensures RemoveAll(t, nodes, now).id == t.id
    decreases |nodes|
  {
    if nodes != [] {
      RemoveAllKeepsId(if IsStale(nodes[0], now) then TableRemove(t, nodes[0].id) else t, nodes[1..], now);
    }
  }

  lemma {:induction false} PingAllMode(sock: Socket, nodes: seq<Node>, now: int)
    ensures PingAll(sock, nodes, now).serverMode == sock.serverMode
    decreases |nodes|
  {
    if nodes != [] {
      PingAllMode(if !IsStale(nodes[0], now) && ShouldPing(nodes[0], now) then Request(sock, nodes[0].address, now) else sock,
                  nodes[1..], now);
    }
  }

  /** Maintenance turns server mode on only for a node that is not firewalled. */
  lemma MaintainMode(e: Env, s: State, now: int)
    ensures var s' := Maintain(e, s, now);
            && s'.table.id == s.table.id && s'.firewalled == s.firewalled && s'.publicAddress == s.publicAddress
            && (s.socket.serverMode ==> s'.socket.serverMode)
            && (s'.socket.serverMode ==> s.socket.serverMode || !s.firewalled)
  {
    hide StartLookup, RemoveAll, PingAll, AllNodes;
    var s1 := if now - s.lastRefresh >= REFRESH_TABLE_INTERVAL then TryServerMode(s) else s;
    var s2 := if now - s.lastPing >= PING_TABLE_INTERVAL then PingAndPurge(s1, now) else s1;
    RemoveAllKeepsId(s1.table, AllNodes(s1.table), now);
    PingAllMode(s1.socket, AllNodes(s1.table), now);
    LookupKeepsMode(e, s2.(lastRefresh := now), FindNode(s2.table.id), [], now);
    LookupOnlyAdds(e, s2.(lastRefresh := now), FindNode(s2.table.id), [], now);
  }

  /** A ping from the address we believe public was delivered in this tick. */
  predicate SelfPinged(e: Env, s: State, i: TickInput) {
    PingFromUs(Maintain(e, Settle(e, s, i).0, i.now), i.packet, i.now)
  }

  predicate PingFromUs(s: State, packet: Option<Packet>, now: int) {
    && packet.Some? && packet.value.message.body.PingRequest? && s.publicAddress == Some(packet.value.from)
    && Receive(s.socket, Datagram(true, packet.value.message.tid, packet.value.from), now).1
  }

  lemma HandleRequestMode(e: Env, s: State, p: Packet, now: int)
    requires Reachable(s)
    ensures var s' := HandleRequest(e, s, p, now);
            && Reachable(s')
            && s'.socket.serverMode == s.socket.serverMode && s'.publicAddress == s.publicAddress
            && (s'.firewalled == s.firewalled || (p.message.body.PingRequest? && s.publicAddress == Some(p.from)))
  {
    hide StartLookup, SecureId, IsValidForIp, BucketAdd, Taken, Distance;
    var s1 := if e.bootstrap == [] && p.message.body.FindNodeRequest?
              then s.(table := TableAdd(s.table, Node(p.message.body.target, p.from, None, now), now).0)
              else s;
    var s2 := s1.(firewalled := false);
    var newId := SecureId(p.randomId, p.from.ip, p.randomByte);
    SecureIdIsValid(p.randomId, p.from.ip, p.randomByte);
    LookupKeepsMode(e, s2, FindNode(newId), [], now);
    LookupOnlyAdds(e, s2, FindNode(newId), [], now);
  }

  lemma HandleResponseMode(e: Env, s: State, p: Packet, now: int)
    ensures NotMoreOpen(s, HandleResponse(e, s, p, now).0)
  {
    hide AnswerQuery, AnswerPut, DeliveredValue, BucketAdd, Taken, Distance;
  }

  lemma HandleMessageMode(e: Env, s: State, packet: Option<Packet>, now: int)
    requires Reachable(s)
    ensures var s' := HandleMessage(e, s, packet, now).0;
            && Reachable(s')
            && s'.socket.serverMode == s.socket.serverMode
            && (!s'.firewalled ==> !s.firewalled || PingFromUs(s, packet, now))
  {
    hide HandleRequest, HandleResponse, Receive, IsValidForIp;
    match packet
    case None =>
    case Some(p) =>
      var d := Datagram(IsRequest(p.message.body), p.message.tid, p.from);
      var (sock, delivered) := Receive(s.socket, d, now);
      ReceiveShrinks(s.socket, d, now);
      var s1 := s.(socket := sock);
      HandleRequestMode(e, s1, p, now);
      HandleResponseMode(e, s1, p, now);
  }

  /** One tick keeps reachability; the firewall opens only for a ping from our public address,
      and server mode starts only when it was open before and never ends. */
  lemma TickReachable(e: Env, s: State, i: TickInput)
    requires Reachable(s)
    ensures var s' := Tick(e, s, i).0;
            && Reachable(s')
            && (!s'.firewalled ==> !s.firewalled || SelfPinged(e, s, i))
            && (s.socket.serverMode ==> s'.socket.serverMode)
            && (s'.socket.serverMode ==> s.socket.serverMode || !s.firewalled)
  {
    hide Settle, Maintain, HandleMessage, IsValidForIp, Receive;
    SettleMode(e, s, i);
    var s1 := Settle(e, s, i).0;
    MaintainMode(e, s1, i.now);
    HandleMessageMode(e, Maintain(e, s1, i.now), i.packet, i.now);
  }

  lemma {:induction false} SeedAllKeepsId(t: Table, nodes: seq<Node>, now: int)
    ensures SeedAll(t, nodes, now).id == t.id
    decreases |nodes|
  {
    hide BucketAdd, Taken, Distance;
    if nodes != [] { SeedAllKeepsId(TableAdd(t, nodes[0], now).0, nodes[1..], now); }
  }

  lemma SubmitPutMode(e: Env, s: State, request: P.PutRequest, extra: seq<Node>, now: int)
    ensures var s' := SubmitPut(e, s, request, extra, now).0;
            NotMoreOpen(s, s') && s'.publicAddress == s.publicAddress
  {
    hide StartLookup, P.Start, UsableCache, CachedNodes, Extends, Promote, Admit;
    if Admit(s.puts, request) == Proceed {
      var s1 := s.(cache := s.cache.(entries := Promote(s.cache.entries, request.target)));
      var salt := if request.PutMutable? then request.salt else None;
      LookupKeepsMode(e, s1, GetValue(request.target, None, salt), [], now);
      LookupOnlyAdds(e, s1, GetValue(request.target, None, salt), [], now);
      var put := P.NewPut(request, extra, s.socket.sent);
      StartExtends(put, s1.socket, CachedNodes(s.cache, request.target), now);
      ExtendsMode(s1.socket, P.Start(put, s1.socket, CachedNodes(s.cache, request.target), now).1, now);
    }
  }

  lemma AcceptMode(e: Env, a: Loop, m: ActorMessage, now: int)
    ensures NotMoreOpen(a.rpc, Accept(e, a, m, now).0.rpc)
    ensures Accept(e, a, m, now).0.rpc.publicAddress == a.rpc.publicAddress
  {
    hide StartLookup, SubmitPut, SeedAll, Replay, Extends;
    match m
    case Put(request, _, extra) => SubmitPutMode(e, a.rpc, request, extra, now);
    case Get(request, _) =>
      LookupKeepsMode(e, a.rpc, request, [], now);
      LookupOnlyAdds(e, a.rpc, request, [], now);
    case SeedRouting(nodes) => SeedAllKeepsId(a.rpc.table, nodes, now);
    case Idle =>
  }

  /** Some tick of the run received a ping from the address then believed public. */
  ghost predicate EverSelfPinged(e: Env, a: Loop, inputs: seq<Input>) {
    inputs != [] &&
    var init, last := inputs[..|inputs| - 1], inputs[|inputs| - 1];
    EverSelfPinged(e, a, init) || SelfPinged(e, BeforeTick(e, Run(e, a, init).0, last), last.tick)
  }

  /** Over every run: a node that is not firewalled knows a public address its identifier is
      valid for; a node that was not configured as a server and started firewalled becomes
      reachable or a server only after such a ping; and a server stays a server. */
  lemma {:induction false} ReachabilityOverRuns(e: Env, a: Loop, inputs: seq<Input>)
    requires Reachable(a.rpc)
    ensures var s' := Run(e, a, inputs).0.rpc;
            && Reachable(s')
            && (a.rpc.socket.serverMode ==> s'.socket.serverMode)
            && (a.rpc.firewalled && !a.rpc.socket.serverMode && (!s'.firewalled || s'.socket.serverMode) ==>
                  EverSelfPinged(e, a, inputs))
  {
    hide Accept, Tick, Iterate, SelfPinged, IsValidForIp;
    if inputs != [] {
      var init, last := inputs[..|inputs| - 1], inputs[|inputs| - 1];
      var b := Run(e, a, init).0;
      ReachabilityOverRuns(e, a, init);
      AcceptMode(e, b, last.message, last.tick.now);
      var s := BeforeTick(e, b, last);
      IterateRpc(e, b, last);
      TickReachable(e, s, last.tick);
    }
  }
}
