/**
  How every part of the engine uses the table of transaction ids: requests are only
  added, at the current time, and answered or expired ones only disappear.
 */
module RpcSockets {
  import opened Ids
  import opened Bep42
  import opened Nodes
  import opened RoutingTable
  import opened Sockets
  import opened IterativeQueries
  import opened Rpc
  import opened RpcReports

  /** `b` is `a` after sending some requests at `now` and dropping some others. */
  ghost predicate Evolves(a: Socket, b: Socket, now: int) {
    && a.sent <= b.sent && a.timeout == b.timeout
    && (forall t: Tid :: t in b.requests && !Issued(t, a.sent, b.sent) ==> t in a.requests && b.requests[t] == a.requests[t])
    && (forall t: Tid :: t in b.requests && Issued(t, a.sent, b.sent) ==> b.requests[t].sentAt == now)
  }

  lemma ExtendsEvolves(a: Socket, b: Socket, now: int)
    requires Extends(a, b, now)
    ensures Evolves(a, b, now)
  {
    hide Issued;
  }

  lemma EvolvesReflexive(a: Socket, now: int)
    ensures Evolves(a, a, now)
  {
  }

  lemma EvolvesTransitive(a: Socket, b: Socket, c: Socket, now: int)
    requires Evolves(a, b, now) && Evolves(b, c, now)
    ensures Evolves(a, c, now)
  {
    hide Issued;
    forall t: Tid | t in c.requests
      ensures !Issued(t, a.sent, c.sent) ==> t in a.requests && c.requests[t] == a.requests[t]
      ensures Issued(t, a.sent, c.sent) ==> c.requests[t].sentAt == now
    {
      IssuedSplit(t, a.sent, b.sent, c.sent);
    }
  }

  /** Dropping entries is an evolution too. */
  lemma ShrinkEvolves(a: Socket, b: Socket, now: int)
    requires a.sent == b.sent && a.timeout == b.timeout
    requires forall t :: t in b.requests ==> t in a.requests && b.requests[t] == a.requests[t]
    ensures Evolves(a, b, now)
  {
  }

  // --- each operation ---

  lemma LookupEvolves(e: Env, s: State, request: GetRequest, extra: seq<Address>, now: int)
    ensures Evolves(s.socket, StartLookup(e, s, request, extra, now).socket, now)
  {
    hide Evolves, Extends, LaunchQuery;
    EvolvesReflexive(s.socket, now);
    LaunchExtends(e, s, request, extra, now);
    ExtendsEvolves(s.socket, LaunchQuery(e, s, request, extra, now).1, now);
  }

  /** The requests of a new lookup are numbered from the moment it is created. */
  lemma LaunchExtends(e: Env, s: State, request: GetRequest, extra: seq<Address>, now: int)
    ensures var (q, sock) := LaunchQuery(e, s, request, extra, now);
            && Extends(s.socket, sock, now)
            && q.born == s.socket.sent && q.request == request && q.responders == [] && q.outcome == NO_OUTCOME
            && (forall t :: t in q.inflight ==> Issued(t, s.socket.sent, sock.sent))
            && (forall n :: n in Top(q) ==> n.address in q.visited)
            && q.visited <= (set a | a in e.bootstrap + extra) + (set n | n in q.closest :: n.address)
  {
    hide Extends, Seeds, CachedNodes, AddCandidates, Visited, VisitAll, VisitClosest;
    var seeds := Seeds(e, s, request.target);
    var asked := if seeds == [] || |seeds| < |e.bootstrap| then e.bootstrap else [];
    var q0 := NewQuery(request, s.socket.sent);
    var (q1, s1) := VisitAll(q0, s.socket, asked + extra, now);
    VisitAllEffect(q0, s.socket, asked + extra, now);
    var q2 := AddCandidates(AddCandidates(q1, seeds), CachedNodes(s.cache, request.target));
    var (q3, s3) := VisitClosest(q2, s1, now);
    VisitClosestEffect(q2, s1, now);
    ExtendsTransitive(s.socket, s1, s3, now);
    assert q2 == q1.(closest := q2.closest) by { CandidatesOnly(q1, seeds); CandidatesOnly(AddCandidates(q1, seeds), CachedNodes(s.cache, request.target)); }
    VisitedFields(q0, s.socket, q1, s1);
    VisitedFields(q2, s1, q3, s3);
    assert s.socket.sent <= s1.sent <= s3.sent by { ExtendsGrows(s.socket, s1, now); ExtendsGrows(s1, s3, now); }
    forall t | t in q3.inflight ensures Issued(t, s.socket.sent, s3.sent) {
      VisitedTids(q0, s.socket, q1, s1, t);
      VisitedTids(q2, s1, q3, s3, t);
      IssuedSplit(t, s.socket.sent, s1.sent, s3.sent);
    }
  }

  lemma ExtendsGrows(a: Socket, b: Socket, now: int)
    requires Extends(a, b, now)
    ensures a.sent <= b.sent
  {
  }

  lemma CandidatesOnly(q: Query, nodes: seq<Node>)
    ensures AddCandidates(q, nodes) == q.(closest := AddCandidates(q, nodes).closest)
  {
  }

  lemma VisitedFields(q: Query, s: Socket, q': Query, s': Socket)
    requires Visited(q, s, q', s')
    ensures q' == q.(inflight := q'.inflight, primary := q'.primary, visited := q'.visited)
  {
  }

  lemma VisitedTids(q: Query, s: Socket, q': Query, s': Socket, t: Tid)
    requires Visited(q, s, q', s')
    ensures t in q'.inflight ==> t in q.inflight || Issued(t, s.sent, s'.sent)
    ensures t in q'.primary ==> t in q.primary || Issued(t, s.sent, s'.sent)
  {
    hide Issued;
    if t in q'.inflight {
      var i :| 0 <= i < |q'.inflight| && q'.inflight[i] == t;
      if i < |q.inflight| { assert q.inflight[i] == t; }
    }
    if t in q'.primary {
      var i :| 0 <= i < |q'.primary| && q'.primary[i] == t;
      if i < |q.primary| { assert q.primary[i] == t; }
    }
  }

  lemma {:induction false} SendAllEffect(p: P.Put, s: Socket, nodes: seq<Node>, now: int)
    ensures var (p', s') := P.SendAll(p, s, nodes, now);
            && Extends(s, s', now)
            && p' == p.(inflight := p'.inflight) && p.inflight <= p'.inflight
            && (forall i :: |p.inflight| <= i < |p'.inflight| ==> Issued(p'.inflight[i], s.sent, s'.sent))
            && ((exists n :: n in nodes && n.token.Some?) ==> p'.inflight != [])
            && ((forall n :: n in nodes ==> n.token.None?) ==> p' == p)
    decreases |nodes|
  {
    hide Extends, Issued;
    if nodes == [] {
      ExtendsReflexive(s, now);
    } else {
      assert nodes == [nodes[0]] + nodes[1..];
      if nodes[0].token.None? {
        SendAllEffect(p, s, nodes[1..], now);
      } else {
        var p1, s1 := p.(inflight := p.inflight + [Wrap(s.sent)]), Request(s, nodes[0].address, now);
        SendAllEffect(p1, s1, nodes[1..], now);
        var (p2, s2) := P.SendAll(p1, s1, nodes[1..], now);
        RequestExtends(s, nodes[0].address, now);
        ExtendsTransitive(s, s1, s2, now);
        ExtendsGrows(s1, s2, now);
        IssuedLast(s.sent, s.sent);
        forall i | |p.inflight| <= i < |p2.inflight| ensures Issued(p2.inflight[i], s.sent, s2.sent) {
          IssuedSplit(p2.inflight[i], s.sent, s1.sent, s2.sent);
        }
      }
    }
  }

  lemma StartExtends(p: P.Put, s: Socket, closest: seq<Node>, now: int)
    requires !P.Started(p)
    ensures var (p', s', _) := P.Start(p, s, closest, now);
            && Extends(s, s', now) && p' == p.(inflight := p'.inflight) && p.inflight <= p'.inflight
            && (forall i :: |p.inflight| <= i < |p'.inflight| ==> Issued(p'.inflight[i], s.sent, s'.sent))
  {
    hide Extends, Issued;
    ExtendsReflexive(s, now);
    SendAllEffect(p, s, closest + p.extra, now);
  }

  lemma SubmitPutEvolves(e: Env, s: State, request: P.PutRequest, extra: seq<Node>, now: int)
    ensures Evolves(s.socket, SubmitPut(e, s, request, extra, now).0.socket, now)
    ensures var s' := SubmitPut(e, s, request, extra, now).0;
            forall id :: id in s.queries ==> id in s'.queries && s'.queries[id] == s.queries[id]
  {
    hide Evolves, Extends, StartLookup, P.Start, UsableCache, CachedNodes;
    EvolvesReflexive(s.socket, now);
    var s1 := s.(cache := s.cache.(entries := Lru.Promote(s.cache.entries, request.target)));
    var salt := if request.PutMutable? then request.salt else None;
    LookupOnlyAdds(e, s1, GetValue(request.target, None, salt), [], now);
    LookupEvolves(e, s1, GetValue(request.target, None, salt), [], now);
    var put := P.NewPut(request, extra, s.socket.sent);
    var nodes := CachedNodes(s.cache, request.target);
    StartExtends(put, s1.socket, nodes, now);
    ExtendsEvolves(s1.socket, P.Start(put, s1.socket, nodes, now).1, now);
  }

  lemma TickQueryEvolves(q: Query, sock: Socket, now: int)
    ensures Evolves(sock, TickQuery(q, sock, now).1, now)
  {
    hide Evolves, Extends;
    VisitClosestEffect(q, sock, now);
    ExtendsEvolves(sock, VisitClosest(q, sock, now).1, now);
  }

  lemma {:induction false} TickGetsEvolves(queries: map<Id, Query>, sock: Socket, order: seq<Id>, edk: nat, subnets: nat, now: int)
    ensures Evolves(sock, TickGets(queries, sock, order, edk, subnets, now).1, now)
    decreases |order|
  {
    hide Evolves, TickQuery, MakeDone;
    EvolvesReflexive(sock, now);
    if order != [] {
      if order[0] !in queries {
        TickGetsEvolves(queries, sock, order[1..], edk, subnets, now);
      } else {
        var (q, sock1, done) := TickQuery(queries[order[0]], sock, now);
        TickQueryEvolves(queries[order[0]], sock, now);
        TickGetsEvolves(queries[order[0] := q], sock1, order[1..], edk, subnets, now);
        EvolvesTransitive(sock, sock1, TickGets(queries[order[0] := q], sock1, order[1..], edk, subnets, now).1, now);
      }
    }
  }

  lemma RequestEvolves(sock: Socket, to: Address, now: int)
    ensures Evolves(sock, Request(sock, to, now), now)
  {
    hide Evolves, Extends;
    RequestExtends(sock, to, now);
    ExtendsEvolves(sock, Request(sock, to, now), now);
  }

  lemma FinishOneEvolves(e: Env, s: State, done: Done, voteOrder: VoteOrders, now: int)
    ensures Evolves(s.socket, FinishOne(e, s, done, voteOrder, now).0.socket, now)
  {
    hide Evolves, Extends, BestAddress, QueryCache.CacheQuery, CacheEntry, P.Start, Request;
    EvolvesReflexive(s.socket, now);
    if done.id in s.queries {
      var q := s.queries[done.id];
      var s1 := UpdateVotes(s.(queries := s.queries - {done.id}), q, OrderFor(voteOrder, done.id), now);
      if BestAddress(q.votes, OrderFor(voteOrder, done.id)).Some? {
        RequestEvolves(s.socket, BestAddress(q.votes, OrderFor(voteOrder, done.id)).value, now);
      }
      var s2 := s1.(cache := QueryCache.CacheQuery(s1.cache, q.request.target, q.closest, CacheEntry(e, q, done.closest)));
      if done.id in s2.puts && !P.Started(s2.puts[done.id]) {
        StartExtends(s2.puts[done.id], s2.socket, done.closest, now);
        var sock := P.Start(s2.puts[done.id], s2.socket, done.closest, now).1;
        ExtendsEvolves(s2.socket, sock, now);
        EvolvesTransitive(s.socket, s2.socket, sock, now);
      }
    }
  }

  lemma {:induction false} FinishAllEvolves(e: Env, s: State, dones: seq<Done>, voteOrder: VoteOrders, now: int)
    ensures Evolves(s.socket, FinishAll(e, s, dones, voteOrder, now).0.socket, now)
    decreases |dones|
  {
    hide Evolves, FinishOne;
    EvolvesReflexive(s.socket, now);
    if dones != [] {
      var s1 := FinishOne(e, s, dones[0], voteOrder, now).0;
      FinishOneEvolves(e, s, dones[0], voteOrder, now);
      FinishAllEvolves(e, s1, dones[1..], voteOrder, now);
      EvolvesTransitive(s.socket, s1.socket, FinishAll(e, s1, dones[1..], voteOrder, now).0.socket, now);
    }
  }

  lemma {:induction false} PingAllEvolves(sock: Socket, nodes: seq<Node>, now: int)
    ensures Evolves(sock, PingAll(sock, nodes, now), now)
    decreases |nodes|
  {
    hide Evolves, Request;
    EvolvesReflexive(sock, now);
    if nodes != [] {
      var sock1 := if !IsStale(nodes[0], now) && ShouldPing(nodes[0], now) then Request(sock, nodes[0].address, now) else sock;
      RequestEvolves(sock, nodes[0].address, now);
      PingAllEvolves(sock1, nodes[1..], now);
      EvolvesTransitive(sock, sock1, PingAll(sock1, nodes[1..], now), now);
    }
  }

  lemma MaintainEvolves(e: Env, s: State, now: int)
    ensures Evolves(s.socket, Maintain(e, s, now).socket, now)
  {
    hide Evolves, StartLookup, RemoveAll, PingAll, AllNodes;
    var s1 := if now - s.lastRefresh >= REFRESH_TABLE_INTERVAL then TryServerMode(s) else s;
    assert Evolves(s.socket, s1.socket, now) by { ShrinkEvolves(s.socket, s1.socket, now); }
    var s2 := if now - s.lastPing >= PING_TABLE_INTERVAL then PingAndPurge(s1, now) else s1;
    EvolvesReflexive(s1.socket, now);
    PingAllEvolves(s1.socket, AllNodes(s1.table), now);
    EvolvesTransitive(s.socket, s1.socket, s2.socket, now);
    LookupEvolves(e, s2.(lastRefresh := now), FindNode(s2.table.id), [], now);
    EvolvesTransitive(s.socket, s2.socket, StartLookup(e, s2.(lastRefresh := now), FindNode(s2.table.id), [], now).socket, now);
  }

  lemma ReceiveShrinks(sock: Socket, d: Datagram, now: int)
    ensures var (sock', _) := Receive(sock, d, now);
            && sock'.sent == sock.sent && sock'.timeout == sock.timeout && sock'.serverMode == sock.serverMode
            && forall t :: t in sock'.requests ==> t in sock.requests && sock'.requests[t] == sock.requests[t]
    ensures Tidy(sock, now).sent == sock.sent && Tidy(sock, now).timeout == sock.timeout
    ensures forall t :: t in Tidy(sock, now).requests ==> t in sock.requests && Tidy(sock, now).requests[t] == sock.requests[t]
  {
  }

  lemma HandleMessageEvolves(e: Env, s: State, packet: Option<Packet>, now: int)
    ensures Evolves(s.socket, HandleMessage(e, s, packet, now).0.socket, now)
  {
    hide Evolves, StartLookup, TableAdd, AnswerQuery, AnswerPut, SecureId, IsValidForIp, DeliveredValue, Receive, Tidy;
    match packet
    case None =>
      ReceiveShrinks(s.socket, Datagram(true, 0, Address(0, 0)), now);
      ShrinkEvolves(s.socket, Tidy(s.socket, now), now);
    case Some(p) =>
      var d := Datagram(IsRequest(p.message.body), p.message.tid, p.from);
      var (sock, delivered) := Receive(s.socket, d, now);
      ReceiveShrinks(s.socket, d, now);
      ShrinkEvolves(s.socket, sock, now);
      var s1 := s.(socket := sock);
      if delivered && IsRequest(p.message.body) {
        HandleRequestEvolves(e, s1, p, now);
        EvolvesTransitive(s.socket, sock, HandleRequest(e, s1, p, now).socket, now);
      }
  }

  lemma HandleRequestEvolves(e: Env, s: State, p: Packet, now: int)
    ensures Evolves(s.socket, HandleRequest(e, s, p, now).socket, now)
  {
    hide Evolves, StartLookup, TableAdd, SecureId, IsValidForIp;
    var s1 := if e.bootstrap == [] && p.message.body.FindNodeRequest?
              then s.(table := TableAdd(s.table, Node(p.message.body.target, p.from, None, now), now).0)
              else s;
    EvolvesReflexive(s.socket, now);
    LookupEvolves(e, s1.(firewalled := false), FindNode(SecureId(p.randomId, p.from.ip, p.randomByte)), [], now);
  }

  lemma TickEvolves(e: Env, s: State, i: TickInput)
    ensures Evolves(s.socket, Tick(e, s, i).0.socket, i.now)
    ensures Evolves(s.socket, Settle(e, s, i).0.socket, i.now)
  {
    hide Evolves, TickGets, FinishAll, Maintain, HandleMessage, TickPuts;
    var edk, subnets := ExpectedDk(e, s.cache), QueryCache.AverageSubnets(s.cache);
    var (queries, sock, dones) := TickGets(s.queries, s.socket, i.getOrder, edk, subnets, i.now);
    TickGetsEvolves(s.queries, s.socket, i.getOrder, edk, subnets, i.now);
    var s0 := s.(queries := queries, socket := sock);
    FinishAllEvolves(e, s0, dones, i.voteOrder, i.now);
    var s1 := Settle(e, s, i).0;
    EvolvesTransitive(s.socket, sock, s1.socket, i.now);
    MaintainEvolves(e, s1, i.now);
    var s2 := Maintain(e, s1, i.now);
    EvolvesTransitive(s.socket, s1.socket, s2.socket, i.now);
    HandleMessageEvolves(e, s2, i.packet, i.now);
    EvolvesTransitive(s.socket, s2.socket, HandleMessage(e, s2, i.packet, i.now).0.socket, i.now);
  }
}
