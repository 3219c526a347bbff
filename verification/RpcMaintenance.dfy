/**
  What the periodic maintenance, a change of public address and the launch of a lookup do
  (src/rpc.rs), in terms of what can be seen from outside: nodes, requests, times and flags.
 */
module RpcMaintenance {
  import opened Ids
  import opened Bep42
  import opened Nodes
  import opened ClosestNodes
  import opened RoutingTable
  import opened Sockets
  import opened IterativeQueries
  import opened QueryCache
  import opened Rpc
  import opened RpcReports
  import opened RpcSockets
  import opened RpcEngine

  // --- purging ---

  lemma {:induction false} RemoveAllTakesOut(t: Table, nodes: seq<Node>, now: int, n: Node)
    requires TableInv(t)
    ensures TableInv(RemoveAll(t, nodes, now)) && RemoveAll(t, nodes, now).id == t.id
    ensures Holds(RemoveAll(t, nodes, now), n) <==>
            Holds(t, n) && forall m :: m in nodes && m.id == n.id ==> now - m.lastSeen <= 900_000
    decreases |nodes|
  {
    hide TableInv, TableRemove, Holds;
    if nodes != [] {
      var t1 := if IsStale(nodes[0], now) then TableRemove(t, nodes[0].id) else t;
      RemoveKeepsInv(t, nodes[0].id);
      RemoveTakesOut(t, nodes[0].id, n);
      RemoveAllTakesOut(t1, nodes[1..], now, n);
      assert nodes == [nodes[0]] + nodes[1..];
    }
  }

  /** A purge takes out exactly the nodes not seen for more than fifteen minutes. */
  lemma PurgeIsExact(t: Table, now: int, n: Node)
    requires TableInv(t)
    ensures Holds(RemoveAll(t, AllNodes(t), now), n) <==> Holds(t, n) && now - n.lastSeen <= 900_000
    ensures RemoveAll(t, AllNodes(t), now).id == t.id && TableInv(RemoveAll(t, AllNodes(t), now))
  {
    hide TableInv, RemoveAll, AllNodes, Holds;
    RemoveAllTakesOut(t, AllNodes(t), now, n);
    AllNodesExact(t);
    forall m | m in AllNodes(t) && m.id == n.id && Holds(t, n) ensures m == n {
      OnlyOneOfId(AllNodes(t), m, n);
    }
  }

  lemma OnlyOneOfId(nodes: seq<Node>, m: Node, n: Node)
    requires DistinctIds(nodes) && m in nodes && n in nodes && m.id == n.id
    ensures m == n
  {
  }

  // --- pinging ---

  /** The nodes seen within fifteen minutes, but not within the last ten seconds. */
  function Due(nodes: seq<Node>, now: int): seq<Node> {
    if nodes == [] then []
    else
      var rest := Due(nodes[1..], now);
      if 10_000 < now - nodes[0].lastSeen <= 900_000 then [nodes[0]] + rest else rest
  }

  lemma {:induction false} PingAllSends(sock: Socket, nodes: seq<Node>, now: int)
    requires |nodes| <= TID_SPACE
    ensures |Due(nodes, now)| <= |nodes|
    ensures P.SentInOrder(sock, PingAll(sock, nodes, now), Due(nodes, now), now)
    ensures PingAll(sock, nodes, now) == sock.(sent := sock.sent + |Due(nodes, now)|, requests := PingAll(sock, nodes, now).requests)
    decreases |nodes|
  {
    hide P.SentInOrder;
    if nodes == [] {
      P.NothingInOrder(sock, now);
    } else {
      var n := nodes[0];
      var due := 10_000 < now - n.lastSeen <= 900_000;
      var sock1 := if due then Request(sock, n.address, now) else sock;
      PingAllSends(sock1, nodes[1..], now);
      if due {
        P.OneMoreInOrder(sock, sock1, PingAll(sock, nodes, now), n, Due(nodes[1..], now), now);
      }
    }
  }

  /** The node is due, spelled on one node: in the list exactly when seen in that window. */
  lemma {:induction false} DueMeans(nodes: seq<Node>, now: int, n: Node)
    ensures n in Due(nodes, now) <==> n in nodes && 10_000 < now - n.lastSeen <= 900_000
    decreases |nodes|
  {
    if nodes != [] {
      DueMeans(nodes[1..], now, n);
      assert nodes == [nodes[0]] + nodes[1..];
    }
  }

  // --- the periodic step ---

  /** The maintenance step. A refresh is due after fifteen minutes, a ping round after five. A due
      refresh turns on server mode unless the node is firewalled; a due round purges; an empty
      table or a due refresh launches the lookup of the own identifier, unless there is no
      bootstrap node or such a lookup is live. Nothing else changes. */
  lemma MaintainDoes(e: Env, s: State, now: int)
    requires TableInv(s.table)
    ensures var s' := Maintain(e, s, now);
            var refresh, round := now - s.lastRefresh >= 900_000, now - s.lastPing >= 300_000;
            var populate := refresh || forall n :: !Holds(s.table, n);
            var launch := populate && e.bootstrap != [] && s.table.id !in s.queries;
            && s'.lastRefresh == (if populate then now else s.lastRefresh)
            && s'.lastPing == (if round then now else s.lastPing)
            && (s'.socket.serverMode <==> s.socket.serverMode || (refresh && !s.firewalled))
            && s'.table.id == s.table.id
            && (forall n :: Holds(s'.table, n) <==> Holds(s.table, n) && (round ==> now - n.lastSeen <= 900_000))
            && s'.queries.Keys == s.queries.Keys + (if launch then {s.table.id} else {})
            && (launch ==> s'.queries[s.table.id].request == FindNode(s.table.id))
            && (forall id :: id in s.queries ==> s'.queries[id] == s.queries[id])
            && s'.puts == s.puts && s'.publicAddress == s.publicAddress && s'.firewalled == s.firewalled
            && (!round && !launch ==> s'.socket == s.socket.(serverMode := s'.socket.serverMode))
  {
    hide TableInv, Holds, AllNodes, RemoveAll, PingAll, LaunchQuery, Lru.Promote, Extends;
    var refresh := now - s.lastRefresh >= 900_000;
    var s1 := if refresh then TryServerMode(s) else s;
    var s2 := if now - s.lastPing >= 300_000 then PingAndPurge(s1, now) else s1;
    forall n ensures Holds(RemoveAll(s.table, AllNodes(s.table), now), n) <==> Holds(s.table, n) && now - n.lastSeen <= 900_000 {
      PurgeIsExact(s.table, now, n);
    }
    PurgeKeepsId(s.table, now);
    NobodyHeld(s.table);
    PingAllKeepsMode(s1.socket, AllNodes(s1.table), now);
    LaunchExtends(e, s2.(lastRefresh := now), FindNode(s2.table.id), [], now);
    LaunchKeepsMode(e, s2.(lastRefresh := now), FindNode(s2.table.id), now);
  }

  lemma PurgeKeepsId(t: Table, now: int)
    requires TableInv(t)
    ensures RemoveAll(t, AllNodes(t), now).id == t.id
  {
    hide TableInv, RemoveAll, AllNodes, Holds;
    PurgeIsExact(t, now, Node(t.id, Address(0, 0), None, 0));
  }

  lemma NobodyHeld(t: Table)
    requires TableInv(t)
    ensures AllNodes(t) == [] <==> forall n :: !Holds(t, n)
  {
    hide TableInv, AllNodes, Holds, DistinctIds, PairwiseCompatible;
    AllNodesExact(t);
    if AllNodes(t) != [] {
      assert AllNodes(t)[0] in AllNodes(t);
    }
  }

  lemma {:induction false} PingAllKeepsMode(sock: Socket, nodes: seq<Node>, now: int)
    ensures PingAll(sock, nodes, now).serverMode == sock.serverMode
    decreases |nodes|
  {
    if nodes != [] {
      PingAllKeepsMode(if !IsStale(nodes[0], now) && ShouldPing(nodes[0], now) then Request(sock, nodes[0].address, now) else sock,
                       nodes[1..], now);
    }
  }

  lemma LaunchKeepsMode(e: Env, s: State, request: GetRequest, now: int)
    ensures LaunchQuery(e, s, request, [], now).1.serverMode == s.socket.serverMode
  {
    hide LaunchQuery, Issued;
    LaunchExtends(e, s, request, [], now);
  }

  /** A table holds at most 160 buckets of twenty nodes. */
  lemma {:induction false} TableIsSmall(t: Table, from: nat)
    requires TableInv(t) && 1 <= from <= 161
    ensures |Flatten(t.buckets, from)| <= 20 * (161 - from)
    decreases 161 - from
  {
    hide Distance, CrossCompatible;
    if from <= 160 {
      TableIsSmall(t, from + 1);
      assert from in t.buckets ==> BucketInv(t.id, from, t.buckets[from]);
    }
  }

  /** A due round pings exactly the nodes due, in the order of the table, one request each; the
      requests are still there after the lookup that may be launched with it. */
  lemma MaintainPings(e: Env, s: State, now: int)
    requires TableInv(s.table) && now - s.lastPing >= 300_000
    requires Maintain(e, s, now).socket.sent <= s.socket.sent + TID_SPACE
    ensures var sock, due := Maintain(e, s, now).socket, Due(AllNodes(s.table), now);
            && s.socket.sent + |due| <= sock.sent
            && forall i :: 0 <= i < |due| ==>
                 Nth(s.socket.sent, i) in sock.requests && sock.requests[Nth(s.socket.sent, i)] == InflightRequest(due[i].address, now)
  {
    hide TableInv, AllNodes, RemoveAll, LaunchQuery, PingAll, Extends, Due, P.SentInOrder;
    AllNodesAreFew(s.table);
    var s1 := if now - s.lastRefresh >= REFRESH_TABLE_INTERVAL then TryServerMode(s) else s;
    var s2 := PingAndPurge(s1, now).(lastRefresh := now);
    var due, request := Due(AllNodes(s.table), now), FindNode(s2.table.id);
    PingAllSends(s1.socket, AllNodes(s.table), now);
    LaunchExtends(e, s2, request, [], now);
    ExtendsReflexive(s2.socket, now);
    PingsStay(s1.socket, s2.socket, Maintain(e, s, now).socket, due, now);
  }

  lemma AllNodesAreFew(t: Table)
    requires TableInv(t)
    ensures |AllNodes(t)| <= 3200
  {
    TableIsSmall(t, 1);
  }

  lemma PingsStay(a: Socket, b: Socket, c: Socket, due: seq<Node>, now: int)
    requires P.SentInOrder(a, b, due, now) && Extends(b, c, now) && c.sent <= a.sent + TID_SPACE
    ensures a.sent + |due| <= c.sent
    ensures forall i :: 0 <= i < |due| ==>
              Nth(a.sent, i) in c.requests && c.requests[Nth(a.sent, i)] == InflightRequest(due[i].address, now)
  {
    hide Issued, Extends;
    ExtendsGrows(b, c, now);
    forall i | 0 <= i < |due|
      ensures Nth(a.sent, i) in c.requests && c.requests[Nth(a.sent, i)] == InflightRequest(due[i].address, now)
    {
      EarlierIsOlder(a.sent, b.sent, c.sent, i);
      OlderStays(b, c, now, Nth(a.sent, i));
    }
  }

  lemma EarlierIsOlder(a: nat, b: nat, c: nat, i: nat)
    requires a + i < b <= c <= a + TID_SPACE
    ensures !Issued(Nth(a, i), b, c)
  {
    forall k: nat | b <= k < c ensures Wrap(k) != Nth(a, i) {
      NthApart(0, a + i, k);
    }
  }

  lemma OlderStays(a: Socket, b: Socket, now: int, t: Tid)
    requires Extends(a, b, now) && !Issued(t, a.sent, b.sent) && t in a.requests
    ensures t in b.requests && b.requests[t] == a.requests[t]
  {
  }

  // --- the public address ---

  lemma {:induction false} BestFromIsMost(votes: map<Address, nat>, order: seq<Address>, best: Option<Address>, max: nat)
    requires best.None? ==> max == 0
    requires best.Some? ==> best.value in votes && votes[best.value] == max > 0
    ensures var r := BestFrom(votes, order, best, max);
            && (r.None? ==> best.None?)
            && (r.None? ==> forall x :: x in order && x in votes ==> votes[x] == 0)
            && (r.Some? ==> r.value in votes && votes[r.value] >= max && votes[r.value] > 0 &&
                            forall x :: x in order && x in votes ==> votes[x] <= votes[r.value])
    decreases |order|
  {
    if order != [] {
      var won := order[0] in votes && votes[order[0]] > max;
      BestFromIsMost(votes, order[1..], if won then Some(order[0]) else best, if won then votes[order[0]] else max);
      assert order == [order[0]] + order[1..];
    }
  }

  /** When a lookup is finished, an address with the most votes becomes the public address. If it
      was not, the node is taken to be firewalled until the ping it now sends to that address
      comes back. Without votes nothing changes. */
  lemma WinnerIsPublic(s: State, q: Query, order: seq<Address>, now: int)
    requires forall x :: x in q.votes ==> x in order
    ensures var s' := UpdateVotes(s, q, order, now);
            && ((forall x :: x in q.votes ==> q.votes[x] == 0) ==> s' == s)
            && ((exists x :: x in q.votes && q.votes[x] > 0) ==>
                  && s'.publicAddress.Some? && s'.publicAddress.value in q.votes
                  && (forall x :: x in q.votes ==> q.votes[x] <= q.votes[s'.publicAddress.value])
                  && (s.publicAddress == s'.publicAddress ==> s' == s)
                  && (s.publicAddress != s'.publicAddress ==>
                        && s'.firewalled && s'.socket.sent == s.socket.sent + 1
                        && s'.socket.requests == s.socket.requests[Nth(s.socket.sent, 0) := InflightRequest(s'.publicAddress.value, now)]
                        && s' == s.(publicAddress := s'.publicAddress, firewalled := true, socket := s'.socket)))
  {
    hide BestFrom;
    BestFromIsMost(q.votes, order, None, 0);
  }

  // --- requests ---

  /** What a request does besides being answered. The first node of a network adds whoever looks
      for a node; a ping from the own public address opens the firewall, and if the own identifier
      does not fit that address, a fresh one that does takes its place in an empty table, and
      a lookup of it is launched. Every other request changes nothing. */
  lemma RequestEffects(e: Env, s: State, p: Packet, now: int)
    ensures var s', b := HandleRequest(e, s, p, now), p.message.body;
            var table := if e.bootstrap == [] && b.FindNodeRequest? then TableAdd(s.table, Node(b.target, p.from, None, now), now).0 else s.table;
            if !(b.PingRequest? && s.publicAddress == Some(p.from)) then s' == s.(table := table)
            else
              && !s'.firewalled && s'.publicAddress == s.publicAddress && s'.puts == s.puts
              && IsValidForIp(s'.table.id, p.from.ip)
              && (forall id :: id in s.queries ==> id in s'.queries && s'.queries[id] == s.queries[id])
              && (IsValidForIp(s.table.id, p.from.ip) ==> s' == s.(firewalled := false))
              && (!IsValidForIp(s.table.id, p.from.ip) ==>
                    && (forall n :: !Holds(s'.table, n))
                    && s'.queries.Keys == s.queries.Keys + {s'.table.id}
                    && (s'.table.id !in s.queries ==> s'.queries[s'.table.id].request == FindNode(s'.table.id)))
  {
    hide TableAdd, LaunchQuery, IsValidForIp, SecureId, Extends;
    var newId := SecureId(p.randomId, p.from.ip, p.randomByte);
    SecureIdIsValid(p.randomId, p.from.ip, p.randomByte);
    LaunchExtends(e, s.(firewalled := false), FindNode(newId), [], now);
    LookupOnlyAdds(e, s.(firewalled := false), FindNode(newId), [], now);
  }

  // --- the launch of a lookup ---

  /** Where a lookup starts from: its candidates are the closest nodes of the table and then the
      cached nodes of the target, each taken if it may join those before it. It visits the extra
      addresses, its twenty best candidates, and the bootstrap nodes if the table offered
      fewer nodes than there are bootstrap nodes, or none; and nobody else. */
  lemma LaunchStarts(e: Env, s: State, request: GetRequest, extra: seq<Address>, now: int)
    ensures var q := LaunchQuery(e, s, request, extra, now).0;
            var seeds := Seeds(e, s, request.target);
            && StrictlySorted(request.target, q.closest)
            && multiset(q.closest) == multiset(Greedy(seeds + CachedNodes(s.cache, request.target)))
            && (forall x :: x in q.visited <==>
                  || x in extra
                  || (x in e.bootstrap && (seeds == [] || |seeds| < |e.bootstrap|))
                  || AmongBest(q, x))
            && q.request == request && q.responders == [] && q.responses == [] && q.outcome == NO_OUTCOME && q.votes == map[]
  {
    hide Seeds, CachedNodes, AddAll, VisitAll, StrictlySorted, Greedy, GreedyOnto, Extends;
    var seeds := Seeds(e, s, request.target);
    var asked := if seeds == [] || |seeds| < |e.bootstrap| then e.bootstrap else [];
    var (q1, sock) := VisitAll(NewQuery(request, s.socket.sent), s.socket, asked + extra, now);
    VisitAllEffect(NewQuery(request, s.socket.sent), s.socket, asked + extra, now);
    var q2 := AddCandidates(AddCandidates(q1, seeds), CachedNodes(s.cache, request.target));
    AddAllTwice(request.target, [], seeds, CachedNodes(s.cache, request.target));
    AddAllRefinesGreedy(request.target, seeds + CachedNodes(s.cache, request.target));
    VisitAllEffect(q2, sock, ToVisit(q2), now);
    forall x ensures AmongBest(q2, x) <==> exists n :: n in Top(q2) && n.address == x {
      TopMeans(q2, x);
    }
  }

  /** A request for a target that is being looked up, in whatever way, changes nothing; any other
      launches a lookup under its target and makes what is cached there the entry used last. */
  lemma OneLookupPerTarget(e: Env, s: State, request: GetRequest, extra: seq<Address>, now: int)
    ensures var s' := StartLookup(e, s, request, extra, now);
            && (request.target in s.queries ==> s' == s)
            && (request.target !in s.queries ==>
                  && s'.queries == s.queries[request.target := s'.queries[request.target]]
                  && s'.queries[request.target].request == request && s'.queries[request.target].born == s.socket.sent
                  && s'.cache == s.cache.(entries := Lru.Promote(s.cache.entries, request.target))
                  && s' == s.(queries := s'.queries, cache := s'.cache, socket := s'.socket))
  {
    hide LaunchQuery, Lru.Promote, Extends;
    LaunchExtends(e, s, request, extra, now);
  }

  /** The nodes a lookup takes from the table: all its nodes, sorted and cut for the expected distance
      and the average number of subnets, both from the sums over the cached lookups and the
      million nodes and twenty subnets of a cold start. */
  lemma SeedsAre(e: Env, s: State, target: Id)
    requires EngineInv(s)
    ensures var c := s.cache;
            && c.respondersSum == 1000000.0 + Sum(c.entries).responders
            && Seeds(e, s, target) ==
               TakeUntilSecure(target, AddAll(target, [], AllNodes(s.table)), e.expectedDk(c.respondersSum, c.respondersCount),
                               (20 + Sum(c.entries).subnets) / (if c.entries == [] then 1 else |c.entries|))
  {
    hide TakeUntilSecure, AddAll, AllNodes, TableInv, Sum, AverageSubnets, QueriesInv, CacheInv;
    SumsOf(s.cache);
  }

  lemma SumsOf(c: Cache)
    requires CacheInv(c)
    ensures c.respondersSum == 1000000.0 + Sum(c.entries).responders
    ensures AverageSubnets(c) == (20 + Sum(c.entries).subnets) / (if c.entries == [] then 1 else |c.entries|)
  {
    hide Sum, AverageSubnets, EntryShape, Balanced;
    var finds: nat :| Balanced(c, finds);
    AverageIs(c, finds);
    ResponderSum(c, finds);
  }

  lemma ResponderSum(c: Cache, finds: nat)
    requires Balanced(c, finds)
    ensures c.respondersSum == 1000000.0 + Sum(c.entries).responders
  {
    hide Sum, Lru.DistinctKeys;
  }

  lemma {:induction false} AddAllTwice(target: Id, s: seq<Node>, xs: seq<Node>, ys: seq<Node>)
    ensures AddAll(target, AddAll(target, s, xs), ys) == AddAll(target, s, xs + ys)
    decreases |xs|
  {
    hide Insert;
    if xs == [] {
      assert xs + ys == ys;
    } else {
      AddAllTwice(target, Insert(target, s, xs[0]), xs[1..], ys);
      assert (xs + ys)[1..] == xs[1..] + ys;
    }
  }
}
