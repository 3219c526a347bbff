/**
  The engine as the object the source has: a socket, a routing table and a cache, with the
  maps of live lookups and stores, changed in place by `get`, `put` and the parts of `tick`.
  Each method and loop is proved to compute the transition the other modules reason about.
  Lookups and stores are values in the maps, which own them.
 */
module RpcObject {
  import opened Ids
  import opened Bep42
  import opened Nodes
  import opened ClosestNodes
  import opened Sockets
  import opened IterativeQueries
  import opened Lru
  import opened QueryCache
  import opened Rpc
  import opened RoutingTable

  class Engine {
    const env: Env
    var table: RoutingTable
    var lastRefresh: int
    var lastPing: int
    const cache: LookupCache
    var queries: map<Id, Query>
    var puts: map<Id, P.Put>
    const socket: KrpcSocket
    var publicAddress: Option<Address>
    var firewalled: bool

    ghost predicate Valid()
      reads this, table, cache, socket
    {
      table.Valid() && cache.Valid() && socket.Valid()
    }

    ghost function Now(): State
      reads this, table, cache, socket, socket.inflight
    {
      State(table.State(), lastRefresh, lastPing, cache.State(), queries, puts, socket.State(), publicAddress, firewalled)
    }

    constructor (env: Env, id: Id, timeout: nat, serverMode: bool, now: int)
      ensures this.env == env && Valid() && Now() == NewState(id, timeout, serverMode, now)
      ensures fresh(table) && fresh(cache) && fresh(socket) && fresh(socket.inflight)
    {
      hide TableInv, Balanced;
      this.env := env;
      table := new RoutingTable(id);
      cache := new LookupCache();
      socket := new KrpcSocket(timeout, serverMode, now);
      lastRefresh, lastPing, queries, puts := now, now, map[], map[];
      publicAddress, firewalled := None, true;
    }

    // --- sending ---

    /** Visit the given addresses in turn on behalf of a lookup. */
    method VisitEach(query: Query, addresses: seq<Address>, now: int) returns (q: Query)
      requires socket.Valid()
      modifies socket`nextTid, socket`sent, socket.inflight
      ensures socket.Valid()
      ensures (q, socket.State()) == VisitAll(query, old(socket.State()), addresses, now)
    {
      q := query;
      assert addresses[0..] == addresses;
      for i := 0 to |addresses|
        invariant socket.Valid()
        invariant VisitAll(query, old(socket.State()), addresses, now) == VisitAll(q, socket.State(), addresses[i..], now)
      {
        assert addresses[i..][1..] == addresses[i + 1..];
        var tid := socket.SendRequest(addresses[i], now);
        var ping := socket.SendRequest(addresses[i], now);
        q := q.(inflight := q.inflight + [tid, ping], primary := q.primary + [tid], visited := q.visited + {addresses[i]});
      }
    }

    /** Feed nodes to a lookup one by one. */
    method AddEach(query: Query, nodes: seq<Node>) returns (q: Query)
      ensures q == AddCandidates(query, nodes)
    {
      hide Insert;
      q := query;
      assert nodes[0..] == nodes;
      for i := 0 to |nodes|
        invariant q == query.(closest := q.closest)
        invariant AddAll(query.request.target, query.closest, nodes) == AddAll(query.request.target, q.closest, nodes[i..])
      {
        assert nodes[i..][1..] == nodes[i + 1..];
        q := q.(closest := Insert(q.request.target, q.closest, nodes[i]));
      }
    }

    /** `PutQuery::start`, whose two assertions are its preconditions. */
    method StartPut(query: P.Put, closest: seq<Node>, now: int) returns (put: P.Put, error: Option<P.PutError>)
      requires socket.Valid() && !P.Started(query) && |closest| <= P.MAX_CLOSEST
      modifies socket`nextTid, socket`sent, socket.inflight
      ensures socket.Valid()
      ensures (put, socket.State(), error) == P.Start(query, old(socket.State()), closest, now)
    {
      if closest == [] {
        return query, Some(P.Query(P.NoClosestNodes));
      }
      var nodes := closest + query.extra;
      put := query;
      assert nodes[0..] == nodes;
      for i := 0 to |nodes|
        invariant socket.Valid()
        invariant P.SendAll(query, old(socket.State()), nodes, now) == P.SendAll(put, socket.State(), nodes[i..], now)
      {
        assert nodes[i..][1..] == nodes[i + 1..];
        if nodes[i].token.Some? {
          var tid := socket.SendRequest(nodes[i].address, now);
          put := put.(inflight := put.inflight + [tid]);
        }
      }
      return put, None;
    }

    /** Whether any of the ids is in flight. */
    method AnyInflight(tids: seq<Tid>, now: int) returns (live: bool)
      ensures live <==> exists tid :: tid in tids && Inflight(socket.State(), tid, now)
    {
      live := false;
      for i := 0 to |tids|
        modifies {}
        invariant live <==> exists j :: 0 <= j < i && Inflight(socket.State(), tids[j], now)
      {
        var found := socket.inflight.Contains(tids[i], now);
        live := live || found;
      }
    }

    // --- get and put ---

    /** `Rpc::get`. */
    method Get(request: GetRequest, extra: seq<Address>, now: int) returns (seen: Option<seq<Response>>)
      requires Valid()
      modifies this`queries, cache`entries, socket`nextTid, socket`sent, socket.inflight
      ensures Valid()
      ensures Now() == StartLookup(env, old(Now()), request, extra, now)
      ensures seen == if request.target in old(queries) then Some(old(queries)[request.target].responses) else None
    {
      hide VisitAll, AddCandidates, ClosestSecure, Promote, Peek, TableInv, Balanced;
      var target := request.target;
      if target in queries {
        return Some(queries[target].responses);
      }
      var query := NewQuery(request, socket.sent);
      var subnets := cache.Subnets();
      var closest := table.ClosestSecureTo(target, env.expectedDk(cache.respondersSum, cache.respondersCount), subnets);
      var asked := if closest == [] || |closest| < |env.bootstrap| then env.bootstrap else [];
      query := VisitEach(query, asked + extra, now);
      query := AddEach(query, closest);
      var cached := cache.Lookup(target);
      query := AddEach(query, if cached.Some? then cached.value.nodes else []);
      query := VisitEach(query, ToVisit(query), now);
      queries := queries[target := query];
      return None;
    }

    /** `Rpc::put`. */
    method Put(request: P.PutRequest, extra: seq<Node>, now: int) returns (error: Option<P.PutError>)
      requires Valid() && PutFits(Now(), request, now)
      modifies this`queries, this`puts, cache`entries, socket`nextTid, socket`sent, socket.inflight
      ensures Valid()
      ensures (Now(), error) == SubmitPut(env, old(Now()), request, extra, now)
    {
      hide StartLookup, P.Start, Promote, Peek, TableInv, Balanced;
      var target := request.target;
      if request.PutMutable? && target in puts && puts[target].request.PutMutable? {
        var inflight := puts[target].request;
        if request.sig == inflight.sig {
          return None;
        } else if request.seqNo < inflight.seqNo {
          return Some(P.Concurrency(P.NotMostRecent));
        } else if request.cas.Some? {
          if request.cas.value != inflight.seqNo {
            return Some(P.Concurrency(P.CasFailed));
          }
        } else {
          return Some(P.Concurrency(P.ConflictRisk));
        }
      }
      var query := P.NewPut(request, extra, socket.sent);
      var cached := cache.Lookup(target);
      var nodes := if cached.Some? then cached.value.nodes else [];
      if exists n :: n in nodes && ValidToken(n, now) {
        query, error := StartPut(query, nodes, now);
      } else {
        var salt := if request.PutMutable? then request.salt else None;
        var _ := Get(GetValue(target, None, salt), [], now);
      }
      puts := puts[target := query];
      return None;
    }

    // --- tick: polling ---

    /** `poll_completion`. */
    method Poll(put: P.Put, now: int) returns (r: P.Poll)
      ensures r == P.PollCompletion(put, socket.State(), now)
    {
      hide P.MajorityRejected, P.MostCommonError;
      if !P.Started(put) {
        return P.Pending;
      }
      var rejected := P.MajorityRejected(put);
      if rejected.Some? {
        return P.Failed(P.Concurrency(rejected.value));
      }
      var live := AnyInflight(put.inflight, now);
      if live {
        return P.Pending;
      }
      if put.storedAt > 0 {
        return P.Stored(P.PutOutcome(put.target, put.storedAt));
      }
      var common := P.MostCommonError(put);
      return if common.Some? then P.Failed(P.Concurrency(common.value.1)) else P.Failed(P.Query(P.Timeout));
    }

    /** `tick_put_queries`. */
    method TickPutQueries(order: seq<Id>, now: int) returns (done: seq<(Id, PutResult)>)
      ensures done == TickPuts(puts, socket.State(), order, now)
    {
      hide P.PollCompletion, TickPuts, ResultOf;
      ghost var s := socket.State();
      done := [];
      assert order[0..] == order;
      for i := 0 to |order|
        modifies {}
        invariant socket.State() == s
        invariant TickPuts(puts, s, order, now) == done + TickPuts(puts, s, order[i..], now)
      {
        assert order[i..][1..] == order[i + 1..];
        PollFirst(puts, s, order[i..], now);
        if order[i] in puts {
          var poll := Poll(puts[order[i]], now);
          done := done + ResultOf(order[i], poll);
        }
      }
      NothingPolled(puts, s, now);
    }

    /** `IterativeQuery::tick`. */
    method TickLookup(query: Query, now: int) returns (q: Query, done: bool)
      requires socket.Valid()
      modifies socket`nextTid, socket`sent, socket.inflight
      ensures socket.Valid()
      ensures (q, socket.State(), done) == TickQuery(query, old(socket.State()), now)
    {
      hide VisitAll;
      q := VisitEach(query, ToVisit(query), now);
      var live := AnyInflight(q.inflight, now);
      done := !live;
    }

    /** `tick_get_queries`. */
    method TickGetQueries(order: seq<Id>, now: int) returns (done: seq<Done>)
      requires socket.Valid()
      modifies this`queries, socket`nextTid, socket`sent, socket.inflight
      ensures socket.Valid()
      ensures (queries, socket.State(), done) ==
              TickGets(old(queries), old(socket.State()), order, ExpectedDk(env, old(cache.State())), AverageSubnets(old(cache.State())), now)
    {
      hide TickQuery, MakeDone;
      var subnets := cache.Subnets();
      var edk := env.expectedDk(cache.respondersSum, cache.respondersCount);
      ghost var all := TickGets(queries, socket.State(), order, edk, subnets, now);
      done := [];
      assert order[0..] == order;
      for i := 0 to |order|
        invariant socket.Valid()
        invariant var rest := TickGets(queries, socket.State(), order[i..], edk, subnets, now);
                  all.0 == rest.0 && all.1 == rest.1 && all.2 == done + rest.2
      {
        assert order[i..][1..] == order[i + 1..];
        if order[i] in queries {
          var q, finished := TickLookup(queries[order[i]], now);
          queries := queries[order[i] := q];
          if finished {
            done := done + [MakeDone(order[i], q, edk, subnets)];
          }
        }
      }
      assert done + [] == done;
    }

    // --- tick: finished lookups ---

    /** `update_address_votes_from_iterative_query`. */
    method UpdateAddressVotes(query: Query, voteOrder: seq<Address>, now: int)
      requires socket.Valid()
      modifies this`publicAddress, this`firewalled, socket`nextTid, socket`sent, socket.inflight
      ensures socket.Valid()
      ensures Now() == UpdateVotes(old(Now()), query, voteOrder, now)
    {
      hide BestAddress;
      var best := BestAddress(query.votes, voteOrder);
      if best.None? {
        return;
      }
      if publicAddress != best {
        firewalled := true;
        var _ := socket.SendRequest(best.value, now);
      }
      publicAddress := best;
    }

    /** One finished lookup of `cleanup_done_queries`. */
    method FinishQuery(done: Done, voteOrder: VoteOrders, now: int) returns (failed: seq<(Id, PutResult)>)
      requires Valid() && FinishFits(Now(), done)
      modifies this`queries, this`puts, this`publicAddress, this`firewalled, cache, socket`nextTid, socket`sent, socket.inflight
      ensures Valid()
      ensures (Now(), failed) == FinishOne(env, old(Now()), done, voteOrder, now)
    {
      hide UpdateVotes, CacheQuery, P.Start, TableInv, Balanced, BestAddress, P.Started;
      if done.id !in queries {
        return [];
      }
      var query := queries[done.id];
      queries := queries - {done.id};
      UpdateAddressVotes(query, OrderFor(voteOrder, done.id), now);
      VotesKeepPuts(old(Now()).(queries := queries), query, OrderFor(voteOrder, done.id), now);
      cache.CacheFinished(query.request.target, query.closest, CacheEntry(env, query, done.closest));
      if query.request.FindNode? || done.id !in puts || P.Started(puts[done.id]) {
        return [];
      }
      var put, error := StartPut(puts[done.id], done.closest, now);
      puts := puts[done.id := put];
      return if error.Some? then [(done.id, PutErr(error.value))] else [];
    }

    /** `cleanup_done_queries`. */
    method CleanupDoneQueries(doneGets: seq<Done>, donePuts: seq<(Id, PutResult)>, voteOrder: VoteOrders, now: int)
      returns (results: seq<(Id, PutResult)>)
      requires Valid() && FinishAllSurvives(env, Now(), doneGets, voteOrder, now)
      modifies this`queries, this`puts, this`publicAddress, this`firewalled, cache, socket`nextTid, socket`sent, socket.inflight
      ensures Valid()
      ensures var (s, failed) := FinishAll(env, old(Now()), doneGets, voteOrder, now);
              results == donePuts + failed && Now() == s.(puts := s.puts - PutIds(results))
    {
      hide FinishOne, PutIds, FinishFits, TableInv, Balanced;
      ghost var all := FinishAll(env, Now(), doneGets, voteOrder, now);
      results := donePuts;
      assert doneGets[0..] == doneGets;
      for i := 0 to |doneGets|
        invariant Valid() && FinishAllSurvives(env, Now(), doneGets[i..], voteOrder, now)
        invariant var rest := FinishAll(env, Now(), doneGets[i..], voteOrder, now);
                  all.0 == rest.0 && donePuts + all.1 == results + rest.1
      {
        assert doneGets[i..][1..] == doneGets[i + 1..];
        var failed := FinishQuery(doneGets[i], voteOrder, now);
        results := results + failed;
      }
      puts := puts - PutIds(results);
    }

    // --- tick: maintenance ---

    /** `purge_nodes` and `ping_nodes` over the nodes of the table at the start. */
    method PingAndPurgeNodes(now: int)
      requires Valid()
      modifies this`lastPing, table, socket`nextTid, socket`sent, socket.inflight
      ensures Valid()
      ensures Now() == PingAndPurge(old(Now()), now)
    {
      hide TableRemove, Request, AllNodes, TableInv, Balanced;
      lastPing := now;
      var nodes := table.Nodes();
      assert nodes[0..] == nodes;
      for i := 0 to |nodes|
        invariant Valid()
        invariant RemoveAll(old(table.State()), nodes, now) == RemoveAll(table.State(), nodes[i..], now)
        invariant Now() == old(Now()).(lastPing := now, table := table.State())
      {
        assert nodes[i..][1..] == nodes[i + 1..];
        if IsStale(nodes[i], now) {
          table.Remove(nodes[i].id);
        }
      }
      for i := 0 to |nodes|
        invariant Valid()
        invariant PingAll(old(socket.State()), nodes, now) == PingAll(socket.State(), nodes[i..], now)
        invariant Now() == old(Now()).(lastPing := now, table := RemoveAll(old(table.State()), nodes, now), socket := socket.State())
      {
        assert nodes[i..][1..] == nodes[i + 1..];
        if !IsStale(nodes[i], now) && ShouldPing(nodes[i], now) {
          var _ := socket.SendRequest(nodes[i].address, now);
        }
      }
    }

    /** `periodic_node_maintenance`. */
    method PeriodicNodeMaintenance(now: int)
      requires Valid()
      modifies this`lastPing, this`lastRefresh, this`queries, table, cache`entries,
               socket`nextTid, socket`sent, socket`serverMode, socket.inflight
      ensures Valid()
      ensures Now() == Maintain(env, old(Now()), now)
    {
      hide StartLookup, RemoveAll, PingAll, AllNodes, TableInv, Balanced;
      var refreshIsDue := now - lastRefresh >= REFRESH_TABLE_INTERVAL;
      var pingIsDue := now - lastPing >= PING_TABLE_INTERVAL;
      var empty := table.IsEmpty();
      if refreshIsDue {
        if !socket.serverMode && !firewalled {
          socket.serverMode := true;
        }
      }
      if pingIsDue {
        PingAndPurgeNodes(now);
      }
      if empty || refreshIsDue {
        lastRefresh := now;
        if env.bootstrap != [] {
          var _ := Get(FindNode(table.id), [], now);
        }
      }
    }

    // --- tick: one message ---

    /** `handle_request`, but for what the storage server answers. A new identifier brings a
        new routing table. */
    method AnswerRequest(p: Packet, now: int)
      requires Valid()
      modifies this`table, this`firewalled, this`queries, table, cache`entries, socket`nextTid, socket`sent, socket.inflight
      ensures Valid() && (table == old(table) || fresh(table))
      ensures Now() == HandleRequest(env, old(Now()), p, now)
    {
      hide StartLookup, TableAdd, SecureId, IsValidForIp, TableInv, Balanced;
      if env.bootstrap == [] && p.message.body.FindNodeRequest? {
        var _ := table.Add(Node(p.message.body.target, p.from, None, now), now);
      }
      if publicAddress == Some(p.from) && p.message.body.PingRequest? {
        firewalled := false;
        if !IsValidForIp(table.id, p.from.ip) {
          var newId := FromIpv4AndR(p.randomId, p.from.ip, p.randomByte);
          var _ := Get(FindNode(newId), [], now);
          table := new RoutingTable(newId);
        }
      }
    }

    /** `handle_response`. */
    method AnswerResponse(p: Packet, now: int) returns (response: Option<(Id, Response)>)
      requires Valid() && (env.overflowChecks ==> !AnswerOverflows(Now(), p))
      modifies this`queries, this`puts, table
      ensures Valid()
      ensures (Now(), response) == HandleResponse(env, old(Now()), p, now)
    {
      hide AnswerQuery, AnswerPut, DeliveredValue, TableAdd, BumpInvalidResponse, TableInv, Balanced;
      var m := p.message;
      if m.readOnly {
        var found := FindQuery(queries, p.getOrder, m.tid, true);
        if found.Some? {
          var q := queries[found.value];
          queries := queries[found.value := q.(outcome := BumpInvalidResponse(q.outcome))];
        }
        return None;
      }
      var put := FindPut(puts, p.putOrder, m.tid);
      if put.Some? {
        puts := puts[put.value := AnswerPut(puts[put.value], m.body)];
        return None;
      }
      var found := FindQuery(queries, p.getOrder, m.tid, false);
      if found.None? {
        return None;
      }
      var q := queries[found.value];
      queries := queries[found.value := AnswerQuery(env, q, p.from, m, now)];
      var value := DeliveredValue(env, q, m.body);
      if value.Some? {
        return Some((q.request.target, value.value));
      }
      var author := AuthorId(m.body);
      if author.Some? {
        var _ := table.Add(Node(author.value, p.from, None, now), now);
      }
      return None;
    }

    /** `handle_message`. */
    method ReceiveMessage(packet: Option<Packet>, now: int) returns (response: Option<(Id, Response)>)
      requires Valid() && (env.overflowChecks ==> !MessageOverflows(Now(), packet, now))
      modifies this, table, cache`entries, socket, socket.inflight
      ensures Valid() && (table == old(table) || fresh(table))
      ensures (Now(), response) == HandleMessage(env, old(Now()), packet, now)
    {
      hide HandleRequest, HandleResponse, AnswerOverflows, Receive, Tidy, TableInv, Balanced;
      match packet
      case None =>
        socket.Sweep(now);
        return None;
      case Some(p) =>
        var delivered := socket.Recv(Datagram(IsRequest(p.message.body), p.message.tid, p.from), now);
        if !delivered {
          return None;
        }
        if IsRequest(p.message.body) {
          AnswerRequest(p, now);
          return None;
        }
        response := AnswerResponse(p, now);
    }

    /** `tick`. */
    method Advance(i: TickInput) returns (report: Report)
      requires Valid() && TickSurvives(env, Now(), i)
      modifies this, table, cache, socket, socket.inflight
      ensures Valid() && (table == old(table) || fresh(table))
      ensures (Now(), report) == Tick(env, old(Now()), i)
    {
      hide TickPuts, TickGets, FinishAll, FinishAllSurvives, MessageOverflows, Maintain, HandleMessage, PutIds, ExpectedDk, AverageSubnets,
           TableInv, Balanced;
      var donePuts := TickPutQueries(i.putOrder, i.now);
      var doneGets := TickGetQueries(i.getOrder, i.now);
      donePuts := CleanupDoneQueries(doneGets, donePuts, i.voteOrder, i.now);
      PeriodicNodeMaintenance(i.now);
      var response := ReceiveMessage(i.packet, i.now);
      return Report(doneGets, donePuts, response);
    }
  }

  /** What polling one put adds to the report. */
  function ResultOf(id: Id, poll: P.Poll): seq<(Id, PutResult)> {
    match poll
    case Pending => []
    case Stored(outcome) => [(id, PutOk(outcome))]
    case Failed(error) => [(id, PutErr(error))]
  }

  lemma PollFirst(puts: map<Id, P.Put>, s: Socket, order: seq<Id>, now: int)
    requires order != []
    ensures TickPuts(puts, s, order, now) ==
            (if order[0] in puts then ResultOf(order[0], P.PollCompletion(puts[order[0]], s, now)) else []) +
            TickPuts(puts, s, order[1..], now)
  {
    hide P.PollCompletion;
  }

  lemma NothingPolled(puts: map<Id, P.Put>, s: Socket, now: int)
    ensures TickPuts(puts, s, [], now) == []
  {
  }

  lemma VotesKeepPuts(s: State, q: Query, order: seq<Address>, now: int)
    ensures UpdateVotes(s, q, order, now).puts == s.puts
  {
    hide BestAddress;
  }
}
