/**
  What `tick` reports: every query that leaves the engine is in the report of that same
  tick, once, and nothing else is (src/rpc.rs).
 */
module RpcReports {
  import opened Ids
  import opened Bep42
  import opened Nodes
  import opened RoutingTable
  import opened Sockets
  import opened IterativeQueries
  import opened Rpc

  predicate DistinctDones(dones: seq<Done>) {
    forall i, j :: 0 <= i < j < |dones| ==> dones[i].id != dones[j].id
  }

  predicate DistinctResults(results: seq<(Id, PutResult)>) {
    forall i, j :: 0 <= i < j < |results| ==> results[i].0 != results[j].0
  }

  // --- polling ---

  /** The outcome of polling one put, when it is over. */
  ghost predicate PollsTo(p: P.Put, sock: Socket, now: int, r: PutResult) {
    match P.PollCompletion(p, sock, now)
    case Pending => false
    case Stored(outcome) => r == PutOk(outcome)
    case Failed(error) => r == PutErr(error)
  }

  lemma {:induction false} TickPutsReports(puts: map<Id, P.Put>, sock: Socket, order: seq<Id>, now: int)
    requires NoDuplicates(order)
    ensures var rs := TickPuts(puts, sock, order, now);
            && DistinctResults(rs)
            && (forall r :: r in rs ==> r.0 in order && r.0 in puts && PollsTo(puts[r.0], sock, now, r.1))
            && (forall id :: id in order && id in puts && id !in PutIds(rs) ==>
                  P.PollCompletion(puts[id], sock, now) == P.Pending)
  {
    hide P.PollCompletion;
    if order != [] {
      var rest := TickPuts(puts, sock, order[1..], now);
      var rs := TickPuts(puts, sock, order, now);
      TickPutsReports(puts, sock, order[1..], now);
      assert order == [order[0]] + order[1..];
      assert order[0] !in order[1..];
      assert rs == rest || (rs[0].0 == order[0] && rs[1..] == rest);
      assert PutIds(rs) == (if rs == rest then {} else {order[0]}) + PutIds(rest) by {
        if rs != rest { assert rs == [rs[0]] + rest; }
      }
    }
  }

  lemma {:induction false} TickGetsReports(queries: map<Id, Query>, sock: Socket, order: seq<Id>, edk: nat, subnets: nat, now: int)
    requires NoDuplicates(order)
    ensures var (qs, _, dones) := TickGets(queries, sock, order, edk, subnets, now);
            && qs.Keys == queries.Keys
            && (forall id :: id in queries ==> qs[id].request == queries[id].request)
            && DistinctDones(dones)
            && (forall d :: d in dones ==> d.id in order && d.id in queries)
    decreases |order|
  {
    hide TickQuery, MakeDone;
    if order != [] {
      assert order == [order[0]] + order[1..];
      assert order[0] !in order[1..];
      if order[0] !in queries {
        TickGetsReports(queries, sock, order[1..], edk, subnets, now);
      } else {
        var (q, sock1, done) := TickQuery(queries[order[0]], sock, now);
        TickKeepsRequest(queries[order[0]], sock, now);
        TickGetsReports(queries[order[0] := q], sock1, order[1..], edk, subnets, now);
        MakeDoneId(order[0], q, edk, subnets);
      }
    }
  }

  lemma MakeDoneId(id: Id, q: Query, edk: nat, subnets: nat)
    ensures MakeDone(id, q, edk, subnets).id == id
  {
  }

  lemma TickKeepsRequest(q: Query, sock: Socket, now: int)
    ensures TickQuery(q, sock, now).0.request == q.request
  {
    VisitClosestEffect(q, sock, now);
  }

  // --- finishing ---

  lemma FinishOneReports(e: Env, s: State, done: Done, voteOrder: VoteOrders, now: int)
    ensures var (s', failed) := FinishOne(e, s, done, voteOrder, now);
            && s'.queries == s.queries - {done.id}
            && s'.puts.Keys == s.puts.Keys
            && (forall id :: id in s.puts && (id != done.id || P.Started(s.puts[id])) ==> s'.puts[id] == s.puts[id])
            && (failed == [] || (failed == [(done.id, PutErr(P.Query(P.NoClosestNodes)))] &&
                                 done.id in s.puts && !P.Started(s.puts[done.id]) && done.id in s.queries))
  {
    hide BestAddress, QueryCache.CacheQuery, CacheEntry, P.SendAll;
  }

  lemma DoneIdsCons(dones: seq<Done>)
    requires dones != [] && DistinctDones(dones)
    ensures DoneIds(dones) == {dones[0].id} + DoneIds(dones[1..])
    ensures dones[0].id !in DoneIds(dones[1..])
  {
    assert dones == [dones[0]] + dones[1..];
    forall d | d in dones[1..] ensures d.id != dones[0].id {
      var i :| 0 <= i < |dones[1..]| && dones[1..][i] == d;
      assert dones[i + 1] == d;
    }
  }

  /** A put that waited for one of the finished lookups and found no node to store at. */
  predicate FailedFor(s: State, dones: seq<Done>, r: (Id, PutResult)) {
    && r.0 in DoneIds(dones) && r.0 in s.puts && !P.Started(s.puts[r.0])
    && r.1 == PutErr(P.Query(P.NoClosestNodes))
  }

  lemma {:induction false} FinishAllReports(e: Env, s: State, dones: seq<Done>, voteOrder: VoteOrders, now: int)
    requires DistinctDones(dones)
    ensures var (s', failed) := FinishAll(e, s, dones, voteOrder, now);
            && s'.queries == s.queries - DoneIds(dones)
            && s'.puts.Keys == s.puts.Keys
            && (forall id :: id in s.puts && (id !in DoneIds(dones) || P.Started(s.puts[id])) ==> s'.puts[id] == s.puts[id])
            && DistinctResults(failed)
            && (forall r :: r in failed ==> FailedFor(s, dones, r))
    decreases |dones|
  {
    hide FinishOne, DoneIds;
    assert dones == [] ==> DoneIds(dones) == {} by { EmptyDoneIds(); }
    if dones != [] {
      var (s1, failed) := FinishOne(e, s, dones[0], voteOrder, now);
      FinishOneReports(e, s, dones[0], voteOrder, now);
      DoneIdsCons(dones);
      FinishAllReports(e, s1, dones[1..], voteOrder, now);
      assert forall r :: r in FinishAll(e, s1, dones[1..], voteOrder, now).1 ==> r.0 != dones[0].id;
    }
  }

  lemma EmptyDoneIds()
    ensures DoneIds([]) == {}
  {
  }

  /** After polling and cleanup exactly the reported queries are gone, and no id is
      reported twice. */
  lemma SettleReports(e: Env, s: State, i: TickInput)
    requires ValidInput(s, i)
    ensures var (s', dones, results) := Settle(e, s, i);
            && DistinctDones(dones) && DoneIds(dones) <= s.queries.Keys
            && DistinctResults(results) && PutIds(results) <= s.puts.Keys
            && s'.queries.Keys == s.queries.Keys - DoneIds(dones)
            && s'.puts.Keys == s.puts.Keys - PutIds(results)
  {
    hide TickPuts, TickGets, FinishAll, NoDuplicates, ExpectedDk, QueryCache.AverageSubnets, PollsTo;
    var polled := TickPuts(s.puts, s.socket, i.putOrder, i.now);
    var edk, subnets := ExpectedDk(e, s.cache), QueryCache.AverageSubnets(s.cache);
    var (queries, sock, dones) := TickGets(s.queries, s.socket, i.getOrder, edk, subnets, i.now);
    var s0 := s.(queries := queries, socket := sock);
    var (s1, failed) := FinishAll(e, s0, dones, i.voteOrder, i.now);
    TickPutsReports(s.puts, s.socket, i.putOrder, i.now);
    TickGetsReports(s.queries, s.socket, i.getOrder, edk, subnets, i.now);
    FinishAllReports(e, s0, dones, i.voteOrder, i.now);
    var results := polled + failed;
    forall r, f | r in polled && f in failed ensures r.0 != f.0 {
      PollsToStarted(s.puts[r.0], s.socket, i.now, r.1);
    }
    assert DistinctResults(results) by {
      forall a, b | 0 <= a < b < |results| ensures results[a].0 != results[b].0 {
        if a < |polled| && b >= |polled| {
          assert results[a] in polled && results[b] in failed;
        }
      }
    }
    assert forall r :: r in results ==> r.0 in s.puts;
    assert forall d :: d in dones ==> d.id in s.queries;
  }

  lemma PollsToStarted(p: P.Put, sock: Socket, now: int, r: PutResult)
    requires PollsTo(p, sock, now, r)
    ensures P.Started(p)
  {
  }

  // --- what the rest of a tick leaves alone ---

  /** Lookups may be added; nothing is taken away and no put is touched. */
  predicate OnlyAdds(s: State, s': State) {
    s.queries.Keys <= s'.queries.Keys && s'.puts.Keys == s.puts.Keys
  }

  lemma LookupOnlyAdds(e: Env, s: State, request: GetRequest, extra: seq<Address>, now: int)
    ensures var s' := StartLookup(e, s, request, extra, now);
            && s'.queries.Keys == s.queries.Keys + {request.target}
            && (forall id :: id in s.queries ==> s'.queries[id] == s.queries[id])
            && s'.puts == s.puts && s'.table == s.table
            && s'.publicAddress == s.publicAddress && s'.firewalled == s.firewalled
            && s'.lastPing == s.lastPing && s'.lastRefresh == s.lastRefresh
  {
    hide LaunchQuery;
  }

  lemma MaintainOnlyAdds(e: Env, s: State, now: int)
    ensures OnlyAdds(s, Maintain(e, s, now)) && Maintain(e, s, now).puts == s.puts
    ensures forall id :: id in s.queries ==> Maintain(e, s, now).queries[id] == s.queries[id]
  {
    hide StartLookup, RemoveAll, PingAll, AllNodes;
    var s1 := if now - s.lastRefresh >= REFRESH_TABLE_INTERVAL then TryServerMode(s) else s;
    var s2 := if now - s.lastPing >= PING_TABLE_INTERVAL then PingAndPurge(s1, now) else s1;
    LookupOnlyAdds(e, s2.(lastRefresh := now), FindNode(s2.table.id), [], now);
  }

  lemma HandleMessageOnlyAdds(e: Env, s: State, packet: Option<Packet>, now: int)
    ensures OnlyAdds(s, HandleMessage(e, s, packet, now).0)
    ensures forall r :: HandleMessage(e, s, packet, now).1 == Some(r) && (forall id :: id in s.queries ==> s.queries[id].request.target == id) ==> r.0 in s.queries
  {
    hide StartLookup, TableAdd, AnswerQuery, AnswerPut, SecureId, IsValidForIp, DeliveredValue, Sockets.Receive, Tidy;
    if packet.Some? {
      var p := packet.value;
      var (sock, delivered) := Receive(s.socket, Datagram(IsRequest(p.message.body), p.message.tid, p.from), now);
      var s1 := s.(socket := sock);
      if delivered && IsRequest(p.message.body) {
        RequestOnlyAdds(e, s1, p, now);
      }
    }
  }

  lemma RequestOnlyAdds(e: Env, s: State, p: Packet, now: int)
    ensures OnlyAdds(s, HandleRequest(e, s, p, now)) && HandleRequest(e, s, p, now).puts == s.puts
    ensures forall id :: id in s.queries ==> HandleRequest(e, s, p, now).queries[id] == s.queries[id]
  {
    hide StartLookup, TableAdd, SecureId, IsValidForIp;
    var s1 := if e.bootstrap == [] && p.message.body.FindNodeRequest?
              then s.(table := TableAdd(s.table, Node(p.message.body.target, p.from, None, now), now).0)
              else s;
    var newId := SecureId(p.randomId, p.from.ip, p.randomByte);
    LookupOnlyAdds(e, s1.(firewalled := false), FindNode(newId), [], now);
  }

  // --- the assertion of `PutQuery::start` ---

  lemma {:induction false} FinishAllSurvivesExactly(e: Env, s: State, dones: seq<Done>, voteOrder: VoteOrders, now: int)
    requires DistinctDones(dones)
    ensures FinishAllSurvives(e, s, dones, voteOrder, now) <==> forall d :: d in dones ==> FinishFits(s, d)
    decreases |dones|
  {
    hide FinishOne, P.Started;
    if dones != [] {
      var s1 := FinishOne(e, s, dones[0], voteOrder, now).0;
      FinishOneReports(e, s, dones[0], voteOrder, now);
      FinishAllSurvivesExactly(e, s1, dones[1..], voteOrder, now);
      assert dones == [dones[0]] + dones[1..];
      forall d | d in dones[1..] ensures FinishFits(s1, d) <==> FinishFits(s, d) {
        var j :| 0 <= j < |dones[1..]| && dones[1..][j] == d;
        assert dones[j + 1] == d && d.id != dones[0].id;
      }
    }
  }

  /** A tick meets the assertion of `start` at each of its calls if and only if every lookup it
      reports to a waiting put found at most 255 nodes. */
  lemma TickSurvivesExactly(e: Env, s: State, i: TickInput)
    requires ValidInput(s, i)
    ensures TickSurvives(e, s, i) <==> TickFits(e, s, i)
  {
    hide TallyFits, TickPuts, TickGets, FinishAll, FinishAllSurvives, Maintain, HandleMessage, NoDuplicates, ExpectedDk, QueryCache.AverageSubnets;
    var edk, subnets := ExpectedDk(e, s.cache), QueryCache.AverageSubnets(s.cache);
    var (queries, sock, dones) := TickGets(s.queries, s.socket, i.getOrder, edk, subnets, i.now);
    TickGetsReports(s.queries, s.socket, i.getOrder, edk, subnets, i.now);
    var s0 := s.(queries := queries, socket := sock);
    FinishAllSurvivesExactly(e, s0, dones, i.voteOrder, i.now);
    forall d | d in dones ensures FinishFits(s0, d) <==> FinishFits(s, d) {
    }
  }

  /** Every put that leaves the engine in a tick is reported by that tick and every lookup
      too; no id appears twice, and only live queries are reported. */
  lemma TickReports(e: Env, s: State, i: TickInput)
    requires ValidInput(s, i)
    ensures var (s', report) := Tick(e, s, i);
            && DistinctDones(report.gets) && DoneIds(report.gets) <= s.queries.Keys
            && DistinctResults(report.puts) && PutIds(report.puts) <= s.puts.Keys
            && s.queries.Keys - DoneIds(report.gets) <= s'.queries.Keys
            && s'.puts.Keys == s.puts.Keys - PutIds(report.puts)
  {
    hide Settle, Maintain, HandleMessage, ValidInput;
    var (s1, dones, results) := Settle(e, s, i);
    SettleReports(e, s, i);
    MaintainOnlyAdds(e, s1, i.now);
    HandleMessageOnlyAdds(e, Maintain(e, s1, i.now), i.packet, i.now);
  }
}
