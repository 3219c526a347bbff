/**
  The books of every live query: answers never exceed requests, the tally of a put stays a
  histogram, and the diagnostics of a mutable GET count each accepted answer exactly once.
 */
module RpcCounts {
  import opened Ids
  import opened Bep42
  import opened Nodes
  import opened RoutingTable
  import opened Sockets
  import opened IterativeQueries
  import opened QueryCache
  import opened Rpc
  import opened RpcReports
  import opened RpcSockets
  import opened RpcLiveness

  /** How many of the ids are still in the table. */
  function Outstanding(tids: seq<Tid>, requests: Requests): nat {
    if tids == [] then 0
    else Outstanding(tids[..|tids| - 1], requests) + (if tids[|tids| - 1] in requests then 1 else 0)
  }

  lemma {:induction false} OutstandingMonotone(tids: seq<Tid>, a: Requests, b: Requests)
    requires forall t :: t in tids && t in b ==> t in a
    ensures Outstanding(tids, b) <= Outstanding(tids, a) <= |tids|
  {
    if tids != [] { OutstandingMonotone(tids[..|tids| - 1], a, b); }
  }

  lemma {:induction false} OutstandingAnswered(tids: seq<Tid>, a: Requests, b: Requests, tid: Tid)
    requires NoDuplicates(tids) && tid in tids && tid in a && tid !in b
    requires forall t :: t in tids && t in b ==> t in a
    ensures Outstanding(tids, b) + 1 <= Outstanding(tids, a)
  {
    var init, last := tids[..|tids| - 1], tids[|tids| - 1];
    if last == tid {
      OutstandingMonotone(init, a, b);
    } else {
      OutstandingAnswered(init, a, b, tid);
    }
  }

  lemma OutstandingSnoc(tids: seq<Tid>, t: Tid, requests: Requests)
    ensures Outstanding(tids + [t], requests) == Outstanding(tids, requests) + (if t in requests then 1 else 0)
  {
    assert (tids + [t])[..|tids|] == tids;
  }

  // --- one lookup, one put ---

  ghost predicate QueryCounts(q: Query, sock: Socket) {
    && q.born <= sock.sent
    && (forall t :: t in q.inflight ==> Issued(t, q.born, sock.sent))
    && (forall t :: t in q.primary ==> t in q.inflight)
    && NoDuplicates(q.primary)
    && Responded(q.outcome) + Outstanding(q.primary, sock.requests) <= |q.primary|
    && |q.visited| <= |q.primary|
    && (forall t :: t in q.inflight && t in sock.requests ==> sock.requests[t].to in q.visited)
  }

  ghost predicate PutCounts(p: P.Put, sock: Socket) {
    && p.born <= sock.sent
    && (forall t :: t in p.inflight ==> Issued(t, p.born, sock.sent))
    && NoDuplicates(p.inflight)
    && p.errors == P.Tally(p.received)
    && p.storedAt + |p.received| + Outstanding(p.inflight, sock.requests) <= |p.inflight|
  }

  /** Answers never outnumber requests; so a tally that overflowed no count is one the majority
      rule was proved for, and 255 requests cannot overflow it. */
  lemma PutCountsTally(p: P.Put, sock: Socket)
    requires PutCounts(p, sock)
    ensures p.errors == P.Tally(p.received) && p.storedAt + |p.received| <= |p.inflight|
    ensures P.FitsBytes(p.received) ==> P.WellTallied(p)
    ensures |p.inflight| <= 255 ==> P.FitsBytes(p.received)
  {
    hide P.Descending, P.DistinctCodes, P.Total, P.Tally, P.FitsBytes, P.CountOf, P.Occurrences, NoDuplicates, Issued;
    if P.FitsBytes(p.received) { P.TallyIsHistogram(p.received, 0); }
    if |p.inflight| <= 255 { P.TallyFitsByte(p.received); }
  }

  /** With no address contacted twice, answers and timeouts add up to the nodes queried; in
      general they do exactly when there were no more answers than addresses. */
  lemma OutcomeAddsUp(q: Query, sock: Socket)
    requires QueryCounts(q, sock)
    ensures var o := FinalOutcome(q);
            && Responded(o) <= |q.primary|
            && (Responded(o) + TimedOut(o) == o.queried <==> Responded(o) <= |q.visited|)
            && (|q.visited| == |q.primary| ==> Responded(o) + TimedOut(o) == o.queried)
  {
    hide NoDuplicates, Issued, Outstanding;
  }

  lemma OldIdsUntouched(tids: seq<Tid>, born: nat, a: Socket, b: Socket, now: int)
    requires Evolves(a, b, now) && born <= a.sent && b.sent <= born + TID_SPACE
    requires forall t :: t in tids ==> Issued(t, born, a.sent)
    ensures forall t :: t in tids ==>
              Issued(t, born, b.sent) && (t in b.requests ==> t in a.requests && b.requests[t] == a.requests[t])
  {
    hide Issued;
    forall t | t in tids
      ensures Issued(t, born, b.sent) && (t in b.requests ==> t in a.requests && b.requests[t] == a.requests[t])
    {
      IssuedSplit(t, born, a.sent, b.sent);
      IssuedDisjoint(t, born, a.sent, b.sent);
    }
  }

  lemma QueryEvolves(q: Query, a: Socket, b: Socket, now: int)
    requires QueryCounts(q, a) && Evolves(a, b, now) && b.sent <= q.born + TID_SPACE
    ensures QueryCounts(q, b)
  {
    hide Issued, Evolves, NoDuplicates;
    EvolvesSent(a, b, now);
    OldIdsUntouched(q.inflight, q.born, a, b, now);
    OutstandingMonotone(q.primary, a.requests, b.requests);
  }

  lemma PutEvolves(p: P.Put, a: Socket, b: Socket, now: int)
    requires PutCounts(p, a) && Evolves(a, b, now) && b.sent <= p.born + TID_SPACE
    ensures PutCounts(p, b)
  {
    hide Issued, Evolves, NoDuplicates, P.Tally;
    EvolvesSent(a, b, now);
    OldIdsUntouched(p.inflight, p.born, a, b, now);
    OutstandingMonotone(p.inflight, a.requests, b.requests);
  }

  lemma VisitSends(q: Query, a: Socket, address: Address, now: int, t: Tid)
    requires t in Visit(q, a, address, now).0.inflight && t in Visit(q, a, address, now).1.requests
    requires t in q.inflight && t in a.requests ==> a.requests[t].to in q.visited
    ensures Visit(q, a, address, now).1.requests[t].to in Visit(q, a, address, now).0.visited
  {
  }

  lemma VisitCounts(q: Query, a: Socket, address: Address, now: int)
    requires QueryCounts(q, a) && a.sent + 2 <= q.born + TID_SPACE
    ensures var (q', b) := Visit(q, a, address, now); QueryCounts(q', b)
  {
    hide Issued, Evolves, Extends, Visited, Outstanding;
    var (q', b) := Visit(q, a, address, now);
    VisitEffect(q, a, address, now);
    ExtendsEvolves(a, b, now);
    QueryEvolves(q, a, b, now);
    forall t | t in q'.inflight ensures Issued(t, q.born, b.sent) {
      VisitedTids(q, a, q', b, t);
      IssuedSplit(t, q.born, a.sent, b.sent);
    }
    forall t | t in q'.inflight && t in b.requests ensures b.requests[t].to in q'.visited {
      VisitSends(q, a, address, now, t);
    }
    IssuedFresh(q.born, a.sent);
    OutstandingSnoc(q.primary, Wrap(a.sent), b.requests);
  }

  lemma {:induction false} VisitAllCounts(q: Query, a: Socket, addresses: seq<Address>, now: int)
    requires QueryCounts(q, a) && VisitAll(q, a, addresses, now).1.sent <= q.born + TID_SPACE
    ensures var (q', b) := VisitAll(q, a, addresses, now); QueryCounts(q', b)
    decreases |addresses|
  {
    hide QueryCounts, Extends, Visited;
    VisitAllEffect(q, a, addresses, now);
    if addresses != [] {
      var (q1, a1) := Visit(q, a, addresses[0], now);
      VisitCounts(q, a, addresses[0], now);
      VisitAllCounts(q1, a1, addresses[1..], now);
    }
  }

  lemma {:induction false} SendAllCounts(p: P.Put, a: Socket, nodes: seq<Node>, now: int)
    requires PutCounts(p, a) && P.SendAll(p, a, nodes, now).1.sent <= p.born + TID_SPACE
    ensures var (p', b) := P.SendAll(p, a, nodes, now); PutCounts(p', b)
    decreases |nodes|
  {
    hide PutCounts, Extends;
    if nodes != [] {
      if nodes[0].token.None? {
        SendAllCounts(p, a, nodes[1..], now);
      } else {
        var p1, a1 := p.(inflight := p.inflight + [Wrap(a.sent)]), Request(a, nodes[0].address, now);
        SendAllEffect(p1, a1, nodes[1..], now);
        ExtendsGrows(a1, P.SendAll(p1, a1, nodes[1..], now).1, now);
        SendCounts(p, a, nodes[0].address, now);
        SendAllCounts(p1, a1, nodes[1..], now);
      }
    }
  }

  lemma SendCounts(p: P.Put, a: Socket, address: Address, now: int)
    requires PutCounts(p, a) && a.sent + 1 <= p.born + TID_SPACE
    ensures PutCounts(p.(inflight := p.inflight + [Wrap(a.sent)]), Request(a, address, now))
  {
    hide Issued, Evolves, Extends, Outstanding, P.Tally;
    var b := Request(a, address, now);
    RequestEvolves(a, address, now);
    PutEvolves(p, a, b, now);
    IssuedFresh(p.born, a.sent);
    IssuedLast(a.sent, a.sent);
    IssuedSplit(Wrap(a.sent), p.born, a.sent, b.sent);
    OutstandingSnoc(p.inflight, Wrap(a.sent), b.requests);
  }

  // --- all of them ---

  predicate SharesNoId(x: seq<Tid>, y: seq<Tid>) {
    forall t :: t in x ==> t !in y
  }

  /** No id belongs to two live queries. */
  ghost predicate Disjoint(queries: map<Id, Query>, puts: map<Id, P.Put>) {
    && (forall i, j :: i in queries && j in queries && i != j ==> SharesNoId(queries[i].inflight, queries[j].inflight))
    && (forall i, j :: i in queries && j in puts ==> SharesNoId(queries[i].inflight, puts[j].inflight))
    && (forall i, j :: i in puts && j in puts && i != j ==> SharesNoId(puts[i].inflight, puts[j].inflight))
  }

  ghost predicate CountsInv(queries: map<Id, Query>, puts: map<Id, P.Put>, sock: Socket) {
    && (forall id :: id in queries ==> QueryCounts(queries[id], sock))
    && (forall id :: id in puts ==> PutCounts(puts[id], sock) && puts[id].target == id)
    && Disjoint(queries, puts)
  }

  /** Ids issued in a window are new to everyone who has been alive for fewer than 2^32 requests. */
  lemma NewIdsAreFresh(ids: seq<Tid>, old': seq<Tid>, others: seq<Tid>, born: nat, a: nat, b: nat)
    requires forall t :: t in ids ==> t in old' || Issued(t, a, b)
    requires SharesNoId(old', others) && forall t :: t in others ==> Issued(t, born, a)
    requires born <= a <= b <= born + TID_SPACE
    ensures SharesNoId(ids, others) && SharesNoId(others, ids)
  {
    hide Issued;
    forall t | t in others ensures !Issued(t, a, b) { IssuedDisjoint(t, born, a, b); }
  }

  lemma EmptySharesNothing(y: seq<Tid>)
    ensures SharesNoId([], y) && SharesNoId(y, [])
  {
  }

  lemma DisjointQuery(queries: map<Id, Query>, puts: map<Id, P.Put>, a: Socket, b: Socket, id: Id, q: Query)
    requires CountsInv(queries, puts, a) && Young(queries, puts, b.sent) && a.sent <= b.sent
    requires forall t :: t in q.inflight ==> (id in queries && t in queries[id].inflight) || Issued(t, a.sent, b.sent)
    ensures Disjoint(queries[id := q], puts)
  {
    hide Issued, NoDuplicates, Outstanding, P.Tally, SharesNoId;
    var held := if id in queries then queries[id].inflight else [];
    forall j | j in queries && j != id
      ensures SharesNoId(q.inflight, queries[j].inflight) && SharesNoId(queries[j].inflight, q.inflight)
    {
      EmptySharesNothing(queries[j].inflight);
      NewIdsAreFresh(q.inflight, held, queries[j].inflight, queries[j].born, a.sent, b.sent);
    }
    forall j | j in puts ensures SharesNoId(q.inflight, puts[j].inflight) {
      EmptySharesNothing(puts[j].inflight);
      NewIdsAreFresh(q.inflight, held, puts[j].inflight, puts[j].born, a.sent, b.sent);
    }
  }

  lemma DisjointPut(queries: map<Id, Query>, puts: map<Id, P.Put>, a: Socket, b: Socket, id: Id, p: P.Put)
    requires CountsInv(queries, puts, a) && a.sent <= b.sent
    requires Young(queries, puts, b.sent)
    requires forall t :: t in p.inflight ==> (id in puts && t in puts[id].inflight) || Issued(t, a.sent, b.sent)
    ensures Disjoint(queries, puts[id := p])
  {
    hide Issued, NoDuplicates, Outstanding, P.Tally, SharesNoId;
    var held := if id in puts then puts[id].inflight else [];
    forall j | j in puts && j != id
      ensures SharesNoId(p.inflight, puts[j].inflight) && SharesNoId(puts[j].inflight, p.inflight)
    {
      EmptySharesNothing(puts[j].inflight);
      NewIdsAreFresh(p.inflight, held, puts[j].inflight, puts[j].born, a.sent, b.sent);
    }
    forall j | j in queries ensures SharesNoId(queries[j].inflight, p.inflight) {
      EmptySharesNothing(queries[j].inflight);
      SharesSymmetric(queries[j].inflight, held);
      NewIdsAreFresh(p.inflight, held, queries[j].inflight, queries[j].born, a.sent, b.sent);
    }
  }

  lemma SharesSymmetric(x: seq<Tid>, y: seq<Tid>)
    ensures SharesNoId(x, y) <==> SharesNoId(y, x)
  {
  }

  /** Fewer than 2^32 requests during the life of every query, up to request number `sent`. */
  ghost predicate Young(queries: map<Id, Query>, puts: map<Id, P.Put>, sent: nat) {
    && (forall id :: id in queries ==> sent <= queries[id].born + TID_SPACE)
    && (forall id :: id in puts ==> sent <= puts[id].born + TID_SPACE)
  }

  lemma CountsEvolve(queries: map<Id, Query>, puts: map<Id, P.Put>, a: Socket, b: Socket, now: int)
    requires CountsInv(queries, puts, a) && Evolves(a, b, now) && Young(queries, puts, b.sent)
    ensures CountsInv(queries, puts, b)
  {
    hide QueryCounts, PutCounts, Evolves, Disjoint;
    forall id | id in queries ensures QueryCounts(queries[id], b) { QueryEvolves(queries[id], a, b, now); }
    forall id | id in puts ensures PutCounts(puts[id], b) { PutEvolves(puts[id], a, b, now); }
  }

  lemma LaunchCounts(e: Env, s: State, request: GetRequest, extra: seq<Address>, now: int)
    requires LaunchQuery(e, s, request, extra, now).1.sent <= s.socket.sent + TID_SPACE
    ensures var (q, sock) := LaunchQuery(e, s, request, extra, now); QueryCounts(q, sock)
  {
    hide QueryCounts, Extends, Visited, Seeds, CachedNodes, AddCandidates, VisitAll;
    var seeds := Seeds(e, s, request.target);
    var asked := if seeds == [] || |seeds| < |e.bootstrap| then e.bootstrap else [];
    var q0 := NewQuery(request, s.socket.sent);
    NewQueryCounts(request, s.socket);
    var (q1, s1) := VisitAll(q0, s.socket, asked + extra, now);
    VisitAllEffect(q0, s.socket, asked + extra, now);
    var q2 := AddCandidates(AddCandidates(q1, seeds), CachedNodes(s.cache, request.target));
    VisitAllEffect(q2, s1, ToVisit(q2), now);
    VisitAllCounts(q0, s.socket, asked + extra, now);
    VisitedFields(q0, s.socket, q1, s1);
    CandidatesKeepCounts(q1, seeds, s1);
    CandidatesKeepCounts(AddCandidates(q1, seeds), CachedNodes(s.cache, request.target), s1);
    VisitAllCounts(q2, s1, ToVisit(q2), now);
  }

  lemma NewQueryCounts(request: GetRequest, sock: Socket)
    ensures QueryCounts(NewQuery(request, sock.sent), sock)
  {
  }

  lemma CandidatesKeepCounts(q: Query, nodes: seq<Node>, sock: Socket)
    requires QueryCounts(q, sock)
    ensures QueryCounts(AddCandidates(q, nodes), sock) && AddCandidates(q, nodes).born == q.born
  {
    hide ClosestNodes.AddAll, Issued, Outstanding, NoDuplicates;
  }

  /** Everything before and inside a step that started at request number `from`. */
  ghost predicate StateCounts(s: State) {
    CountsInv(s.queries, s.puts, s.socket)
  }

  ghost predicate YoungStep(s: State, s': State) {
    Young(s.queries, s.puts, s'.socket.sent) && s'.socket.sent <= s.socket.sent + TID_SPACE
  }

  lemma LookupCounts(e: Env, s: State, request: GetRequest, extra: seq<Address>, now: int)
    requires StateCounts(s) && YoungStep(s, StartLookup(e, s, request, extra, now))
    ensures StateCounts(StartLookup(e, s, request, extra, now))
  {
    hide QueryCounts, PutCounts, LaunchQuery, Evolves, Lru.Promote, Disjoint, Extends, Issued;
    if request.target !in s.queries {
      var (q, sock) := LaunchQuery(e, s, request, extra, now);
      LaunchExtends(e, s, request, extra, now);
      ExtendsGrows(s.socket, sock, now);
      DisjointQuery(s.queries, s.puts, s.socket, sock, request.target, q);
      LookupEvolves(e, s, request, extra, now);
      CountsEvolve(s.queries, s.puts, s.socket, sock, now);
      LaunchCounts(e, s, request, extra, now);
    }
  }

  lemma NewPutCounts(request: P.PutRequest, extra: seq<Node>, sock: Socket)
    ensures PutCounts(P.NewPut(request, extra, sock.sent), sock)
  {
  }

  lemma StartCounts(p: P.Put, a: Socket, closest: seq<Node>, now: int)
    requires PutCounts(p, a) && !P.Started(p) && P.Start(p, a, closest, now).1.sent <= p.born + TID_SPACE
    ensures var (p', b, _) := P.Start(p, a, closest, now); PutCounts(p', b)
  {
    hide PutCounts;
    if closest != [] { SendAllCounts(p, a, closest + p.extra, now); }
  }

  lemma SubmitPutCounts(e: Env, s: State, request: P.PutRequest, extra: seq<Node>, now: int)
    requires StateCounts(s) && YoungStep(s, SubmitPut(e, s, request, extra, now).0)
    ensures StateCounts(SubmitPut(e, s, request, extra, now).0)
  {
    hide QueryCounts, PutCounts, StartLookup, P.Start, UsableCache, CachedNodes, Evolves, Lru.Promote, Extends, Disjoint, Issued;
    if Admit(s.puts, request) == Proceed {
      var t := request.target;
      var put := P.NewPut(request, extra, s.socket.sent);
      var s1 := s.(cache := s.cache.(entries := Lru.Promote(s.cache.entries, t)));
      NewPutCounts(request, extra, s.socket);
      SubmitPutEvolves(e, s, request, extra, now);
      if UsableCache(s.cache, t, now) {
        var nodes := CachedNodes(s.cache, t);
        var sock := P.Start(put, s1.socket, nodes, now).1;
        CountsEvolve(s.queries, s.puts, s.socket, sock, now);
        StartCounts(put, s1.socket, nodes, now);
        StartExtends(put, s1.socket, nodes, now);
        ExtendsGrows(s1.socket, sock, now);
        DisjointPut(s.queries, s.puts, s.socket, sock, t, P.Start(put, s1.socket, nodes, now).0);
      } else {
        var salt := if request.PutMutable? then request.salt else None;
        LookupCounts(e, s1, GetValue(t, None, salt), [], now);
        LookupOnlyAdds(e, s1, GetValue(t, None, salt), [], now);
        LookupEvolves(e, s1, GetValue(t, None, salt), [], now);
        var s2 := StartLookup(e, s1, GetValue(t, None, salt), [], now);
        PutEvolves(put, s.socket, s2.socket, now);
        LookupYoung(e, s1, GetValue(t, None, salt), [], now, s2.socket.sent);
        DisjointPut(s2.queries, s2.puts, s2.socket, s2.socket, t, put);
      }
    }
  }

  lemma {:induction false} TickGetsCounts(queries: map<Id, Query>, puts: map<Id, P.Put>, sock: Socket, order: seq<Id>,
                                          edk: nat, subnets: nat, now: int)
    requires CountsInv(queries, puts, sock)
    requires Young(queries, puts, TickGets(queries, sock, order, edk, subnets, now).1.sent)
    ensures var (qs, sock', _) := TickGets(queries, sock, order, edk, subnets, now); CountsInv(qs, puts, sock')
    ensures var (qs, _, _) := TickGets(queries, sock, order, edk, subnets, now);
            qs.Keys == queries.Keys && forall id :: id in queries ==> qs[id].born == queries[id].born && qs[id].outcome == queries[id].outcome
    decreases |order|
  {
    hide QueryCounts, PutCounts, Evolves, VisitAll, MakeDone, Extends, Visited, Disjoint, Issued;
    if order != [] {
      if order[0] !in queries {
        TickGetsCounts(queries, puts, sock, order[1..], edk, subnets, now);
      } else {
        var id := order[0];
        var (q, sock1, done) := TickQuery(queries[id], sock, now);
        var queries1 := queries[id := q];
        TickQueryEvolves(queries[id], sock, now);
        TickGetsEvolves(queries1, sock1, order[1..], edk, subnets, now);
        EvolvesSent(sock1, TickGets(queries1, sock1, order[1..], edk, subnets, now).1, now);
        CountsEvolve(queries, puts, sock, sock1, now);
        VisitAllEffect(queries[id], sock, ToVisit(queries[id]), now);
        VisitedFields(queries[id], sock, q, sock1);
        VisitAllCounts(queries[id], sock, ToVisit(queries[id]), now);
        forall t | t in q.inflight ensures t in queries[id].inflight || Issued(t, sock.sent, sock1.sent) {
          VisitedTids(queries[id], sock, q, sock1, t);
        }
        DisjointQuery(queries, puts, sock, sock1, id, q);
        TickGetsCounts(queries1, puts, sock1, order[1..], edk, subnets, now);
      }
    }
  }

  lemma FinishOneCounts(e: Env, s: State, done: Done, voteOrder: VoteOrders, now: int)
    requires StateCounts(s) && Young(s.queries, s.puts, FinishOne(e, s, done, voteOrder, now).0.socket.sent)
    ensures StateCounts(FinishOne(e, s, done, voteOrder, now).0)
    ensures forall id :: id in s.puts ==> FinishOne(e, s, done, voteOrder, now).0.puts[id].born == s.puts[id].born
  {
    hide QueryCounts, PutCounts, Evolves, BestAddress, CacheQuery, CacheEntry, P.Start, Extends, Request, Disjoint, Issued;
    FinishOneReports(e, s, done, voteOrder, now);
    FinishOneEvolves(e, s, done, voteOrder, now);
    var s' := FinishOne(e, s, done, voteOrder, now).0;
    CountsEvolve(s.queries, s.puts, s.socket, s'.socket, now);
    if done.id in s.puts && s'.puts[done.id] != s.puts[done.id] {
      var q, p := s.queries[done.id], s.puts[done.id];
      var s1 := UpdateVotes(s.(queries := s.queries - {done.id}), q, OrderFor(voteOrder, done.id), now);
      EvolvesReflexive(s.socket, now);
      if BestAddress(q.votes, OrderFor(voteOrder, done.id)).Some? {
        RequestEvolves(s.socket, BestAddress(q.votes, OrderFor(voteOrder, done.id)).value, now);
      }
      StartExtends(p, s1.socket, done.closest, now);
      ExtendsGrows(s1.socket, P.Start(p, s1.socket, done.closest, now).1, now);
      PutEvolves(p, s.socket, s1.socket, now);
      StartCounts(p, s1.socket, done.closest, now);
      CountsEvolve(s.queries, s.puts, s.socket, s1.socket, now);
      forall t | t in s'.puts[done.id].inflight ensures t in p.inflight || Issued(t, s1.socket.sent, s'.socket.sent) {
        NewOnly(p.inflight, s'.puts[done.id].inflight, t);
      }
      DisjointPut(s.queries, s.puts, s1.socket, s'.socket, done.id, s'.puts[done.id]);
      assert s'.puts == s.puts[done.id := s'.puts[done.id]];
      DisjointSubset(s.queries, s'.puts, s'.queries);
    } else {
      assert s'.puts == s.puts;
      DisjointSubset(s.queries, s.puts, s'.queries);
    }
  }

  lemma NewOnly(x: seq<Tid>, y: seq<Tid>, t: Tid)
    requires x <= y && t in y && t !in x
    ensures exists i :: |x| <= i < |y| && y[i] == t
  {
    assert forall j :: 0 <= j < |x| ==> y[j] == x[j] && x[j] in x;
  }

  lemma DisjointSubset(queries: map<Id, Query>, puts: map<Id, P.Put>, fewer: map<Id, Query>)
    requires Disjoint(queries, puts)
    requires forall id :: id in fewer ==> id in queries && fewer[id].inflight == queries[id].inflight
    ensures Disjoint(fewer, puts)
  {
    hide SharesNoId;
  }

  lemma DisjointFewerPuts(queries: map<Id, Query>, puts: map<Id, P.Put>, fewer: map<Id, P.Put>)
    requires Disjoint(queries, puts)
    requires forall id :: id in fewer ==> id in puts && fewer[id].inflight == puts[id].inflight
    ensures Disjoint(queries, fewer)
  {
    hide SharesNoId;
  }

  lemma {:induction false} FinishAllCounts(e: Env, s: State, dones: seq<Done>, voteOrder: VoteOrders, now: int)
    requires StateCounts(s) && Young(s.queries, s.puts, FinishAll(e, s, dones, voteOrder, now).0.socket.sent)
    ensures StateCounts(FinishAll(e, s, dones, voteOrder, now).0)
    ensures var s' := FinishAll(e, s, dones, voteOrder, now).0;
            s'.puts.Keys == s.puts.Keys && forall id :: id in s.puts ==> s'.puts[id].born == s.puts[id].born
    decreases |dones|
  {
    hide StateCounts, FinishOne, Evolves;
    if dones != [] {
      var s1 := FinishOne(e, s, dones[0], voteOrder, now).0;
      FinishAllEvolves(e, s1, dones[1..], voteOrder, now);
      EvolvesSent(s1.socket, FinishAll(e, s1, dones[1..], voteOrder, now).0.socket, now);
      FinishOneCounts(e, s, dones[0], voteOrder, now);
      FinishOneReports(e, s, dones[0], voteOrder, now);
      FinishAllCounts(e, s1, dones[1..], voteOrder, now);
    }
  }

  lemma SettleCounts(e: Env, s: State, i: TickInput)
    requires StateCounts(s) && Young(s.queries, s.puts, Settle(e, s, i).0.socket.sent) && ValidInput(s, i)
    ensures var s' := Settle(e, s, i).0;
            && StateCounts(s')
            && (forall id :: id in s'.queries ==> id in s.queries && s'.queries[id].born == s.queries[id].born)
            && (forall id :: id in s'.puts ==> id in s.puts && s'.puts[id].born == s.puts[id].born)
            && (forall id :: id in s'.queries ==> s'.queries[id].outcome == s.queries[id].outcome)
  {
    hide QueryCounts, PutCounts, TickGets, FinishAll, TickPuts, ExpectedDk, AverageSubnets, Evolves, NoDuplicates, Disjoint;
    var edk, subnets := ExpectedDk(e, s.cache), AverageSubnets(s.cache);
    var (queries, sock, dones) := TickGets(s.queries, s.socket, i.getOrder, edk, subnets, i.now);
    var s0 := s.(queries := queries, socket := sock);
    FinishAllEvolves(e, s0, dones, i.voteOrder, i.now);
    EvolvesSent(sock, FinishAll(e, s0, dones, i.voteOrder, i.now).0.socket, i.now);
    TickGetsCounts(s.queries, s.puts, s.socket, i.getOrder, edk, subnets, i.now);
    FinishAllCounts(e, s0, dones, i.voteOrder, i.now);
    var f := FinishAll(e, s0, dones, i.voteOrder, i.now).0;
    DisjointFewerPuts(f.queries, f.puts, Settle(e, s, i).0.puts);
    TickGetsReports(s.queries, s.socket, i.getOrder, edk, subnets, i.now);
    FinishAllReports(e, s0, dones, i.voteOrder, i.now);
  }

  lemma MaintainCounts(e: Env, s: State, now: int)
    requires StateCounts(s) && YoungStep(s, Maintain(e, s, now))
    ensures StateCounts(Maintain(e, s, now))
  {
    hide QueryCounts, PutCounts, StartLookup, RemoveAll, PingAll, AllNodes, Evolves, Disjoint;
    var s1 := if now - s.lastRefresh >= REFRESH_TABLE_INTERVAL then TryServerMode(s) else s;
    assert Evolves(s.socket, s1.socket, now) by { ShrinkEvolves(s.socket, s1.socket, now); }
    var s2 := if now - s.lastPing >= PING_TABLE_INTERVAL then PingAndPurge(s1, now) else s1;
    EvolvesReflexive(s1.socket, now);
    PingAllEvolves(s1.socket, AllNodes(s1.table), now);
    EvolvesTransitive(s.socket, s1.socket, s2.socket, now);
    EvolvesSent(s.socket, s2.socket, now);
    LookupEvolves(e, s2.(lastRefresh := now), FindNode(s2.table.id), [], now);
    EvolvesSent(s2.socket, StartLookup(e, s2.(lastRefresh := now), FindNode(s2.table.id), [], now).socket, now);
    CountsEvolve(s.queries, s.puts, s.socket, s2.socket, now);
    if Maintain(e, s, now) != s2 && e.bootstrap != [] {
      LookupCounts(e, s2.(lastRefresh := now), FindNode(s2.table.id), [], now);
    }
  }

  // --- an answer ---

  lemma OutcomeBumped(e: Env, q: Query, b: Body)
    ensures Responded(Bump(e, q, b)) == Responded(q.outcome) + 1
    ensures Responded(BumpInvalidResponse(q.outcome)) == Responded(q.outcome) + 1
  {
    hide MutableItems.FromDhtMessage;
  }

  /** What an accepted answer adds to the diagnostics: one for a counted primary answer. */
  lemma AnswerCounts(e: Env, q: Query, from: Address, m: Message, now: int)
    ensures var q' := AnswerQuery(e, q, from, m, now);
            Responded(q'.outcome) == Responded(q.outcome) + (if m.tid in q.primary && q.request.GetValue? then 1 else 0)
  {
    hide ClosestNodes.AddAll, ClosestNodes.Insert, Bump, DeliveredValue;
    OutcomeBumped(e, q, m.body);
  }

  /** A lookup whose counters rose by at most one while one of its primary ids left the table. */
  lemma AnsweredQueryCounts(q: Query, q': Query, a: Socket, b: Socket, tid: Tid)
    requires QueryCounts(q, a) && b.sent == a.sent && tid in a.requests && tid !in b.requests
    requires forall t :: t in b.requests ==> t in a.requests && b.requests[t] == a.requests[t]
    requires q'.inflight == q.inflight && q'.primary == q.primary && q'.born == q.born && q'.visited == q.visited
    requires Responded(q'.outcome) <= Responded(q.outcome) + (if tid in q.primary then 1 else 0)
    ensures QueryCounts(q', b)
  {
    hide Issued, Responded;
    if tid in q.primary {
      OutstandingAnswered(q.primary, a.requests, b.requests, tid);
    } else {
      OutstandingMonotone(q.primary, a.requests, b.requests);
    }
  }

  lemma AnsweredPutCounts(p: P.Put, body: Body, a: Socket, b: Socket, tid: Tid)
    requires PutCounts(p, a) && b.sent == a.sent && tid in a.requests && tid !in b.requests && tid in p.inflight
    requires forall t :: t in b.requests ==> t in a.requests
    ensures PutCounts(AnswerPut(p, body), b) && AnswerPut(p, body).target == p.target
  {
    hide Issued, P.RecordError, P.Tally;
    OutstandingAnswered(p.inflight, a.requests, b.requests, tid);
    if body.ErrorMessage? {
      P.OneMoreError(p.received, body.error);
    }
  }

  lemma AnswerPutIds(p: P.Put, body: Body)
    ensures AnswerPut(p, body).inflight == p.inflight && AnswerPut(p, body).born == p.born
  {
  }

  /** A delivered answer was waiting in the table and has left it. */
  lemma DeliveredWasWaiting(sock: Socket, d: Datagram, now: int)
    requires !d.isRequest && Receive(sock, d, now).1
    ensures d.tid in sock.requests && d.tid !in Receive(sock, d, now).0.requests
  {
  }

  lemma HandleResponseDisjoint(e: Env, s: State, p: Packet, now: int)
    requires Disjoint(s.queries, s.puts)
    ensures var s' := HandleResponse(e, s, p, now).0; Disjoint(s'.queries, s'.puts)
  {
    hide AnswerQuery, AnswerPut, DeliveredValue, TableAdd, BumpInvalidResponse, Disjoint, FindPut, FindQuery;
    var m, s' := p.message, HandleResponse(e, s, p, now).0;
    var put := FindPut(s.puts, p.putOrder, m.tid);
    if put.Some? { AnswerPutIds(s.puts[put.value], m.body); }
    var found := FindQuery(s.queries, p.getOrder, m.tid, false);
    if found.Some? { AnswerKeepsIds(e, s.queries[found.value], p.from, m, now); }
    DisjointSubset(s.queries, s.puts, s'.queries);
    DisjointFewerPuts(s'.queries, s.puts, s'.puts);
  }

  lemma HandleResponseCounts(e: Env, s: State, p: Packet, now: int, before: Socket)
    requires CountsInv(s.queries, s.puts, before)
    requires s.socket.sent == before.sent && p.message.tid in before.requests && p.message.tid !in s.socket.requests
    requires forall t :: t in s.socket.requests ==> t in before.requests && s.socket.requests[t] == before.requests[t]
    requires s.socket.timeout == before.timeout && Young(s.queries, s.puts, s.socket.sent)
    ensures StateCounts(HandleResponse(e, s, p, now).0)
  {
    hide QueryCounts, PutCounts, AnswerQuery, AnswerPut, DeliveredValue, TableAdd, Evolves, Responded, BumpInvalidResponse, Disjoint, FindPut, FindQuery;
    var m := p.message;
    ShrinkEvolves(before, s.socket, now);
    CountsEvolve(s.queries, s.puts, before, s.socket, now);
    var readOnly := FindQuery(s.queries, p.getOrder, m.tid, true);
    if readOnly.Some? {
      var q := s.queries[readOnly.value];
      OutcomeBumped(e, q, m.body);
      AnsweredQueryCounts(q, q.(outcome := BumpInvalidResponse(q.outcome)), before, s.socket, m.tid);
    }
    var put := FindPut(s.puts, p.putOrder, m.tid);
    if put.Some? { AnsweredPutCounts(s.puts[put.value], m.body, before, s.socket, m.tid); }
    var found := FindQuery(s.queries, p.getOrder, m.tid, false);
    HandleResponseDisjoint(e, s, p, now);
    if found.Some? {
      var q := s.queries[found.value];
      AnswerCounts(e, q, p.from, m, now);
      AnswerKeepsIds(e, q, p.from, m, now);
      AnsweredQueryCounts(q, AnswerQuery(e, q, p.from, m, now), before, s.socket, m.tid);
    }
  }

  lemma HandleMessageCounts(e: Env, s: State, packet: Option<Packet>, now: int)
    requires StateCounts(s) && YoungStep(s, HandleMessage(e, s, packet, now).0)
    ensures StateCounts(HandleMessage(e, s, packet, now).0)
  {
    hide QueryCounts, PutCounts, HandleRequest, HandleResponse, Receive, Tidy, Evolves, Disjoint;
    HandleMessageEvolves(e, s, packet, now);
    match packet
    case None =>
      CountsEvolve(s.queries, s.puts, s.socket, Tidy(s.socket, now), now);
    case Some(p) =>
      var d := Datagram(IsRequest(p.message.body), p.message.tid, p.from);
      var (sock, delivered) := Receive(s.socket, d, now);
      ReceiveShrinks(s.socket, d, now);
      ShrinkEvolves(s.socket, sock, now);
      var s1 := s.(socket := sock);
      EvolvesSent(s.socket, HandleMessage(e, s, packet, now).0.socket, now);
      CountsEvolve(s.queries, s.puts, s.socket, sock, now);
      if delivered {
        if IsRequest(p.message.body) {
          HandleRequestCounts(e, s1, p, now);
        } else {
          DeliveredWasWaiting(s.socket, d, now);
          HandleResponseCounts(e, s1, p, now, s.socket);
        }
      }
  }

  lemma HandleRequestCounts(e: Env, s: State, p: Packet, now: int)
    requires StateCounts(s) && YoungStep(s, HandleRequest(e, s, p, now))
    ensures StateCounts(HandleRequest(e, s, p, now))
  {
    hide QueryCounts, PutCounts, StartLookup, TableAdd, SecureId, IsValidForIp, Disjoint;
    var s1 := if e.bootstrap == [] && p.message.body.FindNodeRequest?
              then s.(table := TableAdd(s.table, Node(p.message.body.target, p.from, None, now), now).0)
              else s;
    if s1.publicAddress == Some(p.from) && p.message.body.PingRequest? && !IsValidForIp(s1.table.id, p.from.ip) {
      LookupCounts(e, s1.(firewalled := false), FindNode(SecureId(p.randomId, p.from.ip, p.randomByte)), [], now);
    }
  }

  /** One tick keeps the books of every lookup and every put. */
  lemma TickCounts(e: Env, s: State, i: TickInput)
    requires StateCounts(s) && ValidInput(s, i) && YoungStep(s, Tick(e, s, i).0)
    ensures StateCounts(Tick(e, s, i).0)
  {
    hide StateCounts, Settle, Maintain, HandleMessage, Evolves, ValidInput;
    var s1 := Settle(e, s, i).0;
    var s2 := Maintain(e, s1, i.now);
    var s3 := HandleMessage(e, s2, i.packet, i.now).0;
    TickEvolves(e, s, i);
    MaintainEvolves(e, s1, i.now);
    HandleMessageEvolves(e, s2, i.packet, i.now);
    EvolvesSent(s.socket, s1.socket, i.now);
    EvolvesSent(s1.socket, s2.socket, i.now);
    EvolvesSent(s2.socket, s3.socket, i.now);
    SettleCounts(e, s, i);
    MaintainCounts(e, s1, i.now);
    MaintainOnlyAdds(e, s1, i.now);
    MaintainYoung(e, s1, i.now, s3.socket.sent);
    HandleMessageCounts(e, s2, i.packet, i.now);
  }

  lemma MaintainYoung(e: Env, s: State, now: int, sent: nat)
    requires Young(s.queries, s.puts, sent) && s.socket.sent <= Maintain(e, s, now).socket.sent <= sent <= s.socket.sent + TID_SPACE
    ensures Young(Maintain(e, s, now).queries, Maintain(e, s, now).puts, sent)
  {
    hide StartLookup, RemoveAll, PingAll, AllNodes, LaunchQuery, Evolves, Extends;
    var s1 := if now - s.lastRefresh >= REFRESH_TABLE_INTERVAL then TryServerMode(s) else s;
    var s2 := if now - s.lastPing >= PING_TABLE_INTERVAL then PingAndPurge(s1, now) else s1;
    PingAllEvolves(s1.socket, AllNodes(s1.table), now);
    EvolvesSent(s1.socket, PingAll(s1.socket, AllNodes(s1.table), now), now);
    LookupYoung(e, s2.(lastRefresh := now), FindNode(s2.table.id), [], now, sent);
    MaintainOnlyAdds(e, s, now);
  }

  lemma LookupYoung(e: Env, s: State, request: GetRequest, extra: seq<Address>, now: int, sent: nat)
    requires Young(s.queries, s.puts, sent) && sent <= s.socket.sent + TID_SPACE
    ensures var s' := StartLookup(e, s, request, extra, now); Young(s'.queries, s'.puts, sent)
  {
    hide LaunchQuery, Extends;
    LaunchExtends(e, s, request, extra, now);
  }
}
