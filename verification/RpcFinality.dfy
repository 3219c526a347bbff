/**
  A finished lookup is final: its twenty best candidates have been visited, none of its
  requests is waiting, and no later answer to one of them is accepted.
 */
module RpcFinality {
  import opened Ids
  import opened Nodes
  import opened Sockets
  import opened IterativeQueries
  import opened Rpc
  import opened RpcReports
  import opened RpcSockets
  import opened RpcLiveness
  import opened Actor

  /** None of the ids is waiting at `now`, and all were issued since `born`. */
  ghost predicate Dead(tids: seq<Tid>, born: nat, sock: Socket, now: int) {
    && (forall t :: t in tids ==> Issued(t, born, sock.sent))
    && (forall t :: t in tids ==> !Inflight(sock, t, now))
  }

  lemma DeadStaysDead(tids: seq<Tid>, born: nat, a: Socket, b: Socket, now: int, later: int)
    requires Dead(tids, born, a, now) && Evolves(a, b, later) && now <= later
    requires born <= a.sent && b.sent <= born + TID_SPACE
    ensures Dead(tids, born, b, later)
  {
    hide Issued;
    forall t | t in tids
      ensures Issued(t, born, b.sent)
      ensures !Inflight(b, t, later)
    {
      IssuedSplit(t, born, a.sent, b.sent);
      IssuedDisjoint(t, born, a.sent, b.sent);
    }
  }

  /** The socket does not deliver an answer to a dead id. */
  lemma DeadIsNotDelivered(tids: seq<Tid>, born: nat, sock: Socket, d: Datagram, now: int)
    requires Dead(tids, born, sock, now) && d.tid in tids && !d.isRequest
    ensures !Receive(sock, d, now).1
  {
    hide Issued;
    assert !Inflight(sock, d.tid, now);
  }

  lemma {:induction false} TickGetsFinishes(queries: map<Id, Query>, sock: Socket, order: seq<Id>, edk: nat, subnets: nat,
                                            now: int, id: Id, last: int)
    requires NoDuplicates(order) && id in queries && last <= now
    requires SentBy(queries[id].inflight, queries[id].born, sock, last) && queries[id].born <= sock.sent
    requires TickGets(queries, sock, order, edk, subnets, now).1.sent <= queries[id].born + TID_SPACE
    requires id in DoneIds(TickGets(queries, sock, order, edk, subnets, now).2)
    ensures var (qs, sock', dones) := TickGets(queries, sock, order, edk, subnets, now);
            && id in qs && qs[id].born == queries[id].born
            && Dead(qs[id].inflight, qs[id].born, sock', now)
            && (forall n :: n in Top(qs[id]) ==> n.address in qs[id].visited)
            && MakeDone(id, qs[id], edk, subnets) in dones
    decreases |order|
  {
    hide Issued, TickQuery, SentBy, Evolves, MakeDone, Dead, Top;
    assert order == [order[0]] + order[1..];
    assert order[0] !in order[1..];
    if order[0] !in queries {
      TickGetsFinishes(queries, sock, order[1..], edk, subnets, now, id, last);
    } else {
      var (q, sock1, done) := TickQuery(queries[order[0]], sock, now);
      var queries1 := queries[order[0] := q];
      var (qs, sock2, rest) := TickGets(queries1, sock1, order[1..], edk, subnets, now);
      TickQueryEvolves(queries[order[0]], sock, now);
      TickGetsEvolves(queries1, sock1, order[1..], edk, subnets, now);
      EvolvesSent(sock, sock1, now);
      EvolvesSent(sock1, sock2, now);
      MakeDoneId(order[0], q, edk, subnets);
      TickGetsReports(queries1, sock1, order[1..], edk, subnets, now);
      if order[0] == id {
        TickQueryEnds(queries[id], sock, last, now);
        TickGetsUntouched(queries1, sock1, order[1..], edk, subnets, now, id);
        DeadStaysDead(q.inflight, q.born, sock1, sock2, now, now);
      } else {
        SentByEvolves(queries[id].inflight, queries[id].born, sock, sock1, last, now);
        TickGetsFinishes(queries1, sock1, order[1..], edk, subnets, now, id, last);
      }
    }
  }

  lemma TickQueryEnds(q: Query, sock: Socket, last: int, now: int)
    requires SentBy(q.inflight, q.born, sock, last) && q.born <= sock.sent && last <= now
    requires TickQuery(q, sock, now).1.sent <= q.born + TID_SPACE
    ensures var (q', sock', done) := TickQuery(q, sock, now);
            && q'.born == q.born
            && (forall n :: n in Top(q') ==> n.address in q'.visited)
            && (done ==> Dead(q'.inflight, q'.born, sock', now))
  {
    hide Issued, VisitClosest;
    TickQueryProgress(q, sock, last, now);
    VisitClosestEffect(q, sock, now);
  }

  /** The lookup as it stood when this tick finished with it. */
  function FinishedQuery(e: Env, s: State, i: TickInput, id: Id): Option<Query> {
    var qs := TickGets(s.queries, s.socket, i.getOrder, ExpectedDk(e, s.cache), QueryCache.AverageSubnets(s.cache), i.now).0;
    if id in qs then Some(qs[id]) else None
  }

  /** The answer this tick received, if any, was delivered to the engine. */
  predicate Delivers(e: Env, s: State, i: TickInput) {
    i.packet.Some? &&
    var p := i.packet.value;
    Receive(Maintain(e, Settle(e, s, i).0, i.now).socket, Datagram(IsRequest(p.message.body), p.message.tid, p.from), i.now).1
  }

  /** When a tick reports a lookup, its twenty best candidates have been visited, every one of
      its ids is dead, and the answer received in that very tick is not for it. */
  lemma DoneIsFinal(e: Env, s: State, i: TickInput, id: Id, last: int)
    requires ValidInput(s, i) && id in s.queries && last <= i.now
    requires SentBy(s.queries[id].inflight, s.queries[id].born, s.socket, last) && s.queries[id].born <= s.socket.sent
    requires Tick(e, s, i).0.socket.sent <= s.queries[id].born + TID_SPACE
    requires id in DoneIds(Tick(e, s, i).1.gets)
    ensures FinishedQuery(e, s, i, id).Some?
    ensures var q := FinishedQuery(e, s, i, id).value;
            && q.born == s.queries[id].born
            && (forall n :: n in Top(q) ==> n.address in q.visited)
            && Dead(q.inflight, q.born, Tick(e, s, i).0.socket, i.now)
            && (Delivers(e, s, i) && !IsRequest(i.packet.value.message.body) ==> i.packet.value.message.tid !in q.inflight)
  {
    hide Issued, SentBy, Evolves, TickGets, FinishAll, Maintain, HandleMessage, TickPuts, NoDuplicates, ExpectedDk,
         QueryCache.AverageSubnets, Dead, Receive, Top, MakeDone;
    var edk, subnets := ExpectedDk(e, s.cache), QueryCache.AverageSubnets(s.cache);
    var (queries, sock, dones) := TickGets(s.queries, s.socket, i.getOrder, edk, subnets, i.now);
    var s0 := s.(queries := queries, socket := sock);
    var s1 := Settle(e, s, i).0;
    var s2 := Maintain(e, s1, i.now);
    var s3 := HandleMessage(e, s2, i.packet, i.now).0;
    TickGetsEvolves(s.queries, s.socket, i.getOrder, edk, subnets, i.now);
    FinishAllEvolves(e, s0, dones, i.voteOrder, i.now);
    MaintainEvolves(e, s1, i.now);
    HandleMessageEvolves(e, s2, i.packet, i.now);
    EvolvesTransitive(sock, s1.socket, s2.socket, i.now);
    EvolvesSent(s.socket, sock, i.now);
    EvolvesSent(sock, s2.socket, i.now);
    EvolvesSent(s2.socket, s3.socket, i.now);
    TickGetsFinishes(s.queries, s.socket, i.getOrder, edk, subnets, i.now, id, last);
    var q := queries[id];
    DeadStaysDead(q.inflight, q.born, sock, s2.socket, i.now, i.now);
    DeadStaysDead(q.inflight, q.born, s2.socket, s3.socket, i.now, i.now);
    if i.packet.Some? && !IsRequest(i.packet.value.message.body) && i.packet.value.message.tid in q.inflight {
      DeadIsNotDelivered(q.inflight, q.born, s2.socket, Datagram(false, i.packet.value.message.tid, i.packet.value.from), i.now);
    }
  }

  /** Later iterations, in the order of time, as long as fewer than 2^32 requests were sent
      since `born`, deliver no answer to any of the ids. */
  ghost predicate NeverDelivered(e: Env, a: Loop, inputs: seq<Input>, tids: seq<Tid>, born: nat, start: int)
    decreases |inputs|
  {
    inputs != [] && start <= inputs[0].tick.now && Iterate(e, a, inputs[0]).0.rpc.socket.sent <= born + TID_SPACE ==>
      var i := inputs[0];
      && (Delivers(e, BeforeTick(e, a, i), i.tick) && !IsRequest(i.tick.packet.value.message.body) ==>
            i.tick.packet.value.message.tid !in tids)
      && NeverDelivered(e, Iterate(e, a, i).0, inputs[1..], tids, born, i.tick.now)
  }

  lemma {:induction false} FinishedStaysFinal(e: Env, a: Loop, inputs: seq<Input>, tids: seq<Tid>, born: nat, start: int)
    requires Dead(tids, born, a.rpc.socket, start) && born <= a.rpc.socket.sent
    ensures NeverDelivered(e, a, inputs, tids, born, start)
    decreases |inputs|
  {
    hide Dead, Evolves, Tick, Accept, Iterate, Maintain, Settle, Receive;
    if inputs != [] && start <= inputs[0].tick.now && Iterate(e, a, inputs[0]).0.rpc.socket.sent <= born + TID_SPACE {
      var i := inputs[0];
      DeadThroughIteration(e, a, i, tids, born, start);
      FinishedStaysFinal(e, Iterate(e, a, i).0, inputs[1..], tids, born, i.tick.now);
    }
  }

  lemma DeadThroughIteration(e: Env, a: Loop, i: Input, tids: seq<Tid>, born: nat, start: int)
    requires Dead(tids, born, a.rpc.socket, start) && born <= a.rpc.socket.sent && start <= i.tick.now
    requires Iterate(e, a, i).0.rpc.socket.sent <= born + TID_SPACE
    ensures var b := Iterate(e, a, i).0; Dead(tids, born, b.rpc.socket, i.tick.now) && born <= b.rpc.socket.sent
    ensures Delivers(e, BeforeTick(e, a, i), i.tick) && !IsRequest(i.tick.packet.value.message.body) ==>
              i.tick.packet.value.message.tid !in tids
  {
    hide Dead, Evolves, Accept, Iterate, Maintain, Settle, HandleMessage, Receive;
    var now, s := i.tick.now, BeforeTick(e, a, i);
    IterateRpc(e, a, i);
    AcceptKeepsLookups(e, a, i.message, now);
    var s1 := Settle(e, s, i.tick).0;
    var s2 := Maintain(e, s1, now);
    var s3 := HandleMessage(e, s2, i.tick.packet, now).0;
    TickEvolves(e, s, i.tick);
    MaintainEvolves(e, s1, now);
    HandleMessageEvolves(e, s2, i.tick.packet, now);
    EvolvesTransitive(a.rpc.socket, s.socket, s1.socket, now);
    EvolvesTransitive(a.rpc.socket, s1.socket, s2.socket, now);
    EvolvesSent(a.rpc.socket, s2.socket, now);
    EvolvesSent(s2.socket, s3.socket, now);
    DeadStaysDead(tids, born, a.rpc.socket, s2.socket, start, now);
    DeadStaysDead(tids, born, s2.socket, s3.socket, now, now);
    if i.tick.packet.Some? && !IsRequest(i.tick.packet.value.message.body) && i.tick.packet.value.message.tid in tids {
      DeadIsNotDelivered(tids, born, s2.socket, Datagram(false, i.tick.packet.value.message.tid, i.tick.packet.value.from), now);
    }
  }

  /** `q'` is `q` but for what a round of visits adds. */
  predicate OnlyVisits(q: Query, q': Query) {
    q' == q.(inflight := q'.inflight, primary := q'.primary, visited := q'.visited)
  }

  lemma TickOnlyVisits(q: Query, sock: Socket, now: int)
    ensures OnlyVisits(q, TickQuery(q, sock, now).0)
  {
    VisitClosestEffect(q, sock, now);
  }

  lemma {:induction false} TickGetsMakes(queries: map<Id, Query>, sock: Socket, order: seq<Id>, edk: nat, subnets: nat, now: int)
    requires NoDuplicates(order)
    ensures var (qs, _, dones) := TickGets(queries, sock, order, edk, subnets, now);
            && qs.Keys == queries.Keys
            && (forall id :: id in queries ==> OnlyVisits(queries[id], qs[id]))
            && (forall d :: d in dones ==> d.id in order && d.id in queries && d == MakeDone(d.id, qs[d.id], edk, subnets))
    decreases |order|
  {
    hide TickQuery, MakeDone, OnlyVisits;
    if order == [] {
      forall id | id in queries ensures OnlyVisits(queries[id], queries[id]) {
        NothingVisited(queries[id]);
      }
    } else {
      assert order == [order[0]] + order[1..];
      assert order[0] !in order[1..];
      if order[0] !in queries {
        TickGetsMakes(queries, sock, order[1..], edk, subnets, now);
      } else {
        var (q, sock1, done) := TickQuery(queries[order[0]], sock, now);
        var queries1 := queries[order[0] := q];
        TickOnlyVisits(queries[order[0]], sock, now);
        TickGetsMakes(queries1, sock1, order[1..], edk, subnets, now);
        TickGetsUntouched(queries1, sock1, order[1..], edk, subnets, now, order[0]);
        MakeDoneId(order[0], q, edk, subnets);
      }
    }
  }

  lemma NothingVisited(q: Query)
    ensures OnlyVisits(q, q)
  {
  }

  /** What is reported of a lookup: a find_node lookup reports its first twenty candidates, any
      other the secure cut of those that answered with a token; a value lookup reports its
      counters with the number of addresses it visited, and no other reports any. */
  lemma ReportsWhatItFound(e: Env, s: State, i: TickInput, d: Done)
    requires ValidInput(s, i) && d in Tick(e, s, i).1.gets
    ensures d.id in s.queries && FinishedQuery(e, s, i, d.id).Some?
    ensures var q, was := FinishedQuery(e, s, i, d.id).value, s.queries[d.id];
            && q.request == was.request && q.closest == was.closest && q.responders == was.responders && was.visited <= q.visited
            && (was.request.FindNode? ==> d.closest == (if |was.closest| <= 20 then was.closest else was.closest[..20]))
            && (!was.request.FindNode? ==>
                  d.closest == ClosestNodes.TakeUntilSecure(was.request.target, was.responders, e.expectedDk(s.cache.respondersSum, s.cache.respondersCount),
                                                            QueryCache.AverageSubnets(s.cache)))
            && (was.request.GetValue? ==>
                  d.outcome == Some(Outcome(|q.visited|, was.outcome.values, was.outcome.noValues, was.outcome.noMoreRecent,
                                            was.outcome.invalidValues, was.outcome.invalidResponses, was.outcome.krpcErrors)))
            && (!was.request.GetValue? ==> d.outcome == None)
  {
    hide TickGets, FinishAll, TickPuts, Maintain, HandleMessage, NoDuplicates, ClosestNodes.TakeUntilSecure, QueryCache.AverageSubnets;
    TickGetsMakes(s.queries, s.socket, i.getOrder, ExpectedDk(e, s.cache), QueryCache.AverageSubnets(s.cache), i.now);
    TickGetsVisitsMore(s.queries, s.socket, i.getOrder, ExpectedDk(e, s.cache), QueryCache.AverageSubnets(s.cache), i.now, d.id);
  }

  lemma {:induction false} TickGetsVisitsMore(queries: map<Id, Query>, sock: Socket, order: seq<Id>, edk: nat, subnets: nat, now: int, id: Id)
    requires id in queries
    ensures id in TickGets(queries, sock, order, edk, subnets, now).0
    ensures queries[id].visited <= TickGets(queries, sock, order, edk, subnets, now).0[id].visited
    decreases |order|
  {
    hide VisitClosest, MakeDone, Extends;
    if order != [] {
      if order[0] !in queries {
        TickGetsVisitsMore(queries, sock, order[1..], edk, subnets, now, id);
      } else {
        var (q, sock1, _) := TickQuery(queries[order[0]], sock, now);
        VisitClosestEffect(queries[order[0]], sock, now);
        TickGetsVisitsMore(queries[order[0] := q], sock1, order[1..], edk, subnets, now, id);
      }
    }
  }
}
