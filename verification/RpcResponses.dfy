/**
  What an accepted answer does (src/rpc.rs, `handle_response`): the nodes it teaches the lookup
  that asked, the responder and the vote it adds, the counter it raises and the value it
  delivers; and that it came from the address the request went to.
 */
module RpcResponses {
  import opened Ids
  import opened Bep42
  import opened Nodes
  import opened ClosestNodes
  import opened RoutingTable
  import opened Sockets
  import opened IterativeQueries
  import opened MutableItems
  import opened QueryCache
  import opened Rpc
  import opened RpcReports
  import opened RpcSockets
  import opened RpcLiveness
  import opened RpcPuts
  import opened RpcCounts
  import opened RpcOutcomes
  import opened RpcTallies
  import opened RpcEngine
  import opened RpcRuns
  import opened Actor

  // --- what an answer does to the lookup that asked ---

  /** The candidates are now, in order, those there were and then those of the listed nodes that
      are taken when each is tested against everything before it. */
  ghost predicate Learns(q: Query, q': Query, nodes: seq<Node>) {
    && StrictlySorted(q.request.target, q'.closest)
    && multiset(q'.closest) == multiset(GreedyOnto(q.closest, nodes))
  }

  function Listed(nodes: Option<seq<Node>>): seq<Node> {
    if nodes.Some? then nodes.value else []
  }

  /** Every kind of answer that lists nodes teaches all of them, and the others teach nothing. */
  ghost predicate Teaches(q: Query, q': Query, b: Body) {
    && (b.FindNodeResponse? ==> Learns(q, q', b.found))
    && (b.GetPeersResponse? ==> Learns(q, q', Listed(b.nodes)))
    && (b.GetImmutableResponse? ==> Learns(q, q', Listed(b.nodes)))
    && (b.GetMutableResponse? ==> Learns(q, q', Listed(b.nodes)))
    && (b.NoValuesResponse? ==> Learns(q, q', Listed(b.nodes)))
    && (b.NoMoreRecentResponse? ==> Learns(q, q', Listed(b.nodes)))
    && (b.PingResponse? || b.ErrorMessage? ==> q'.closest == q.closest)
  }

  lemma AnswerTeaches(e: Env, q: Query, from: Address, m: Message, now: int)
    requires StrictlySorted(q.request.target, q.closest) && !IsRequest(m.body)
    ensures Teaches(q, AnswerQuery(e, q, from, m, now), m.body)
  {
    hide StrictlySorted, GreedyOnto, AddAll, Insert, Bump, DeliveredValue;
    var nodes := CloserNodes(m.body);
    assert AnswerQuery(e, q, from, m, now).closest == AddAll(q.request.target, q.closest, nodes);
    AddAllRefinesOnto(q.request.target, q.closest, nodes);
    NothingToAdd(q.request.target, q.closest);
  }

  lemma NothingToAdd(target: Id, s: seq<Node>)
    ensures AddAll(target, s, []) == s
  {
  }

  /** An answer with a token makes its sender a responder, under the address it came from; any
      other leaves the responders. The address it reports gets one vote, a `u16`, and no other. */
  lemma AnswerRecords(e: Env, q: Query, from: Address, m: Message, now: int)
    ensures var q', b := AnswerQuery(e, q, from, m, now), m.body;
            && (b.PingResponse? || b.FindNodeResponse? || b.ErrorMessage? ==> q'.responders == q.responders)
            && (b.GetPeersResponse? || b.GetImmutableResponse? || b.GetMutableResponse? || b.NoValuesResponse? || b.NoMoreRecentResponse? ==>
                  q'.responders == Insert(q.request.target, q.responders, Node(b.id, from, Some(b.token), now)))
            && (m.requesterIp.None? ==> q'.votes == q.votes)
            && (m.requesterIp.Some? ==>
                  forall x :: VotesFor(q', x) ==
                              if x == m.requesterIp.value then (VotesFor(q, x) + 1) % 65536 else VotesFor(q, x))
            && q'.visited == q.visited && q'.inflight == q.inflight && q'.primary == q.primary && q'.request == q.request
  {
    hide AddAll, Insert, Bump, DeliveredValue;
  }

  /** The counters after an answer: only an answer to a primary request of a value lookup counts,
      and then exactly one counter rises by one, according to the kind of answer and, for a
      mutable value, to whether the item verifies. */
  lemma AnswerBumps(e: Env, q: Query, from: Address, m: Message, now: int)
    requires !IsRequest(m.body)
    ensures var q', b, o := AnswerQuery(e, q, from, m, now), m.body, q.outcome;
            if !(m.tid in q.primary && q.request.GetValue?) then q'.outcome == o
            else
              && (b.NoMoreRecentResponse? ==> q'.outcome == o.(noMoreRecent := o.noMoreRecent + 1))
              && (b.NoValuesResponse? ==> q'.outcome == o.(noValues := o.noValues + 1))
              && (b.ErrorMessage? ==> q'.outcome == o.(krpcErrors := o.krpcErrors + 1))
              && (b.GetMutableResponse? && Verified(e.crypto, ItemIn(q, b)) ==> q'.outcome == o.(values := o.values + 1))
              && (b.GetMutableResponse? && !Verified(e.crypto, ItemIn(q, b)) ==> q'.outcome == o.(invalidValues := o.invalidValues + 1))
              && (b.PingResponse? || b.FindNodeResponse? || b.GetPeersResponse? || b.GetImmutableResponse? ==>
                    q'.outcome == o.(invalidResponses := o.invalidResponses + 1))
  {
    hide AddAll, Insert, Verified, DeliveredValue;
  }

  /** The item a mutable answer claims: its fields under the target and salt asked for. */
  function ItemIn(q: Query, b: Body): MutableItem
    requires b.GetMutableResponse?
  {
    MutableItem(q.request.target, b.k, b.seqNo, b.v, b.sig, if q.request.GetValue? then q.request.salt else None)
  }

  /** What the callers of the lookup get: peers as received, an immutable value if and only if the
      target is the hash of its bencoding, a mutable item if and only if its key has 32 bytes and
      its signature 64, the signature covers it and its key and salt hash to the target. Nothing
      else delivers anything. The lookup keeps what it delivered. */
  lemma AnswerDelivers(e: Env, q: Query, from: Address, m: Message, now: int)
    requires !IsRequest(m.body)
    ensures var b := m.body;
            var hashes := b.GetImmutableResponse? && e.crypto.sha1(Sized(b.v)) == q.request.target;
            var verifies := b.GetMutableResponse? &&
                            var item := ItemIn(q, b);
                            && |item.key| == 32 && e.crypto.isKey(item.key) && |item.signature| == 64
                            && e.crypto.verify(item.key, EncodeSignable(item.seqNo, item.value, item.salt), item.signature)
                            && e.crypto.sha1(if item.salt.Some? then item.key + item.salt.value else item.key) == q.request.target;
            var delivered := if b.GetPeersResponse? then [Peers(b.values)]
                             else if hashes then [Immutable(b.v)]
                             else if verifies then [Mutable(ItemIn(q, b))]
                             else [];
            && DeliveredValue(e, q, b) == (if delivered == [] then None else Some(delivered[0]))
            && AnswerQuery(e, q, from, m, now).responses == q.responses + delivered
  {
    hide Sized, EncodeSignable;
    AnswerKeepsResponses(e, q, from, m, now);
  }

  // --- one tick ---

  /** The tick delivers an answer, not read-only, to a request of the lookup `id`. */
  predicate Answered(s: State, packet: Option<Packet>, now: int, id: Id) {
    && packet.Some? && !IsRequest(packet.value.message.body) && !packet.value.message.readOnly
    && id in s.queries && packet.value.message.tid in s.queries[id].inflight
    && Receive(s.socket, Datagram(false, packet.value.message.tid, packet.value.from), now).1
  }

  /** The answer came in time from the port, and the IP unless that was 0.0.0.0, to which the
      request with its id went. */
  predicate CameFromAsked(s: Socket, tid: Tid, from: Address, now: int) {
    && from.port != 0 && tid in s.requests && now - s.requests[tid].sentAt < s.timeout
    && s.requests[tid].to.port == from.port && (s.requests[tid].to.ip == 0 || s.requests[tid].to.ip == from.ip)
  }

  /** The answer is handled by the lookup that sent the request: its callers get what it
      delivers, and if it delivers nothing and has an author, the author goes to the table. */
  lemma ResponseReachesLookup(e: Env, s: State, p: Packet, now: int, id: Id)
    requires ValidPacket(s, Some(p)) && Disjoint(s.queries, s.puts) && !IsRequest(p.message.body)
    requires !p.message.readOnly && id in s.queries && p.message.tid in s.queries[id].inflight
    ensures var (s', response) := HandleResponse(e, s, p, now);
            var q, m := s.queries[id], p.message;
            var delivered := DeliveredValue(e, q, m.body);
            && s'.queries == s.queries[id := AnswerQuery(e, q, p.from, m, now)] && s'.puts == s.puts
            && response == (if delivered.Some? then Some((q.request.target, delivered.value)) else None)
            && s'.table == (if delivered.Some? || m.body.ErrorMessage? then s.table
                            else TableAdd(s.table, Node(m.body.id, p.from, None, now), now).0)
  {
    hide AnswerQuery, DeliveredValue, TableAdd, NoDuplicates, FindPut, FindQuery;
    var q := s.queries[id];
    assert id in p.getOrder && WaitsFor(q, p.message.tid, false);
    forall j | j in s.puts ensures p.message.tid !in s.puts[j].inflight {
      assert SharesNoId(q.inflight, s.puts[j].inflight);
    }
    forall j | j in s.queries && j != id ensures p.message.tid !in s.queries[j].inflight {
      assert SharesNoId(q.inflight, s.queries[j].inflight);
    }
    assert FindPut(s.puts, p.putOrder, p.message.tid).None?;
    assert FindQuery(s.queries, p.getOrder, p.message.tid, false) == Some(id);
  }

  lemma MessageReachesLookup(e: Env, s: State, p: Packet, now: int, id: Id)
    requires Disjoint(s.queries, s.puts) && ValidPacket(s, Some(p)) && Answered(s, Some(p), now, id)
    ensures var (s', response) := HandleMessage(e, s, Some(p), now);
            var q := s.queries[id];
            var delivered := DeliveredValue(e, q, p.message.body);
            && s'.queries == s.queries[id := AnswerQuery(e, q, p.from, p.message, now)]
            && response == (if delivered.Some? then Some((q.request.target, delivered.value)) else None)
  {
    hide HandleResponse, Receive, AnswerQuery, DeliveredValue, Disjoint, ValidPacket;
    var sock := Receive(s.socket, Datagram(false, p.message.tid, p.from), now).0;
    ValidWithSocket(s, p, sock);
    ResponseReachesLookup(e, s.(socket := sock), p, now, id);
  }

  /** An answer that claims to be read-only teaches nothing: if it answers a primary request, one
      invalid response is counted for the lookup that sent it, and that is all. */
  lemma ReadOnlyIsOnlyCounted(e: Env, s: State, p: Packet, now: int, id: Id)
    requires ValidPacket(s, Some(p)) && Disjoint(s.queries, s.puts) && p.message.readOnly && id in s.queries
    requires forall i :: i in s.queries ==> forall t :: t in s.queries[i].primary ==> t in s.queries[i].inflight
    ensures var (s', response) := HandleResponse(e, s, p, now);
            var q, o := s.queries[id], s.queries[id].outcome;
            && response == None && s' == s.(queries := s'.queries) && s'.queries.Keys == s.queries.Keys
            && s'.queries[id] == (if p.message.tid in q.primary then q.(outcome := o.(invalidResponses := o.invalidResponses + 1)) else q)
  {
    hide NoDuplicates, FindQuery;
    var q, tid := s.queries[id], p.message.tid;
    assert id in p.getOrder;
    var found := FindQuery(s.queries, p.getOrder, tid, true);
    if tid in q.primary {
      forall j | j in s.queries && j != id ensures tid !in s.queries[j].primary {
        assert SharesNoId(q.inflight, s.queries[j].inflight);
      }
      assert WaitsFor(q, tid, true) && found == Some(id);
    }
  }

  /** The state in which a tick handles its message is in order. */
  lemma AtMessageInOrder(e: Env, s: State, i: TickInput)
    requires StateCounts(s) && EngineInv(s) && ValidInput(s, i) && YoungStep(s, Tick(e, s, i).0)
    ensures StateCounts(AtMessage(e, s, i)) && EngineInv(AtMessage(e, s, i))
  {
    hide StateCounts, EngineInv, Settle, Maintain, HandleMessage, Evolves, ValidInput;
    var s1 := Settle(e, s, i).0;
    var s2 := Maintain(e, s1, i.now);
    var s3 := HandleMessage(e, s2, i.packet, i.now).0;
    TickEvolves(e, s, i);
    MaintainEvolves(e, s1, i.now);
    HandleMessageEvolves(e, s2, i.packet, i.now);
    EvolvesSent(s.socket, s1.socket, i.now);
    EvolvesSent(s1.socket, s2.socket, i.now);
    EvolvesSent(s2.socket, s3.socket, i.now);
    SettleCounts(e, s, i);
    MaintainCounts(e, s1, i.now);
    SettleKeepsEngine(e, s, i);
    MaintainKeepsEngine(e, s1, i.now);
  }

  // --- the life of a node ---

  lemma LifeInOrder(e: Env, b: Birth, inputs: seq<Input>, i: Input)
    requires Life(e, b, inputs + [i])
    ensures var s := BeforeTick(e, Run(e, Newborn(b), inputs).0, i);
            StateCounts(AtMessage(e, s, i.tick)) && EngineInv(AtMessage(e, s, i.tick))
  {
    hide Run, Life, Accept, Iterate, Tick, AtMessage, ValidInput, StateCounts, EngineInv, YoungStep, NoOrphans, ValidRun, YoungRun, InTime, SentUpTo,
         Newborn;
    var a := Run(e, Newborn(b), inputs).0;
    var s := BeforeTick(e, a, i);
    LifeSplits(e, b, inputs, i);
    EveryStateIsSound(e, b, inputs);
    SoundParts(a, Clock(inputs, b.time));
    AcceptCounts(e, a, i.message, i.tick.now);
    AcceptKeepsEngine(e, a, i.message, i.tick.now);
    IterateRpc(e, a, i);
    AtMessageInOrder(e, s, i.tick);
  }

  lemma SoundParts(a: Loop, now: int)
    requires Sound(a, now)
    ensures StateCounts(a.rpc) && EngineInv(a.rpc)
  {
    hide StateCounts, EngineInv, NoOrphans, LookupSentBy;
  }

  /** Whenever a node accepts an answer to a request of a live lookup, the nodes the answer lists
      become candidates of that lookup, and the tick reports for its callers exactly the value
      the answer delivers. */
  lemma AcceptedAnswersTeach(e: Env, b: Birth, inputs: seq<Input>, i: Input, id: Id)
    requires Life(e, b, inputs + [i])
    requires var s := AtMessage(e, BeforeTick(e, Run(e, Newborn(b), inputs).0, i), i.tick);
             ValidPacket(s, i.tick.packet) && Answered(s, i.tick.packet, i.tick.now, id)
    ensures var s := AtMessage(e, BeforeTick(e, Run(e, Newborn(b), inputs).0, i), i.tick);
            var (s', report) := Tick(e, BeforeTick(e, Run(e, Newborn(b), inputs).0, i), i.tick);
            var q, p := s.queries[id], i.tick.packet.value;
            var delivered := DeliveredValue(e, q, p.message.body);
            && id in s'.queries
            && Teaches(q, s'.queries[id], p.message.body)
            && s'.queries[id] == AnswerQuery(e, q, p.from, p.message, i.tick.now)
            && report.response == (if delivered.Some? then Some((id, delivered.value)) else None)
  {
    hide Run, Life, Accept, Settle, Maintain, HandleMessage, ValidPacket, StateCounts, EngineInv, Answered, AnswerQuery, DeliveredValue, Teaches, Newborn;
    var s := AtMessage(e, BeforeTick(e, Run(e, Newborn(b), inputs).0, i), i.tick);
    AnsweredLives(s, i.tick.packet, i.tick.now, id);
    var p := i.tick.packet.value;
    LifeInOrder(e, b, inputs, i);
    CountsDisjoint(s);
    ShapeOf(s, id);
    MessageReachesLookup(e, s, p, i.tick.now, id);
    AnswerTeaches(e, s.queries[id], p.from, p.message, i.tick.now);
  }

  lemma AnsweredLives(s: State, packet: Option<Packet>, now: int, id: Id)
    requires Answered(s, packet, now, id)
    ensures packet.Some? && id in s.queries && !IsRequest(packet.value.message.body)
  {
  }

  lemma ShapeOf(s: State, id: Id)
    requires EngineInv(s) && id in s.queries
    ensures s.queries[id].request.target == id && StrictlySorted(id, s.queries[id].closest)
  {
    hide StrictlySorted, TableInv, CacheInv;
  }

  /** Whatever a lookup or a put of a node ever counts as an answer came in time from the address
      its request went to; and a lookup has visited that address. */
  lemma CountedCameFromAsked(e: Env, b: Birth, inputs: seq<Input>, i: Input, id: Id)
    requires Life(e, b, inputs + [i])
    requires var s := AtMessage(e, BeforeTick(e, Run(e, Newborn(b), inputs).0, i), i.tick);
             || PrimaryAnswer(s, i.tick.packet, i.tick.now, id) || Answered(s, i.tick.packet, i.tick.now, id)
             || AnswerFor(s, i.tick.packet, i.tick.now, id).Some?
    ensures var s := AtMessage(e, BeforeTick(e, Run(e, Newborn(b), inputs).0, i), i.tick);
            var p := i.tick.packet.value;
            && CameFromAsked(s.socket, p.message.tid, p.from, i.tick.now)
            && (AnswerFor(s, i.tick.packet, i.tick.now, id).None? ==>
                  id in s.queries && s.socket.requests[p.message.tid].to in s.queries[id].visited)
  {
    hide Run, Life, Accept, AtMessage, Receive, StateCounts, EngineInv, Newborn;
    var s := AtMessage(e, BeforeTick(e, Run(e, Newborn(b), inputs).0, i), i.tick);
    var p := i.tick.packet.value;
    DeliveredMeans(s.socket, Datagram(false, p.message.tid, p.from), i.tick.now);
    LifeInOrder(e, b, inputs, i);
    VisitedWhomAsked(s, id);
  }

  lemma VisitedWhomAsked(s: State, id: Id)
    requires StateCounts(s)
    ensures id in s.queries ==>
              forall t :: t in s.queries[id].primary || t in s.queries[id].inflight ==>
                            t in s.queries[id].inflight && (t in s.socket.requests ==> s.socket.requests[t].to in s.queries[id].visited)
  {
    hide Disjoint, PutCounts, Issued, NoDuplicates, Outstanding, Responded;
  }

  // --- the result of a store ---

  /** Over every run in which a new put waits, if the next tick reports that it was stored, then
      under its own target and at exactly as many nodes as acknowledgements were accepted for
      it, which is at least one. */
  lemma StoredAtIsAcknowledged(e: Env, a: Loop, inputs: seq<Input>, t: Id, i: Input, o: P.PutOutcome)
    requires StateCounts(a.rpc) && Waits(e, a, inputs, t) && IsNew(a.rpc.puts[t])
    requires var b := Run(e, a, inputs).0;
             ValidInput(BeforeTick(e, b, i), i.tick) && !AdmitsPut(b, i.message, t) && (t, PutOk(o)) in ReportOf(e, b, i).puts
    ensures o.target == t && o.storedAt == Acknowledged(AcceptedAnswers(e, a, inputs, t)) && o.storedAt > 0
  {
    hide Run, Waits, AcceptedAnswers, StateCounts, ValidInput, Accept, Tick, AdmitsPut, Acknowledged, ErrorsIn,
         P.Tally, P.PollCompletion, P.IsDone, P.Started, P.FitsBytes, PolledInTime;
    PutTallyIsExact(e, a, inputs, t);
    var b := Run(e, a, inputs).0;
    var s := BeforeTick(e, b, i);
    AcceptKeepsPut(e, b, i.message, i.tick.now, t);
    PutTarget(b.rpc, t);
    StoredIsPolled(e, s, i.tick, t, o);
    P.PollOutcomes(s.puts[t], s.socket, i.tick.now);
  }

  lemma PutTarget(s: State, t: Id)
    requires StateCounts(s) && t in s.puts
    ensures s.puts[t].target == t
  {
    hide Disjoint, QueryCounts, PutCounts;
  }

  lemma StoredIsPolled(e: Env, s: State, i: TickInput, t: Id, o: P.PutOutcome)
    requires ValidInput(s, i) && t in s.puts && (t, PutOk(o)) in Tick(e, s, i).1.puts
    ensures P.PollCompletion(s.puts[t], s.socket, i.now) == P.Stored(o)
  {
    hide TickPuts, TickGets, FinishAll, Maintain, HandleMessage, NoDuplicates, ExpectedDk, AverageSubnets, P.PollCompletion;
    var polled := TickPuts(s.puts, s.socket, i.putOrder, i.now);
    var (queries, sock, dones) := TickGets(s.queries, s.socket, i.getOrder, ExpectedDk(e, s.cache), AverageSubnets(s.cache), i.now);
    var s0 := s.(queries := queries, socket := sock);
    var failed := FinishAll(e, s0, dones, i.voteOrder, i.now).1;
    TickPutsReports(s.puts, s.socket, i.putOrder, i.now);
    TickGetsReports(s.queries, s.socket, i.getOrder, ExpectedDk(e, s.cache), AverageSubnets(s.cache), i.now);
    FinishAllReports(e, s0, dones, i.voteOrder, i.now);
    assert Tick(e, s, i).1.puts == polled + failed;
  }
}
