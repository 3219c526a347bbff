/**
  The query engine (src/rpc.rs) as a transition system: lookups and stores started by
  the caller, and `tick`, which advances them, maintains the routing table and handles
  at most one incoming message.

  Hash-map iteration orders, randomness, the clock (read once per step) and the received
  message are inputs of a step; the size estimate and the expected distance, which the
  source computes in floating point, are functions of the environment.
 */
module Rpc {
  import opened Ids
  import opened Bep42
  import opened Nodes
  import opened ClosestNodes
  import opened RoutingTable
  import opened Sockets
  import opened MutableItems
  import opened IterativeQueries
  import opened Lru
  import opened QueryCache
  import P = PutQueries

  const REFRESH_TABLE_INTERVAL: int := 15 * 60 * 1000
  const PING_TABLE_INTERVAL: int := 5 * 60 * 1000

  /** What never changes while the node runs; `overflowChecks` says how it was built. */
  datatype Env = Env(crypto: Crypto, bootstrap: seq<Address>, overflowChecks: bool,
                     sizeEstimate: (Id, seq<Node>) -> real, expectedDk: (real, int) -> nat)

  datatype State = State(table: Table, lastRefresh: int, lastPing: int, cache: Cache,
                         queries: map<Id, Query>, puts: map<Id, P.Put>, socket: Socket,
                         publicAddress: Option<Address>, firewalled: bool)

  /** A decoded KRPC message. */
  datatype Body =
    | PingRequest
    | FindNodeRequest(target: Id)
    | OtherRequest
    | PingResponse(id: Id)
    | FindNodeResponse(id: Id, found: seq<Node>)
    | GetPeersResponse(id: Id, token: Bytes, nodes: Option<seq<Node>>, values: seq<Address>)
    | GetImmutableResponse(id: Id, token: Bytes, nodes: Option<seq<Node>>, v: Bytes)
    | GetMutableResponse(id: Id, token: Bytes, nodes: Option<seq<Node>>, v: Bytes, k: Bytes, seqNo: int, sig: Bytes)
    | NoValuesResponse(id: Id, token: Bytes, nodes: Option<seq<Node>>)
    | NoMoreRecentResponse(id: Id, token: Bytes, nodes: Option<seq<Node>>, seqNo: int)
    | ErrorMessage(error: P.ErrorSpecific)

  datatype Message = Message(tid: Tid, readOnly: bool, requesterIp: Option<Address>, body: Body)

  predicate IsRequest(b: Body) {
    b.PingRequest? || b.FindNodeRequest? || b.OtherRequest?
  }

  /** `get_author_id`, for messages that reach the response handler. */
  function AuthorId(b: Body): Option<Id> {
    if b.ErrorMessage? || IsRequest(b) then None else Some(b.id)
  }

  /** `get_closer_nodes`. */
  function CloserNodes(b: Body): seq<Node> {
    match b
    case FindNodeResponse(_, found) => found
    case GetPeersResponse(_, _, Some(nodes), _) => nodes
    case GetImmutableResponse(_, _, Some(nodes), _) => nodes
    case GetMutableResponse(_, _, Some(nodes), _, _, _, _) => nodes
    case NoValuesResponse(_, _, Some(nodes)) => nodes
    case NoMoreRecentResponse(_, _, Some(nodes), _) => nodes
    case _ => []
  }

  predicate CarriesToken(b: Body) {
    b.GetPeersResponse? || b.GetImmutableResponse? || b.GetMutableResponse? || b.NoValuesResponse? || b.NoMoreRecentResponse?
  }

  // --- starting lookups and stores ---

  function ExpectedDk(e: Env, c: Cache): nat {
    e.expectedDk(c.respondersSum, c.respondersCount)
  }

  /** The candidates a new lookup starts from. */
  function Seeds(e: Env, s: State, target: Id): seq<Node> {
    ClosestSecure(s.table, target, ExpectedDk(e, s.cache), AverageSubnets(s.cache))
  }

  function CachedNodes(c: Cache, target: Id): seq<Node> {
    match Peek(c.entries, target)
    case None => []
    case Some(cached) => cached.nodes
  }

  /** The new lookup of `get` and the socket after its first requests. */
  function LaunchQuery(e: Env, s: State, request: GetRequest, extra: seq<Address>, now: int): (r: (Query, Socket)) {
    var seeds := Seeds(e, s, request.target);
    var asked := if seeds == [] || |seeds| < |e.bootstrap| then e.bootstrap else [];
    var (q, sock) := VisitAll(NewQuery(request, s.socket.sent), s.socket, asked + extra, now);
    VisitClosest(AddCandidates(AddCandidates(q, seeds), CachedNodes(s.cache, request.target)), sock, now)
  }

  /** `Rpc::get`: a live lookup for the target, of whatever kind, is left alone. */
  function StartLookup(e: Env, s: State, request: GetRequest, extra: seq<Address>, now: int): State {
    if request.target in s.queries then s
    else
      var (q, sock) := LaunchQuery(e, s, request, extra, now);
      s.(queries := s.queries[request.target := q], socket := sock,
         cache := s.cache.(entries := Promote(s.cache.entries, request.target)))
  }

  datatype Admission = Proceed | AlreadyInflight | Refuse(conflict: P.ConcurrencyError)

  /** The conflict check of `Rpc::put` against a put already in flight for the target. */
  function Admit(puts: map<Id, P.Put>, request: P.PutRequest): Admission {
    if request.PutMutable? && request.target in puts && puts[request.target].request.PutMutable? then
      var inflight := puts[request.target].request;
      if request.sig == inflight.sig then AlreadyInflight
      else if request.seqNo < inflight.seqNo then Refuse(P.NotMostRecent)
      else match request.cas
        case Some(cas) => if cas == inflight.seqNo then Proceed else Refuse(P.CasFailed)
        case None => Refuse(P.ConflictRisk)
    else Proceed
  }

  /** The cached nodes of the target can be used without a new lookup. */
  predicate UsableCache(c: Cache, target: Id, now: int) {
    exists n :: n in CachedNodes(c, target) && ValidToken(n, now)
  }

  /** `Rpc::put`: the new state, and the error returned to the caller if any. */
  function SubmitPut(e: Env, s: State, request: P.PutRequest, extra: seq<Node>, now: int): (r: (State, Option<P.PutError>)) {
    match Admit(s.puts, request)
    case AlreadyInflight => (s, None)
    case Refuse(conflict) => (s, Some(P.Concurrency(conflict)))
    case Proceed =>
      var target := request.target;
      var put := P.NewPut(request, extra, s.socket.sent);
      var s1 := s.(cache := s.cache.(entries := Promote(s.cache.entries, target)));
      if UsableCache(s.cache, target, now) then
        var (put', sock, _) := P.Start(put, s1.socket, CachedNodes(s.cache, target), now);
        (s1.(puts := s1.puts[target := put'], socket := sock), None)
      else
        var salt := if request.PutMutable? then request.salt else None;
        var s2 := StartLookup(e, s1, GetValue(target, None, salt), [], now);
        (s2.(puts := s2.puts[target := put]), None)
  }

  // --- tick: polling ---

  datatype PutResult = PutOk(outcome: P.PutOutcome) | PutErr(error: P.PutError)

  /** `GetQueryOutcome`. */
  datatype Done = Done(id: Id, closest: seq<Node>, outcome: Option<Outcome>)

  /** `tick_put_queries`. */
  function TickPuts(puts: map<Id, P.Put>, sock: Socket, order: seq<Id>, now: int): seq<(Id, PutResult)> {
    if order == [] then []
    else
      var rest := TickPuts(puts, sock, order[1..], now);
      if order[0] !in puts then rest
      else match P.PollCompletion(puts[order[0]], sock, now)
        case Pending => rest
        case Stored(outcome) => [(order[0], PutOk(outcome))] + rest
        case Failed(error) => [(order[0], PutErr(error))] + rest
  }

  function MakeDone(id: Id, q: Query, edk: nat, subnets: nat): Done {
    Done(id,
         if q.request.FindNode? then Top(q) else TakeUntilSecure(q.request.target, q.responders, edk, subnets),
         if q.request.GetValue? then Some(FinalOutcome(q)) else None)
  }

  /** `tick_get_queries`: the lookups and the socket afterwards, and those that are done. */
  function TickGets(queries: map<Id, Query>, sock: Socket, order: seq<Id>, edk: nat, subnets: nat, now: int)
    : (r: (map<Id, Query>, Socket, seq<Done>))
    decreases |order|
  {
    if order == [] then (queries, sock, [])
    else if order[0] !in queries then TickGets(queries, sock, order[1..], edk, subnets, now)
    else
      var (q, sock1, done) := TickQuery(queries[order[0]], sock, now);
      var (queries2, sock2, rest) := TickGets(queries[order[0] := q], sock1, order[1..], edk, subnets, now);
      (queries2, sock2, (if done then [MakeDone(order[0], q, edk, subnets)] else []) + rest)
  }

  // --- tick: finished lookups ---

  /** The order in which each finished lookup iterates its own hash map of votes. */
  type VoteOrders = map<Id, seq<Address>>

  function OrderFor(orders: VoteOrders, id: Id): seq<Address> {
    if id in orders then orders[id] else []
  }

  /** `update_address_votes_from_iterative_query`. */
  function UpdateVotes(s: State, q: Query, voteOrder: seq<Address>, now: int): State {
    match BestAddress(q.votes, voteOrder)
    case None => s
    case Some(address) =>
      if s.publicAddress == Some(address) then s
      else s.(publicAddress := Some(address), firewalled := true, socket := Request(s.socket, address, now))
  }

  function CacheEntry(e: Env, q: Query, closest: seq<Node>): Cached {
    Cached(closest, e.sizeEstimate(q.request.target, q.closest), e.sizeEstimate(q.request.target, q.responders),
           SubnetsCount(q.closest), q.request.FindNode?)
  }

  /** The put waiting for this lookup is started, or fails for want of nodes. */
  function StartWaitingPut(s: State, q: Query, done: Done, now: int): (r: (State, seq<(Id, PutResult)>)) {
    if q.request.FindNode? || done.id !in s.puts || P.Started(s.puts[done.id]) then (s, [])
    else
      var (put, sock, error) := P.Start(s.puts[done.id], s.socket, done.closest, now);
      (s.(puts := s.puts[done.id := put], socket := sock),
       if error.Some? then [(done.id, PutErr(error.value))] else [])
  }

  /** One round of the first loop of `cleanup_done_queries`. */
  function FinishOne(e: Env, s: State, done: Done, voteOrder: VoteOrders, now: int): (r: (State, seq<(Id, PutResult)>)) {
    if done.id !in s.queries then (s, [])
    else
      var q := s.queries[done.id];
      var s1 := UpdateVotes(s.(queries := s.queries - {done.id}), q, OrderFor(voteOrder, done.id), now);
      var s2 := s1.(cache := CacheQuery(s1.cache, q.request.target, q.closest, CacheEntry(e, q, done.closest)));
      StartWaitingPut(s2, q, done, now)
  }

  function FinishAll(e: Env, s: State, dones: seq<Done>, voteOrder: VoteOrders, now: int)
    : (r: (State, seq<(Id, PutResult)>))
    decreases |dones|
  {
    if dones == [] then (s, [])
    else
      var (s1, failed) := FinishOne(e, s, dones[0], voteOrder, now);
      var (s2, more) := FinishAll(e, s1, dones[1..], voteOrder, now);
      (s2, failed + more)
  }

  function PutIds(results: seq<(Id, PutResult)>): set<Id> {
    set r | r in results :: r.0
  }

  function DoneIds(dones: seq<Done>): set<Id> {
    set d | d in dones :: d.id
  }

  // --- tick: maintenance ---

  function RemoveAll(t: Table, nodes: seq<Node>, now: int): Table
    decreases |nodes|
  {
    if nodes == [] then t
    else RemoveAll(if IsStale(nodes[0], now) then TableRemove(t, nodes[0].id) else t, nodes[1..], now)
  }

  function PingAll(sock: Socket, nodes: seq<Node>, now: int): Socket
    decreases |nodes|
  {
    if nodes == [] then sock
    else
      PingAll(if !IsStale(nodes[0], now) && ShouldPing(nodes[0], now) then Request(sock, nodes[0].address, now) else sock,
              nodes[1..], now)
  }

  /** `try_switching_to_server_mode`. */
  function TryServerMode(s: State): State {
    if !s.socket.serverMode && !s.firewalled then s.(socket := s.socket.(serverMode := true)) else s
  }

  /** `ping_and_purge`. */
  function PingAndPurge(s: State, now: int): State {
    s.(lastPing := now, table := RemoveAll(s.table, AllNodes(s.table), now),
       socket := PingAll(s.socket, AllNodes(s.table), now))
  }

  /** `populate`. */
  function Populate(e: Env, s: State, now: int): State {
    var s := s.(lastRefresh := now);
    if e.bootstrap == [] then s else StartLookup(e, s, FindNode(s.table.id), [], now)
  }

  /** `periodic_node_maintenance`. */
  function Maintain(e: Env, s: State, now: int): State {
    var refresh := now - s.lastRefresh >= REFRESH_TABLE_INTERVAL;
    var populate := AllNodes(s.table) == [] || refresh;
    var s1 := if refresh then TryServerMode(s) else s;
    var s2 := if now - s.lastPing >= PING_TABLE_INTERVAL then PingAndPurge(s1, now) else s1;
    if populate then Populate(e, s2, now) else s2
  }

  // --- tick: one incoming message ---

  /** A datagram with everything its handling draws on. */
  datatype Packet = Packet(message: Message, from: Address, putOrder: seq<Id>, getOrder: seq<Id>,
                           randomId: Id, randomByte: bv8)

  /** `handle_request`, but for what the storage server answers. */
  function HandleRequest(e: Env, s: State, p: Packet, now: int): State {
    var s1 := if e.bootstrap == [] && p.message.body.FindNodeRequest?
              then s.(table := TableAdd(s.table, Node(p.message.body.target, p.from, None, now), now).0)
              else s;
    if s1.publicAddress != Some(p.from) || !p.message.body.PingRequest? then s1
    else
      var s2 := s1.(firewalled := false);
      if IsValidForIp(s2.table.id, p.from.ip) then s2
      else
        var newId := SecureId(p.randomId, p.from.ip, p.randomByte);
        var s3 := StartLookup(e, s2, FindNode(newId), [], now);
        s3.(table := Table(newId, map[]))
  }

  function FindPut(puts: map<Id, P.Put>, order: seq<Id>, tid: Tid): (r: Option<Id>)
    ensures r.Some? ==> r.value in puts && tid in puts[r.value].inflight
    ensures r.None? ==> forall id :: id in order && id in puts ==> tid !in puts[id].inflight
  {
    if order == [] then None
    else if order[0] in puts && tid in puts[order[0]].inflight then Some(order[0])
    else FindPut(puts, order[1..], tid)
  }

  /** Whether the lookup waits for `tid`; liveness pings count unless `primaryOnly`. */
  predicate WaitsFor(q: Query, tid: Tid, primaryOnly: bool) {
    if primaryOnly then tid in q.primary else tid in q.inflight
  }

  function FindQuery(queries: map<Id, Query>, order: seq<Id>, tid: Tid, primaryOnly: bool): (r: Option<Id>)
    ensures r.Some? ==> r.value in queries && WaitsFor(queries[r.value], tid, primaryOnly)
    ensures r.None? ==> forall id :: id in order && id in queries ==> !WaitsFor(queries[id], tid, primaryOnly)
  {
    if order == [] then None
    else if order[0] in queries && WaitsFor(queries[order[0]], tid, primaryOnly) then Some(order[0])
    else FindQuery(queries, order[1..], tid, primaryOnly)
  }

  function BumpInvalidResponse(o: Outcome): Outcome { o.(invalidResponses := o.invalidResponses + 1) }

  /** The counter a counted answer bumps. */
  function Bump(e: Env, q: Query, b: Body): Outcome {
    var o := q.outcome;
    match b
    case GetMutableResponse(_, _, _, v, k, seqNo, sig) =>
      (match MutableReply(e, q, b)
       case ItemOk(_) => o.(values := o.values + 1)
       case ItemErr(_) => o.(invalidValues := o.invalidValues + 1))
    case NoMoreRecentResponse(_, _, _, _) => o.(noMoreRecent := o.noMoreRecent + 1)
    case NoValuesResponse(_, _, _) => o.(noValues := o.noValues + 1)
    case ErrorMessage(_) => o.(krpcErrors := o.krpcErrors + 1)
    case _ => BumpInvalidResponse(o)
  }

  function MutableReply(e: Env, q: Query, b: Body): ItemResult
    requires b.GetMutableResponse?
  {
    FromDhtMessage(e.crypto, q.request.target, b.k, b.v, b.seqNo, b.sig,
                   if q.request.GetValue? then q.request.salt else None)
  }

  /** The value, if any, that the answer delivers to the callers of this lookup. */
  function DeliveredValue(e: Env, q: Query, b: Body): Option<Response> {
    match b
    case GetPeersResponse(_, _, _, values) => Some(Peers(values))
    case GetImmutableResponse(_, _, _, v) =>
      if ValidateImmutable(e.crypto, v, q.request.target) then Some(Immutable(v)) else None
    case GetMutableResponse(_, _, _, _, _, _, _) =>
      (match MutableReply(e, q, b)
       case ItemOk(item) => Some(Mutable(item))
       case ItemErr(_) => None)
    case _ => None
  }

  /** What an answer does to the lookup that waits for it. */
  function AnswerQuery(e: Env, q: Query, from: Address, m: Message, now: int): Query {
    var q1 := AddCandidates(q, CloserNodes(m.body));
    var q2 := if CarriesToken(m.body) then AddResponder(q1, Node(m.body.id, from, Some(m.body.token), now)) else q1;
    var q3 := if m.requesterIp.Some? then AddVote(q2, m.requesterIp.value) else q2;
    var q4 := if m.tid in q.primary && q.request.GetValue? then q3.(outcome := Bump(e, q, m.body)) else q3;
    match DeliveredValue(e, q, m.body)
    case None => q4
    case Some(response) => q4.(responses := q4.responses + [response])
  }

  function AnswerPut(put: P.Put, b: Body): P.Put {
    match b
    case PingResponse(_) => put.(storedAt := put.storedAt + 1)
    case ErrorMessage(error) => P.TakeError(put, error)
    case _ => put
  }

  /** `handle_response`. */
  function HandleResponse(e: Env, s: State, p: Packet, now: int): (r: (State, Option<(Id, Response)>)) {
    var m := p.message;
    if m.readOnly then
      match FindQuery(s.queries, p.getOrder, m.tid, true)
      case None => (s, None)
      case Some(id) =>
        var q := s.queries[id];
        (s.(queries := s.queries[id := q.(outcome := BumpInvalidResponse(q.outcome))]), None)
    else match FindPut(s.puts, p.putOrder, m.tid)
      case Some(id) => (s.(puts := s.puts[id := AnswerPut(s.puts[id], m.body)]), None)
      case None =>
        match FindQuery(s.queries, p.getOrder, m.tid, false)
        case None => (s, None)
        case Some(id) =>
          var q := s.queries[id];
          var s1 := s.(queries := s.queries[id := AnswerQuery(e, q, p.from, m, now)]);
          match DeliveredValue(e, q, m.body)
          case Some(response) => (s1, Some((q.request.target, response)))
          case None =>
            match AuthorId(m.body)
            case None => (s1, None)
            case Some(author) =>
              (s1.(table := TableAdd(s1.table, Node(author, p.from, None, now), now).0), None)
  }

  /** `handle_message`. */
  function HandleMessage(e: Env, s: State, packet: Option<Packet>, now: int): (r: (State, Option<(Id, Response)>)) {
    match packet
    case None => (s.(socket := Tidy(s.socket, now)), None)
    case Some(p) =>
      var (sock, delivered) := Receive(s.socket, Datagram(IsRequest(p.message.body), p.message.tid, p.from), now);
      var s1 := s.(socket := sock);
      if !delivered then (s1, None)
      else if IsRequest(p.message.body) then (HandleRequest(e, s1, p, now), None)
      else HandleResponse(e, s1, p, now)
  }

  // --- tick ---

  datatype TickInput = TickInput(now: int, putOrder: seq<Id>, getOrder: seq<Id>, voteOrder: VoteOrders,
                                 packet: Option<Packet>)

  /** `RpcTickReport`. */
  datatype Report = Report(gets: seq<Done>, puts: seq<(Id, PutResult)>, response: Option<(Id, Response)>)

  /** The state after polling and cleanup, before maintenance, with both lists of results. */
  function Settle(e: Env, s: State, i: TickInput): (r: (State, seq<Done>, seq<(Id, PutResult)>)) {
    var polled := TickPuts(s.puts, s.socket, i.putOrder, i.now);
    var (queries, sock, dones) := TickGets(s.queries, s.socket, i.getOrder, ExpectedDk(e, s.cache), AverageSubnets(s.cache), i.now);
    var (s1, failed) := FinishAll(e, s.(queries := queries, socket := sock), dones, i.voteOrder, i.now);
    (s1.(puts := s1.puts - PutIds(polled + failed)), dones, polled + failed)
  }

  /** `tick`. */
  function Tick(e: Env, s: State, i: TickInput): (r: (State, Report)) {
    var (s1, dones, results) := Settle(e, s, i);
    var (s2, response) := HandleMessage(e, Maintain(e, s1, i.now), i.packet, i.now);
    (s2, Report(dones, results, response))
  }

  // --- what can end the thread: a byte or vote count that overflows ---

  /** The answer raises a count that is already at its largest: a code counted 255 times for
      the put it answers, or an address with 65535 votes in the lookup it answers. */
  predicate AnswerOverflows(s: State, p: Packet) {
    var m := p.message;
    if m.readOnly then false
    else match FindPut(s.puts, p.putOrder, m.tid)
      case Some(id) => m.body.ErrorMessage? && P.CountOf(s.puts[id].errors, m.body.error.code) == 255
      case None =>
        match FindQuery(s.queries, p.getOrder, m.tid, false)
        case None => false
        case Some(id) => m.requesterIp.Some? && VotesFor(s.queries[id], m.requesterIp.value) == MAX_VOTES
  }

  /** The message received is delivered as an answer and overflows a count. */
  predicate MessageOverflows(s: State, packet: Option<Packet>, now: int) {
    packet.Some? && !IsRequest(packet.value.message.body) &&
    var p := packet.value;
    var (sock, delivered) := Receive(s.socket, Datagram(false, p.message.tid, p.from), now);
    delivered && AnswerOverflows(s.(socket := sock), p)
  }

  /** The state in which the tick handles its message. */
  function AtMessage(e: Env, s: State, i: TickInput): State {
    Maintain(e, Settle(e, s, i).0, i.now)
  }

  /** Where overflow is checked, the message of the tick overflows nothing. */
  predicate TallyFits(e: Env, s: State, i: TickInput) {
    e.overflowChecks ==> !MessageOverflows(AtMessage(e, s, i), i.packet, i.now)
  }

  // --- what can end the thread: the assertion of `PutQuery::start` ---

  /** A put waits, not yet started, for the lookup `id`, which is not a find_node lookup. */
  predicate WaitsToStart(s: State, id: Id) {
    id in s.queries && !s.queries[id].request.FindNode? && id in s.puts && !P.Started(s.puts[id])
  }

  /** `Rpc::put` hands `start` no more nodes than it takes. */
  predicate PutFits(s: State, request: P.PutRequest, now: int) {
    Admit(s.puts, request) == Proceed && UsableCache(s.cache, request.target, now) ==>
      |CachedNodes(s.cache, request.target)| <= P.MAX_CLOSEST
  }

  /** One round of `cleanup_done_queries` hands `start` no more nodes than it takes. */
  predicate FinishFits(s: State, done: Done) {
    WaitsToStart(s, done.id) ==> |done.closest| <= P.MAX_CLOSEST
  }

  /** No round of the loop of `cleanup_done_queries` fails the assertion, each in the state the
      rounds before it left. */
  predicate FinishAllSurvives(e: Env, s: State, dones: seq<Done>, voteOrder: VoteOrders, now: int)
    decreases |dones|
  {
    dones == [] ||
    (FinishFits(s, dones[0]) && FinishAllSurvives(e, FinishOne(e, s, dones[0], voteOrder, now).0, dones[1..], voteOrder, now))
  }

  /** `tick` runs to its end. */
  predicate TickSurvives(e: Env, s: State, i: TickInput) {
    var (queries, sock, dones) := TickGets(s.queries, s.socket, i.getOrder, ExpectedDk(e, s.cache), AverageSubnets(s.cache), i.now);
    && FinishAllSurvives(e, s.(queries := queries, socket := sock), dones, i.voteOrder, i.now)
    && TallyFits(e, s, i)
  }

  /** Every lookup the tick reports to a waiting put found at most 255 nodes, and no count
      overflows where that is checked. */
  ghost predicate TickFits(e: Env, s: State, i: TickInput) {
    (forall d :: d in Tick(e, s, i).1.gets ==> FinishFits(s, d)) && TallyFits(e, s, i)
  }

  /** The given orders enumerate the live queries, each once. */
  ghost predicate IsOrder(order: seq<Id>, keys: set<Id>) {
    NoDuplicates(order) && forall id: Id :: id in order <==> id in keys
  }

  ghost predicate ValidInput(s: State, i: TickInput) {
    IsOrder(i.putOrder, s.puts.Keys) && IsOrder(i.getOrder, s.queries.Keys)
  }

  function NewState(id: Id, timeout: nat, serverMode: bool, now: int): State {
    State(Table(id, map[]), now, now, EMPTY_CACHE, map[], map[], Socket(0, map[], timeout, serverMode, now), None, true)
  }
}
