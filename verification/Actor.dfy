/**
  The actor loop (src/dht.rs): callers' channels wait for the queries they started, and
  every iteration handles at most one caller message and one tick of the engine.

  A channel is a number. What the loop sends is collected in order, so that "exactly one
  final answer" can be counted.
 */
module Actor {
  import opened Ids
  import opened Nodes
  import opened RoutingTable
  import opened IterativeQueries
  import opened Rpc
  import opened RpcReports

  datatype SenderKind = WantsClosest | WantsPeers | WantsMutable | WantsDetailed | WantsImmutable

  datatype GetSender = GetSender(channel: nat, kind: SenderKind)

  datatype ActorMessage =
    | Put(put: P.PutRequest, channel: nat, extra: seq<Node>)
    | Get(get: GetRequest, sender: GetSender)
    | SeedRouting(nodes: seq<Node>)
    | Idle

  /** How a GET channel ends: with nodes, with diagnostics, or by being closed. */
  datatype GetFinal = ClosestNodesFound(nodes: seq<Node>) | DetailedOutcome(outcome: Outcome) | Closed

  datatype Sent =
    | Value(target: Id, channel: nat, response: Response)
    | GetAnswer(target: Id, channel: nat, final: GetFinal)
    | PutAnswer(target: Id, channel: nat, result: PutResult)

  datatype Loop = Loop(rpc: State, putSenders: map<Id, seq<nat>>, getSenders: map<Id, seq<GetSender>>)

  function PutWaiting(a: Loop, target: Id): seq<nat> {
    if target in a.putSenders then a.putSenders[target] else []
  }

  function GetWaiting(a: Loop, target: Id): seq<GetSender> {
    if target in a.getSenders then a.getSenders[target] else []
  }

  // --- one iteration ---

  predicate Fits(kind: SenderKind, r: Response) {
    match r
    case Peers(_) => kind == WantsPeers
    case Mutable(_) => kind == WantsMutable || kind == WantsDetailed
    case Immutable(_) => kind == WantsImmutable
  }

  /** `send` for one response to each of the given senders. */
  function Broadcast(target: Id, senders: seq<GetSender>, r: Response): seq<Sent> {
    if senders == [] then []
    else (if Fits(senders[0].kind, r) then [Value(target, senders[0].channel, r)] else []) + Broadcast(target, senders[1..], r)
  }

  /** The responses a lookup has already seen, sent to a caller that joins it. */
  function Replay(target: Id, sender: GetSender, responses: seq<Response>): seq<Sent> {
    if responses == [] then []
    else Broadcast(target, [sender], responses[0]) + Replay(target, sender, responses[1..])
  }

  function SeedAll(t: Table, nodes: seq<Node>, now: int): Table
    decreases |nodes|
  {
    if nodes == [] then t else SeedAll(TableAdd(t, nodes[0], now).0, nodes[1..], now)
  }

  /** The message half of an iteration. */
  function Accept(e: Env, a: Loop, m: ActorMessage, now: int): (r: (Loop, seq<Sent>)) {
    match m
    case Put(request, channel, extra) =>
      var (rpc, error) := SubmitPut(e, a.rpc, request, extra, now);
      var target := request.target;
      (match error
       case None => (a.(rpc := rpc, putSenders := a.putSenders[target := PutWaiting(a, target) + [channel]]), [])
       case Some(err) => (a.(rpc := rpc), [PutAnswer(target, channel, PutErr(err))]))
    case Get(request, sender) =>
      var target := request.target;
      var seen := if target in a.rpc.queries then a.rpc.queries[target].responses else [];
      (a.(rpc := StartLookup(e, a.rpc, request, [], now),
          getSenders := a.getSenders[target := GetWaiting(a, target) + [sender]]),
       Replay(target, sender, seen))
    case SeedRouting(nodes) => (a.(rpc := a.rpc.(table := SeedAll(a.rpc.table, nodes, now))), [])
    case Idle => (a, [])
  }

  function FinalOf(done: Done, kind: SenderKind): GetFinal {
    match kind
    case WantsClosest => ClosestNodesFound(done.closest)
    case WantsDetailed => DetailedOutcome(if done.outcome.Some? then done.outcome.value else NO_OUTCOME)
    case _ => Closed
  }

  function AnswerGets(done: Done, senders: seq<GetSender>): seq<Sent> {
    if senders == [] then []
    else [GetAnswer(done.id, senders[0].channel, FinalOf(done, senders[0].kind))] + AnswerGets(done, senders[1..])
  }

  function AnswerPuts(id: Id, result: PutResult, channels: seq<nat>): seq<Sent> {
    if channels == [] then []
    else [PutAnswer(id, channels[0], result)] + AnswerPuts(id, result, channels[1..])
  }

  function CloseGets(a: Loop, dones: seq<Done>): (r: (Loop, seq<Sent>))
    decreases |dones|
  {
    if dones == [] then (a, [])
    else
      var (a', rest) := CloseGets(a.(getSenders := a.getSenders - {dones[0].id}), dones[1..]);
      (a', AnswerGets(dones[0], GetWaiting(a, dones[0].id)) + rest)
  }

  function ClosePuts(a: Loop, results: seq<(Id, PutResult)>): (r: (Loop, seq<Sent>))
    decreases |results|
  {
    if results == [] then (a, [])
    else
      var (id, result) := results[0];
      var (a', rest) := ClosePuts(a.(putSenders := a.putSenders - {id}), results[1..]);
      (a', AnswerPuts(id, result, PutWaiting(a, id)) + rest)
  }

  /** The tick half of an iteration. */
  function Advance(e: Env, a: Loop, i: TickInput): (r: (Loop, seq<Sent>)) {
    var (rpc, report) := Tick(e, a.rpc, i);
    var a1 := a.(rpc := rpc);
    var values := match report.response
                  case None => []
                  case Some((target, response)) => Broadcast(target, GetWaiting(a1, target), response);
    var (a2, gets) := CloseGets(a1, report.gets);
    var (a3, puts) := ClosePuts(a2, report.puts);
    (a3, values + gets + puts)
  }

  datatype Input = Input(message: ActorMessage, tick: TickInput)

  function Iterate(e: Env, a: Loop, i: Input): (r: (Loop, seq<Sent>)) {
    var (a1, first) := Accept(e, a, i.message, i.tick.now);
    var (a2, second) := Advance(e, a1, i.tick);
    (a2, first + second)
  }

  /** Everything sent over a run, and the state it ends in. */
  function Run(e: Env, a: Loop, inputs: seq<Input>): (r: (Loop, seq<Sent>)) {
    if inputs == [] then (a, [])
    else
      var (a1, sent) := Run(e, a, inputs[..|inputs| - 1]);
      var (a2, more) := Iterate(e, a1, inputs[|inputs| - 1]);
      (a2, sent + more)
  }

  /** No call of `PutQuery::start` in this iteration gets more nodes than its assertion allows,
      and where overflow is checked nothing overflows. */
  ghost predicate IterationFits(e: Env, a: Loop, i: Input) {
    && (i.message.Put? ==> PutFits(a.rpc, i.message.put, i.tick.now))
    && TickFits(e, Accept(e, a, i.message, i.tick.now).0.rpc, i.tick)
  }

  /** The hash-map orders enumerate the maps they iterate, and nothing ends the thread. */
  ghost predicate ValidIteration(e: Env, a: Loop, i: Input) {
    ValidInput(Accept(e, a, i.message, i.tick.now).0.rpc, i.tick) && IterationFits(e, a, i)
  }

  /** Every iteration is valid. */
  ghost predicate ValidRun(e: Env, a: Loop, inputs: seq<Input>) {
    inputs != [] ==>
      var init, last := inputs[..|inputs| - 1], inputs[|inputs| - 1];
      && ValidRun(e, a, init)
      && ValidIteration(e, Run(e, a, init).0, last)
  }

  // --- no caller is orphaned ---

  /** A waiting channel always has a live query that will answer it. */
  predicate NoOrphans(a: Loop) {
    a.putSenders.Keys <= a.rpc.puts.Keys && a.getSenders.Keys <= a.rpc.queries.Keys
  }

  /** How often `channel` got a final put answer for `target`. */
  function PutsAnswered(sent: seq<Sent>, target: Id, channel: nat): nat {
    if sent == [] then 0
    else PutsAnswered(sent[..|sent| - 1], target, channel) + PutFinals(sent[|sent| - 1], target, channel)
  }

  function PutFinals(x: Sent, target: Id, channel: nat): nat {
    if x.PutAnswer? && x.target == target && x.channel == channel then 1 else 0
  }

  /** How often `channel` got a final lookup answer for `target`. */
  function GetsAnswered(sent: seq<Sent>, target: Id, channel: nat): nat {
    if sent == [] then 0
    else GetsAnswered(sent[..|sent| - 1], target, channel) + GetFinals(sent[|sent| - 1], target, channel)
  }

  function GetFinals(x: Sent, target: Id, channel: nat): nat {
    if x.GetAnswer? && x.target == target && x.channel == channel then 1 else 0
  }

  /** How often `channel` waits among the given put or get senders. */
  function Occurs(channels: seq<nat>, channel: nat): nat {
    if channels == [] then 0
    else Occurs(channels[..|channels| - 1], channel) + (if channels[|channels| - 1] == channel then 1 else 0)
  }

  function SenderOccurs(senders: seq<GetSender>, channel: nat): nat {
    if senders == [] then 0
    else SenderOccurs(senders[..|senders| - 1], channel) + (if senders[|senders| - 1].channel == channel then 1 else 0)
  }

  /** How often callers handed in `channel` for `target`. */
  function PutsSubmitted(inputs: seq<Input>, target: Id, channel: nat): nat {
    if inputs == [] then 0
    else PutsSubmitted(inputs[..|inputs| - 1], target, channel) + PutOf(inputs[|inputs| - 1].message, target, channel)
  }

  function PutOf(m: ActorMessage, target: Id, channel: nat): nat {
    if m.Put? && m.put.target == target && m.channel == channel then 1 else 0
  }

  function GetsSubmitted(inputs: seq<Input>, target: Id, channel: nat): nat {
    if inputs == [] then 0
    else GetsSubmitted(inputs[..|inputs| - 1], target, channel) + GetOf(inputs[|inputs| - 1].message, target, channel)
  }

  function GetOf(m: ActorMessage, target: Id, channel: nat): nat {
    if m.Get? && m.get.target == target && m.sender.channel == channel then 1 else 0
  }

  lemma {:induction false} AnsweredConcat(a: seq<Sent>, b: seq<Sent>, t: Id, c: nat)
    ensures PutsAnswered(a + b, t, c) == PutsAnswered(a, t, c) + PutsAnswered(b, t, c)
    ensures GetsAnswered(a + b, t, c) == GetsAnswered(a, t, c) + GetsAnswered(b, t, c)
  {
    hide PutFinals, GetFinals;
    if b == [] {
      assert a + b == a;
    } else {
      AnsweredConcat(a, b[..|b| - 1], t, c);
      assert (a + b)[..|a + b| - 1] == a + b[..|b| - 1];
    }
  }

  lemma {:induction false} OccursConcat(a: seq<nat>, b: seq<nat>, c: nat)
    ensures Occurs(a + b, c) == Occurs(a, c) + Occurs(b, c)
  {
    if b == [] {
      assert a + b == a;
    } else {
      OccursConcat(a, b[..|b| - 1], c);
      assert (a + b)[..|a + b| - 1] == a + b[..|b| - 1];
    }
  }

  lemma {:induction false} SenderOccursConcat(a: seq<GetSender>, b: seq<GetSender>, c: nat)
    ensures SenderOccurs(a + b, c) == SenderOccurs(a, c) + SenderOccurs(b, c)
  {
    if b == [] {
      assert a + b == a;
    } else {
      SenderOccursConcat(a, b[..|b| - 1], c);
      assert (a + b)[..|a + b| - 1] == a + b[..|b| - 1];
    }
  }

  /** Prefixing one sent item adds exactly its own contribution. */
  lemma AnsweredCons(x: Sent, rest: seq<Sent>, t: Id, c: nat)
    ensures PutsAnswered([x] + rest, t, c) == PutFinals(x, t, c) + PutsAnswered(rest, t, c)
    ensures GetsAnswered([x] + rest, t, c) == GetFinals(x, t, c) + GetsAnswered(rest, t, c)
  {
    hide PutFinals, GetFinals;
    AnsweredConcat([x], rest, t, c);
    assert [x][..0] == [];
  }

  lemma {:induction false} BroadcastIsNotFinal(target: Id, senders: seq<GetSender>, r: Response, t: Id, c: nat)
    ensures PutsAnswered(Broadcast(target, senders, r), t, c) == 0
    ensures GetsAnswered(Broadcast(target, senders, r), t, c) == 0
  {
    if senders != [] {
      BroadcastIsNotFinal(target, senders[1..], r, t, c);
      AnsweredCons(Value(target, senders[0].channel, r), Broadcast(target, senders[1..], r), t, c);
      assert [] + Broadcast(target, senders[1..], r) == Broadcast(target, senders[1..], r);
    }
  }

  lemma {:induction false} ReplayIsNotFinal(target: Id, sender: GetSender, responses: seq<Response>, t: Id, c: nat)
    ensures PutsAnswered(Replay(target, sender, responses), t, c) == 0
    ensures GetsAnswered(Replay(target, sender, responses), t, c) == 0
  {
    hide Broadcast;
    if responses != [] {
      BroadcastIsNotFinal(target, [sender], responses[0], t, c);
      ReplayIsNotFinal(target, sender, responses[1..], t, c);
      AnsweredConcat(Broadcast(target, [sender], responses[0]), Replay(target, sender, responses[1..]), t, c);
    }
  }

  lemma {:induction false} AnswerGetsAnswers(done: Done, senders: seq<GetSender>, t: Id, c: nat)
    ensures GetsAnswered(AnswerGets(done, senders), t, c) == if done.id == t then SenderOccurs(senders, c) else 0
    ensures PutsAnswered(AnswerGets(done, senders), t, c) == 0
  {
    hide FinalOf;
    if senders != [] {
      var x := GetAnswer(done.id, senders[0].channel, FinalOf(done, senders[0].kind));
      AnswerGetsAnswers(done, senders[1..], t, c);
      AnsweredCons(x, AnswerGets(done, senders[1..]), t, c);
      assert senders == [senders[0]] + senders[1..];
      SenderOccursConcat([senders[0]], senders[1..], c);
      assert [senders[0]][..0] == [];
    }
  }

  lemma {:induction false} AnswerPutsAnswers(id: Id, result: PutResult, channels: seq<nat>, t: Id, c: nat)
    ensures PutsAnswered(AnswerPuts(id, result, channels), t, c) == if id == t then Occurs(channels, c) else 0
    ensures GetsAnswered(AnswerPuts(id, result, channels), t, c) == 0
  {
    if channels != [] {
      AnswerPutsAnswers(id, result, channels[1..], t, c);
      AnsweredCons(PutAnswer(id, channels[0], result), AnswerPuts(id, result, channels[1..]), t, c);
      assert channels == [channels[0]] + channels[1..];
      OccursConcat([channels[0]], channels[1..], c);
      assert [channels[0]][..0] == [];
    }
  }

  /** Closing lookups answers exactly the channels that waited for them. */
  lemma {:induction false} CloseGetsConserves(a: Loop, dones: seq<Done>, t: Id, c: nat)
    ensures var (a', sent) := CloseGets(a, dones);
            && a' == a.(getSenders := a.getSenders - DoneIds(dones))
            && SenderOccurs(GetWaiting(a', t), c) + GetsAnswered(sent, t, c) == SenderOccurs(GetWaiting(a, t), c)
            && PutsAnswered(sent, t, c) == 0
    decreases |dones|
  {
    hide AnswerGets, DoneIds, SenderOccurs;
    if dones == [] {
      EmptyDoneIds();
      assert a.getSenders - {} == a.getSenders;
    } else {
      var b := a.(getSenders := a.getSenders - {dones[0].id});
      var first := AnswerGets(dones[0], GetWaiting(a, dones[0].id));
      CloseGetsConserves(b, dones[1..], t, c);
      AnswerGetsAnswers(dones[0], GetWaiting(a, dones[0].id), t, c);
      AnsweredConcat(first, CloseGets(b, dones[1..]).1, t, c);
      DoneIdsSplit(dones);
      assert a.getSenders - {dones[0].id} - DoneIds(dones[1..]) == a.getSenders - DoneIds(dones);
      EmptyOccurs(c);
    }
  }

  lemma EmptyOccurs(c: nat)
    ensures Occurs([], c) == 0 && SenderOccurs([], c) == 0
  {
  }

  lemma DoneIdsSplit(dones: seq<Done>)
    requires dones != []
    ensures DoneIds(dones) == {dones[0].id} + DoneIds(dones[1..])
  {
    assert dones == [dones[0]] + dones[1..];
  }

  lemma {:induction false} ClosePutsConserves(a: Loop, results: seq<(Id, PutResult)>, t: Id, c: nat)
    ensures var (a', sent) := ClosePuts(a, results);
            && a' == a.(putSenders := a.putSenders - PutIds(results))
            && Occurs(PutWaiting(a', t), c) + PutsAnswered(sent, t, c) == Occurs(PutWaiting(a, t), c)
            && GetsAnswered(sent, t, c) == 0
    decreases |results|
  {
    hide AnswerPuts, PutIds, Occurs;
    PutIdsSplit(results);
    if results == [] {
      assert a.putSenders - {} == a.putSenders;
    } else {
      var (id, result) := results[0];
      var b := a.(putSenders := a.putSenders - {id});
      var first := AnswerPuts(id, result, PutWaiting(a, id));
      ClosePutsConserves(b, results[1..], t, c);
      AnswerPutsAnswers(id, result, PutWaiting(a, id), t, c);
      AnsweredConcat(first, ClosePuts(b, results[1..]).1, t, c);
      assert a.putSenders - {id} - PutIds(results[1..]) == a.putSenders - PutIds(results);
      EmptyOccurs(c);
    }
  }

  lemma PutIdsSplit(results: seq<(Id, PutResult)>)
    ensures results == [] ==> PutIds(results) == {}
    ensures results != [] ==> PutIds(results) == {results[0].0} + PutIds(results[1..])
  {
    if results != [] { assert results == [results[0]] + results[1..]; }
  }

  /** An accepted put leaves a live put query; a refused one changes no query. */
  lemma SubmitPutKeys(e: Env, s: State, request: P.PutRequest, extra: seq<Node>, now: int)
    ensures var (s', error) := SubmitPut(e, s, request, extra, now);
            && s.queries.Keys <= s'.queries.Keys
            && s.puts.Keys <= s'.puts.Keys
            && (error.None? ==> request.target in s'.puts)
            && (error.Some? ==> s' == s && error.value.Concurrency?)
  {
    hide StartLookup, P.Start, UsableCache, CachedNodes;
    var s1 := s.(cache := s.cache.(entries := Lru.Promote(s.cache.entries, request.target)));
    var salt := if request.PutMutable? then request.salt else None;
    LookupOnlyAdds(e, s1, GetValue(request.target, None, salt), [], now);
  }

  lemma OccursSnoc(channels: seq<nat>, x: nat, senders: seq<GetSender>, y: GetSender, c: nat)
    ensures Occurs(channels + [x], c) == Occurs(channels, c) + (if x == c then 1 else 0)
    ensures SenderOccurs(senders + [y], c) == SenderOccurs(senders, c) + (if y.channel == c then 1 else 0)
  {
    assert (channels + [x])[..|channels|] == channels;
    assert (senders + [y])[..|senders|] == senders;
  }

  /** What one iteration half owes to channel `c` of target `t`: waiting plus answered. */
  ghost predicate Conserves(a: Loop, a': Loop, sent: seq<Sent>, t: Id, c: nat, newPuts: nat, newGets: nat) {
    && Occurs(PutWaiting(a', t), c) + PutsAnswered(sent, t, c) == Occurs(PutWaiting(a, t), c) + newPuts
    && SenderOccurs(GetWaiting(a', t), c) + GetsAnswered(sent, t, c) == SenderOccurs(GetWaiting(a, t), c) + newGets
  }

  lemma AcceptPutConserves(e: Env, a: Loop, m: ActorMessage, now: int, t: Id, c: nat)
    requires NoOrphans(a) && m.Put?
    ensures var (a', sent) := Accept(e, a, m, now);
            NoOrphans(a') && Conserves(a, a', sent, t, c, PutOf(m, t, c), GetOf(m, t, c))
  {
    hide SubmitPut, Occurs, SenderOccurs, PutsAnswered, GetsAnswered;
    NothingSent(t, c);
    SubmitPutKeys(e, a.rpc, m.put, m.extra, now);
    var error := SubmitPut(e, a.rpc, m.put, m.extra, now).1;
    if error.Some? {
      var x := PutAnswer(m.put.target, m.channel, PutErr(error.value));
      AnsweredCons(x, [], t, c);
      assert [x] + [] == [x];
    } else {
      OccursSnoc(PutWaiting(a, m.put.target), m.channel, [], GetSender(0, WantsClosest), c);
    }
  }

  lemma AcceptGetConserves(e: Env, a: Loop, m: ActorMessage, now: int, t: Id, c: nat)
    requires NoOrphans(a) && m.Get?
    ensures var (a', sent) := Accept(e, a, m, now);
            NoOrphans(a') && Conserves(a, a', sent, t, c, PutOf(m, t, c), GetOf(m, t, c))
  {
    hide StartLookup, Replay, Occurs, SenderOccurs, PutsAnswered, GetsAnswered;
    var target := m.get.target;
    LookupOnlyAdds(e, a.rpc, m.get, [], now);
    var seen := if target in a.rpc.queries then a.rpc.queries[target].responses else [];
    ReplayIsNotFinal(target, m.sender, seen, t, c);
    OccursSnoc([], 0, GetWaiting(a, target), m.sender, c);
  }

  lemma AcceptConserves(e: Env, a: Loop, m: ActorMessage, now: int, t: Id, c: nat)
    requires NoOrphans(a)
    ensures var (a', sent) := Accept(e, a, m, now);
            NoOrphans(a') && Conserves(a, a', sent, t, c, PutOf(m, t, c), GetOf(m, t, c))
  {
    hide SubmitPut, StartLookup, SeedAll, Replay, Occurs, SenderOccurs, PutsAnswered, GetsAnswered;
    NothingSent(t, c);
    match m
    case Put(_, _, _) => AcceptPutConserves(e, a, m, now, t, c);
    case Get(_, _) => AcceptGetConserves(e, a, m, now, t, c);
    case SeedRouting(_) =>
    case Idle =>
  }

  lemma AdvanceConserves(e: Env, a: Loop, i: TickInput, t: Id, c: nat)
    requires NoOrphans(a) && ValidInput(a.rpc, i)
    ensures var (a', sent) := Advance(e, a, i);
            NoOrphans(a') && Conserves(a, a', sent, t, c, 0, 0)
  {
    hide Tick, CloseGets, ClosePuts, Broadcast, ValidInput, DoneIds, PutIds, Occurs, SenderOccurs, PutsAnswered, GetsAnswered;
    TickReports(e, a.rpc, i);
    var (rpc, report) := Tick(e, a.rpc, i);
    var a1 := a.(rpc := rpc);
    var values := match report.response
                  case None => []
                  case Some((target, response)) => Broadcast(target, GetWaiting(a1, target), response);
    NothingSent(t, c);
    if report.response.Some? {
      BroadcastIsNotFinal(report.response.value.0, GetWaiting(a1, report.response.value.0), report.response.value.1, t, c);
    }
    var (a2, gets) := CloseGets(a1, report.gets);
    var (a3, puts) := ClosePuts(a2, report.puts);
    CloseGetsConserves(a1, report.gets, t, c);
    ClosePutsConserves(a2, report.puts, t, c);
    AnsweredConcat(values + gets, puts, t, c);
    AnsweredConcat(values, gets, t, c);
  }

  lemma NothingSent(t: Id, c: nat)
    ensures PutsAnswered([], t, c) == 0 && GetsAnswered([], t, c) == 0
  {
  }

  /** In every run, every waiting put channel has a live put query and every waiting get
      channel a live lookup; and for every target each channel handed in is either still
      waiting or answered, as often as it was handed in: none is lost, none answered twice. */
  lemma {:induction false} NoCallerIsOrphaned(e: Env, a: Loop, inputs: seq<Input>, t: Id, c: nat)
    requires NoOrphans(a) && ValidRun(e, a, inputs)
    ensures var (a', sent) := Run(e, a, inputs);
            && NoOrphans(a')
            && Occurs(PutWaiting(a', t), c) + PutsAnswered(sent, t, c) ==
               Occurs(PutWaiting(a, t), c) + PutsSubmitted(inputs, t, c)
            && SenderOccurs(GetWaiting(a', t), c) + GetsAnswered(sent, t, c) ==
               SenderOccurs(GetWaiting(a, t), c) + GetsSubmitted(inputs, t, c)
  {
    hide NoOrphans, Accept, Advance, ValidInput, PutWaiting, GetWaiting, Occurs, SenderOccurs, PutsAnswered, GetsAnswered;
    NothingSent(t, c);
    if inputs != [] {
      var init, last := inputs[..|inputs| - 1], inputs[|inputs| - 1];
      var (a1, sent) := Run(e, a, init);
      NoCallerIsOrphaned(e, a, init, t, c);
      var (b, first) := Accept(e, a1, last.message, last.tick.now);
      var (a2, second) := Advance(e, b, last.tick);
      AcceptConserves(e, a1, last.message, last.tick.now, t, c);
      AdvanceConserves(e, b, last.tick, t, c);
      AnsweredConcat(sent, first + second, t, c);
      AnsweredConcat(first, second, t, c);
    }
  }

  /** Once no put query is live for a target, every caller that ever put to it has had exactly
      as many answers as it asked for; the same for lookups and GET callers. */
  lemma EveryCallerAnsweredOnce(e: Env, s: State, inputs: seq<Input>, t: Id, c: nat)
    requires ValidRun(e, Loop(s, map[], map[]), inputs)
    ensures var (a', sent) := Run(e, Loop(s, map[], map[]), inputs);
            && (t !in a'.rpc.puts ==> PutsAnswered(sent, t, c) == PutsSubmitted(inputs, t, c))
            && (t !in a'.rpc.queries ==> GetsAnswered(sent, t, c) == GetsSubmitted(inputs, t, c))
  {
    hide Run, ValidRun;
    NoCallerIsOrphaned(e, Loop(s, map[], map[]), inputs, t, c);
  }
}
