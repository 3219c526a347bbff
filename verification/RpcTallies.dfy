/**
  The tally of a put is exact: over every run in which it waits, `stored_at` is the number of
  acknowledgements accepted for its ids and `errors` the tally of the errors accepted for them.
  That tally is their histogram if and only if no code came more than 255 times; the majority
  rule judges what the contacted nodes really answered in any case.
 */
module RpcTallies {
  import opened Ids
  import opened Nodes
  import opened RoutingTable
  import opened Sockets
  import opened IterativeQueries
  import opened QueryCache
  import opened Rpc
  import opened RpcReports
  import opened RpcSockets
  import opened RpcLiveness
  import opened RpcPuts
  import opened RpcCounts
  import opened RpcOutcomes
  import opened Actor

  /** The answer accepted for the put on `t`, if any. Answers that claim to be read-only are
      thrown away before puts are considered. */
  function AnswerFor(s: State, packet: Option<Packet>, now: int, t: Id): Option<Body> {
    if && packet.Some? && t in s.puts && !IsRequest(packet.value.message.body) && !packet.value.message.readOnly
       && packet.value.message.tid in s.puts[t].inflight
       && Receive(s.socket, Datagram(false, packet.value.message.tid, packet.value.from), now).1
    then Some(packet.value.message.body) else None
  }

  /** `p` is `q` with one more answer, or none. */
  predicate Tallied(q: P.Put, p: P.Put, answer: Option<Body>) {
    && p.request == q.request
    && p.storedAt == q.storedAt + (if answer.Some? && answer.value.PingResponse? then 1 else 0)
    && (if answer.Some? && answer.value.ErrorMessage?
        then p.errors == P.RecordError(q.errors, answer.value.error) && p.received == q.received + [answer.value.error]
        else p.errors == q.errors && p.received == q.received)
  }

  lemma ResponseReachesPut(e: Env, s: State, p: Packet, now: int, t: Id)
    requires ValidPacket(s, Some(p)) && Disjoint(s.queries, s.puts) && t in s.puts
    ensures var s' := HandleResponse(e, s, p, now).0;
            && t in s'.puts
            && Tallied(s.puts[t], s'.puts[t],
                       if !p.message.readOnly && p.message.tid in s.puts[t].inflight then Some(p.message.body) else None)
  {
    hide AnswerQuery, DeliveredValue, TableAdd, BumpInvalidResponse, ValidPacket, Disjoint, FindPut, FindQuery, P.RecordError;
    PutIsFound(s, p, t);
  }

  lemma PutIsFound(s: State, p: Packet, t: Id)
    requires ValidPacket(s, Some(p)) && Disjoint(s.queries, s.puts) && t in s.puts
    ensures FindPut(s.puts, p.putOrder, p.message.tid) == Some(t) <==> p.message.tid in s.puts[t].inflight
  {
    hide NoDuplicates, FindPut;
    var put := FindPut(s.puts, p.putOrder, p.message.tid);
    assert t in p.putOrder;
    if p.message.tid in s.puts[t].inflight {
      forall j | j in s.puts && j != t ensures p.message.tid !in s.puts[j].inflight {
        assert SharesNoId(s.puts[t].inflight, s.puts[j].inflight);
      }
    }
  }

  lemma MessageTallies(e: Env, s: State, packet: Option<Packet>, now: int, t: Id)
    requires Disjoint(s.queries, s.puts) && ValidPacket(s, packet) && t in s.puts
    ensures var s' := HandleMessage(e, s, packet, now).0;
            t in s'.puts && Tallied(s.puts[t], s'.puts[t], AnswerFor(s, packet, now, t))
  {
    hide HandleRequest, HandleResponse, Receive, Tidy, Disjoint, NoDuplicates, P.RecordError;
    if packet.Some? {
      var p := packet.value;
      var (sock, delivered) := Receive(s.socket, Datagram(IsRequest(p.message.body), p.message.tid, p.from), now);
      RequestOnlyAdds(e, s.(socket := sock), p, now);
      ResponseReachesPut(e, s.(socket := sock), p, now, t);
    }
  }

  lemma SettleKeepsTally(e: Env, s: State, i: TickInput, t: Id)
    requires t in s.puts && t in Settle(e, s, i).0.puts
    ensures var s' := Settle(e, s, i).0; s'.puts[t] == s.puts[t].(inflight := s'.puts[t].inflight)
  {
    hide TickPuts, TickGets, FinishAll, ExpectedDk, AverageSubnets;
    var (queries, sock, dones) := TickGets(s.queries, s.socket, i.getOrder, ExpectedDk(e, s.cache), AverageSubnets(s.cache), i.now);
    FinishAllKeepsTally(e, s.(queries := queries, socket := sock), dones, i.voteOrder, i.now, t);
  }

  /** One tick that does not report the put tallies exactly the answer it accepted for it. */
  lemma TickTallies(e: Env, s: State, i: TickInput, t: Id)
    requires StateCounts(s) && ValidInput(s, i) && YoungStep(s, Tick(e, s, i).0)
    requires t in s.puts && t !in PutIds(Tick(e, s, i).1.puts)
    requires ValidPacket(AtMessage(e, s, i), i.packet)
    ensures var s' := Tick(e, s, i).0;
            t in s'.puts && Tallied(s.puts[t], s'.puts[t], AnswerFor(AtMessage(e, s, i), i.packet, i.now, t))
  {
    hide CountsInv, Settle, Maintain, HandleMessage, Evolves, ValidInput, AnswerFor, ValidPacket, PutIds, P.RecordError;
    var s1 := Settle(e, s, i).0;
    var s2 := Maintain(e, s1, i.now);
    var s3 := HandleMessage(e, s2, i.packet, i.now).0;
    TickEvolves(e, s, i);
    MaintainEvolves(e, s1, i.now);
    HandleMessageEvolves(e, s2, i.packet, i.now);
    EvolvesSent(s.socket, s1.socket, i.now);
    EvolvesSent(s1.socket, s2.socket, i.now);
    EvolvesSent(s2.socket, s3.socket, i.now);
    SettleReports(e, s, i);
    SettleCounts(e, s, i);
    SettleKeepsTally(e, s, i, t);
    MaintainCounts(e, s1, i.now);
    MaintainOnlyAdds(e, s1, i.now);
    CountsDisjoint(s2);
    MessageTallies(e, s2, i.packet, i.now, t);
  }

  lemma CountsDisjoint(s: State)
    requires StateCounts(s)
    ensures Disjoint(s.queries, s.puts)
  {
    hide Disjoint, QueryCounts, PutCounts;
  }

  // --- runs ---

  /** Throughout the run the put on `t` is neither reported nor displaced. */
  ghost predicate Waits(e: Env, a: Loop, inputs: seq<Input>, t: Id) {
    && t in a.rpc.puts
    && (inputs != [] ==>
          var init, i := inputs[..|inputs| - 1], inputs[|inputs| - 1];
          var b := Run(e, a, init).0;
          var s := BeforeTick(e, b, i);
          && Waits(e, a, init, t)
          && !AdmitsPut(b, i.message, t)
          && ValidIteration(e, b, i) && ValidPacket(AtMessage(e, s, i.tick), i.tick.packet)
          && YoungStep(b.rpc, s) && YoungStep(s, Iterate(e, b, i).0.rpc)
          && t !in PutIds(ReportOf(e, b, i).puts))
  }

  /** What was accepted for the put over the run, in order. */
  function AcceptedAnswers(e: Env, a: Loop, inputs: seq<Input>, t: Id): seq<Body> {
    if inputs == [] then []
    else
      var init, i := inputs[..|inputs| - 1], inputs[|inputs| - 1];
      var s := AtMessage(e, BeforeTick(e, Run(e, a, init).0, i), i.tick);
      AcceptedAnswers(e, a, init, t) + Optional(AnswerFor(s, i.tick.packet, i.tick.now, t))
  }

  function Optional(b: Option<Body>): seq<Body> {
    match b
    case None => []
    case Some(body) => [body]
  }

  function Acknowledged(answers: seq<Body>): nat {
    if answers == [] then 0
    else Acknowledged(answers[..|answers| - 1]) + (if answers[|answers| - 1].PingResponse? then 1 else 0)
  }

  function ErrorsIn(answers: seq<Body>): seq<P.ErrorSpecific> {
    if answers == [] then []
    else
      var last := answers[|answers| - 1];
      ErrorsIn(answers[..|answers| - 1]) + (if last.ErrorMessage? then [last.error] else [])
  }

  /** The put counts exactly the given answers. */
  ghost predicate Counts(p: P.Put, answers: seq<Body>) {
    p.storedAt == Acknowledged(answers) && p.received == ErrorsIn(answers)
  }

  lemma OneMoreAnswer(q: P.Put, p: P.Put, answers: seq<Body>, answer: Option<Body>)
    requires Counts(q, answers) && Tallied(q, p, answer)
    ensures Counts(p, answers + Optional(answer))
  {
    hide P.RecordError;
    if answer.Some? {
      var more := answers + [answer.value];
      assert more[..|more| - 1] == answers;
      if answer.value.ErrorMessage? {
        var errors := ErrorsIn(answers) + [answer.value.error];
        assert errors[..|errors| - 1] == ErrorsIn(answers);
      } else {
        assert ErrorsIn(answers) + [] == ErrorsIn(answers);
      }
    } else {
      assert answers + [] == answers;
    }
  }

  predicate IsNew(p: P.Put) {
    p.storedAt == 0 && p.received == []
  }

  /** Nobody polled the put in time to see a majority: 301 and 302 came at most once more than
      a strict majority needs. */
  predicate PolledInTime(p: P.Put) {
    p.request.PutMutable? && |p.inflight| < 510 ==>
      && 2 * P.Occurrences(p.received, 301) <= |p.inflight| + 2
      && 2 * P.Occurrences(p.received, 302) <= |p.inflight| + 2
  }

  lemma StartedIsPolled(s: State, i: TickInput, t: Id)
    requires ValidInput(s, i) && t in s.puts && t !in PutIds(TickPuts(s.puts, s.socket, i.putOrder, i.now))
    ensures P.Started(s.puts[t]) ==> P.MajorityRejected(s.puts[t]).None?
  {
    hide TickPuts, NoDuplicates, P.MajorityRejected;
    TickPutsReports(s.puts, s.socket, i.putOrder, i.now);
  }

  lemma StartedKeepsIds(e: Env, s: State, i: TickInput, t: Id)
    requires ValidInput(s, i) && t in s.puts && P.Started(s.puts[t]) && t !in PutIds(Tick(e, s, i).1.puts)
    ensures t in Tick(e, s, i).0.puts && Tick(e, s, i).0.puts[t].inflight == s.puts[t].inflight
    ensures t !in PutIds(TickPuts(s.puts, s.socket, i.putOrder, i.now))
  {
    hide TickPuts, TickGets, FinishAll, Maintain, HandleMessage, NoDuplicates, ExpectedDk, AverageSubnets, PutIds, DoneIds;
    var edk, subnets := ExpectedDk(e, s.cache), AverageSubnets(s.cache);
    var (queries, sock, dones) := TickGets(s.queries, s.socket, i.getOrder, edk, subnets, i.now);
    var s0 := s.(queries := queries, socket := sock);
    TickGetsReports(s.queries, s.socket, i.getOrder, edk, subnets, i.now);
    FinishAllReports(e, s0, dones, i.voteOrder, i.now);
    PutIdsConcat(TickPuts(s.puts, s.socket, i.putOrder, i.now), FinishAll(e, s0, dones, i.voteOrder, i.now).1);
    var s1 := Settle(e, s, i).0;
    MaintainOnlyAdds(e, s1, i.now);
    MessageKeepsPutIds(e, Maintain(e, s1, i.now), i.packet, i.now, t);
  }

  /** Every tick polls first, so a majority is reported before another answer is counted. */
  lemma TickPolls(e: Env, s: State, i: TickInput, t: Id, answer: Option<Body>)
    requires StateCounts(s) && ValidInput(s, i) && t in s.puts && t !in PutIds(Tick(e, s, i).1.puts)
    requires PolledInTime(s.puts[t])
    requires t in Tick(e, s, i).0.puts && Tallied(s.puts[t], Tick(e, s, i).0.puts[t], answer)
    ensures PolledInTime(Tick(e, s, i).0.puts[t])
  {
    hide StateCounts, ValidInput, Tick, PutIds, P.Tally, P.Occurrences, P.MajorityRejected, P.RecordError;
    var p, p' := s.puts[t], Tick(e, s, i).0.puts[t];
    CountsTally(s, t);
    if answer.Some? && answer.value.ErrorMessage? { P.OneMoreError(p.received, answer.value.error); }
    if P.Started(p) {
      StartedKeepsIds(e, s, i, t);
      StartedIsPolled(s, i, t);
      if p.request.PutMutable? && |p.inflight| < 510 { P.RejectedByReceived(p); }
    } else {
      NothingReceived(301);
      NothingReceived(302);
    }
  }

  lemma NothingReceived(code: int)
    ensures P.Occurrences([], code) == 0
  {
  }

  lemma CountsTally(s: State, t: Id)
    requires StateCounts(s) && t in s.puts
    ensures s.puts[t].errors == P.Tally(s.puts[t].received)
    ensures s.puts[t].storedAt + |s.puts[t].received| <= |s.puts[t].inflight|
  {
    hide PutCounts, QueryCounts, Disjoint, P.Tally;
    PutCountsTally(s.puts[t], s.socket);
  }

  /** Over every run in which a new put waits, `stored_at` counts the acknowledgements accepted
      for it, and `errors` is the tally of the errors accepted for it: their exact histogram if
      and only if no code came more than 255 times. */
  lemma {:induction false} PutTallyIsExact(e: Env, a: Loop, inputs: seq<Input>, t: Id)
    requires StateCounts(a.rpc) && Waits(e, a, inputs, t) && IsNew(a.rpc.puts[t])
    ensures var s := Run(e, a, inputs).0.rpc;
            var answers := AcceptedAnswers(e, a, inputs, t);
            && StateCounts(s) && t in s.puts && s.puts[t].request == a.rpc.puts[t].request
            && s.puts[t].storedAt == Acknowledged(answers) && s.puts[t].received == ErrorsIn(answers)
            && s.puts[t].errors == P.Tally(ErrorsIn(answers))
            && ((forall code: int :: P.CountOf(s.puts[t].errors, code) == P.Occurrences(ErrorsIn(answers), code)) <==>
                P.FitsBytes(ErrorsIn(answers)))
            && PolledInTime(s.puts[t])
  {
    hide StateCounts, YoungStep, Accept, Tick, Iterate, ValidInput, IterationFits, ValidPacket, AnswerFor, PutIds, AtMessage,
         P.CountOf, P.Occurrences, P.FitsBytes, P.Tally, PolledInTime, Acknowledged, ErrorsIn, Tallied;
    if inputs == [] {
      NoAnswers(a.rpc.puts[t]);
    } else {
      var init, i := inputs[..|inputs| - 1], inputs[|inputs| - 1];
      var b := Run(e, a, init).0;
      var s := BeforeTick(e, b, i);
      var answer := AnswerFor(AtMessage(e, s, i.tick), i.tick.packet, i.tick.now, t);
      PutTallyIsExact(e, a, init, t);
      AcceptCounts(e, b, i.message, i.tick.now);
      AcceptKeepsPut(e, b, i.message, i.tick.now, t);
      IterateRpc(e, b, i);
      TickCounts(e, s, i.tick);
      TickTallies(e, s, i.tick, t);
      TickPolls(e, s, i.tick, t, answer);
      TalliedRequest(s.puts[t], Tick(e, s, i.tick).0.puts[t], answer);
      OneMoreAnswer(s.puts[t], Tick(e, s, i.tick).0.puts[t], AcceptedAnswers(e, a, init, t), answer);
    }
    var s := Run(e, a, inputs).0.rpc;
    CountsTally(s, t);
    P.TallyIsExactly(s.puts[t].received);
  }

  lemma TalliedRequest(q: P.Put, p: P.Put, answer: Option<Body>)
    requires Tallied(q, p, answer)
    ensures p.request == q.request
  {
  }

  lemma NoAnswers(p: P.Put)
    requires IsNew(p)
    ensures Counts(p, []) && PolledInTime(p)
  {
  }

  /** A waiting mutable put of fewer than 510 requests is rejected early exactly when a strict
      majority of the contacted nodes answered 301, or a strict majority answered 302. */
  lemma RejectedByContactedMajority(e: Env, a: Loop, inputs: seq<Input>, t: Id)
    requires StateCounts(a.rpc) && Waits(e, a, inputs, t) && IsNew(a.rpc.puts[t]) && a.rpc.puts[t].request.PutMutable?
    ensures t in Run(e, a, inputs).0.rpc.puts
    ensures var p := Run(e, a, inputs).0.rpc.puts[t];
            var errors := ErrorsIn(AcceptedAnswers(e, a, inputs, t));
            |p.inflight| < 510 ==>
              && (P.MajorityRejected(p) == Some(P.CasFailed) <==> 2 * P.Occurrences(errors, 301) > |p.inflight|)
              && (P.MajorityRejected(p) == Some(P.NotMostRecent) <==> 2 * P.Occurrences(errors, 302) > |p.inflight|)
  {
    hide Run, Waits, AcceptedAnswers, StateCounts, P.MajorityRejected, P.Occurrences, P.CountOf, P.Tally, P.FitsBytes, ErrorsIn, Acknowledged;
    PutTallyIsExact(e, a, inputs, t);
    var s := Run(e, a, inputs).0.rpc;
    CountsTally(s, t);
    if |s.puts[t].inflight| < 510 { P.RejectedByReceived(s.puts[t]); }
  }

  // --- counts that overflow ---

  /** The answer accepted for the put on `t`, if any, is an error whose count is at 255. */
  predicate OverflowsFor(s: State, packet: Option<Packet>, now: int, t: Id) {
    var answer := AnswerFor(s, packet, now, t);
    answer.Some? && answer.value.ErrorMessage? && P.CountOf(s.puts[t].errors, answer.value.error.code) == 255
  }

  /** Over the run no answer accepted for the put on `t` finds its count at 255. */
  ghost predicate NeverOverflows(e: Env, a: Loop, inputs: seq<Input>, t: Id) {
    inputs != [] ==>
      var init, i := inputs[..|inputs| - 1], inputs[|inputs| - 1];
      var s := AtMessage(e, BeforeTick(e, Run(e, a, init).0, i), i.tick);
      NeverOverflows(e, a, init, t) && !OverflowsFor(s, i.tick.packet, i.tick.now, t)
  }

  lemma AtMessageKeepsTally(e: Env, s: State, i: TickInput, t: Id)
    requires ValidInput(s, i) && t in s.puts && t !in PutIds(Tick(e, s, i).1.puts)
    ensures var s2 := AtMessage(e, s, i); t in s2.puts && s2.puts[t].errors == s.puts[t].errors
  {
    hide Settle, Maintain, HandleMessage, ValidInput, PutIds;
    SettleReports(e, s, i);
    SettleKeepsTally(e, s, i, t);
    MaintainOnlyAdds(e, Settle(e, s, i).0, i.now);
  }

  lemma FitsOneMore(errors: seq<P.ErrorSpecific>, error: P.ErrorSpecific)
    ensures P.FitsBytes(errors + [error]) <==> P.FitsBytes(errors) && P.CountOf(P.Tally(errors), error.code) < 255
  {
    hide P.Occurrences, P.CountOf, P.Tally;
    P.OneMoreError(errors, error);
    P.TallyModulo(errors, error.code);
    if P.FitsBytes(errors) && P.CountOf(P.Tally(errors), error.code) < 255 {
      forall code: int ensures P.Occurrences(errors + [error], code) <= 255 {
        assert P.Occurrences(errors, code) <= 255;
      }
    }
    if P.FitsBytes(errors + [error]) {
      forall code: int ensures P.Occurrences(errors, code) <= 255 {
        assert P.Occurrences(errors + [error], code) <= 255;
      }
      assert P.Occurrences(errors + [error], error.code) <= 255;
    }
  }

  /** Over every run in which a new put waits, no count overflows if and only if no code is
      accepted for it more than 255 times. */
  lemma {:induction false} OverflowsExactly(e: Env, a: Loop, inputs: seq<Input>, t: Id)
    requires StateCounts(a.rpc) && Waits(e, a, inputs, t) && IsNew(a.rpc.puts[t])
    ensures NeverOverflows(e, a, inputs, t) <==> P.FitsBytes(ErrorsIn(AcceptedAnswers(e, a, inputs, t)))
  {
    hide StateCounts, YoungStep, Accept, Tick, Iterate, ValidInput, IterationFits, ValidPacket, AnswerFor, PutIds, AtMessage,
         P.CountOf, P.Occurrences, P.FitsBytes, P.Tally, PolledInTime, Acknowledged, ErrorsIn, AdmitsPut;
    if inputs == [] {
      P.TallyFitsByte([]);
      assert ErrorsIn([]) == [] by { NoErrors(); }
    } else {
      var init, i := inputs[..|inputs| - 1], inputs[|inputs| - 1];
      var b := Run(e, a, init).0;
      var s := BeforeTick(e, b, i);
      var answers := AcceptedAnswers(e, a, init, t);
      var answer := AnswerFor(AtMessage(e, s, i.tick), i.tick.packet, i.tick.now, t);
      OverflowsExactly(e, a, init, t);
      PutTallyIsExact(e, a, init, t);
      AcceptKeepsPut(e, b, i.message, i.tick.now, t);
      AtMessageKeepsTally(e, s, i.tick, t);
      ErrorsWithOneMore(answers, answer);
      assert ErrorsIn(answers) + [] == ErrorsIn(answers);
      if answer.Some? && answer.value.ErrorMessage? {
        FitsOneMore(ErrorsIn(answers), answer.value.error);
        CountIsByte(P.Tally(ErrorsIn(answers)), answer.value.error.code);
      }
    }
  }

  lemma NoErrors()
    ensures ErrorsIn([]) == []
  {
  }

  lemma CountIsByte(errors: seq<P.ErrorCount>, code: int)
    ensures P.CountOf(errors, code) <= 255
  {
  }

  lemma ErrorsWithOneMore(answers: seq<Body>, answer: Option<Body>)
    ensures ErrorsIn(answers + Optional(answer)) ==
            ErrorsIn(answers) + (if answer.Some? && answer.value.ErrorMessage? then [answer.value.error] else [])
  {
    if answer.Some? {
      var more := answers + [answer.value];
      assert more[..|more| - 1] == answers;
    } else {
      assert answers + [] == answers;
    }
    assert ErrorsIn(answers) + [] == ErrorsIn(answers);
  }

  /** For an answer accepted for a put, what the thread checks is the count of that put. */
  lemma OverflowIsOfOwner(s: State, packet: Option<Packet>, now: int, t: Id)
    requires ValidPacket(s, packet) && Disjoint(s.queries, s.puts) && AnswerFor(s, packet, now, t).Some?
    ensures MessageOverflows(s, packet, now) <==> OverflowsFor(s, packet, now, t)
  {
    hide ValidPacket, Disjoint, Receive, FindPut, FindQuery, P.CountOf;
    var p := packet.value;
    var sock := Receive(s.socket, Datagram(false, p.message.tid, p.from), now).0;
    ValidWithSocket(s, p, sock);
    PutIsFound(s, p, t);
  }

  lemma ValidWithSocket(s: State, p: Packet, sock: Socket)
    requires ValidPacket(s, Some(p))
    ensures ValidPacket(s.(socket := sock), Some(p))
  {
    hide NoDuplicates;
  }

  /** Where overflow is checked, the thread of a node survives an error accepted for a put that
      has waited since it was new if and only if its code was accepted fewer than 255 times before. */
  lemma OverflowEndsThread(e: Env, a: Loop, inputs: seq<Input>, t: Id, i: Input)
    requires StateCounts(a.rpc) && Waits(e, a, inputs, t) && IsNew(a.rpc.puts[t])
    requires e.overflowChecks && NeverOverflows(e, a, inputs, t)
    requires var s := BeforeTick(e, Run(e, a, inputs).0, i);
             && ValidInput(s, i.tick) && !AdmitsPut(Run(e, a, inputs).0, i.message, t)
             && ValidPacket(AtMessage(e, s, i.tick), i.tick.packet) && t !in PutIds(Tick(e, s, i.tick).1.puts)
             && Disjoint(AtMessage(e, s, i.tick).queries, AtMessage(e, s, i.tick).puts)
             && AnswerFor(AtMessage(e, s, i.tick), i.tick.packet, i.tick.now, t).Some?
             && i.tick.packet.value.message.body.ErrorMessage?
    ensures TallyFits(e, BeforeTick(e, Run(e, a, inputs).0, i), i.tick) <==>
            P.Occurrences(ErrorsIn(AcceptedAnswers(e, a, inputs, t)), i.tick.packet.value.message.body.error.code) < 255
  {
    hide Run, Waits, AcceptedAnswers, StateCounts, NeverOverflows, ValidInput, ValidPacket, Disjoint, Accept, Tick, AtMessage,
         Receive, PutIds, MessageOverflows, P.CountOf, P.Occurrences, P.Tally, P.FitsBytes, ErrorsIn, Acknowledged, AdmitsPut;
    PutTallyIsExact(e, a, inputs, t);
    OverflowsExactly(e, a, inputs, t);
    var b := Run(e, a, inputs).0;
    var s, code := BeforeTick(e, b, i), i.tick.packet.value.message.body.error.code;
    AcceptKeepsPut(e, b, i.message, i.tick.now, t);
    AtMessageKeepsTally(e, s, i.tick, t);
    OverflowIsOfOwner(AtMessage(e, s, i.tick), i.tick.packet, i.tick.now, t);
    P.OneFits(ErrorsIn(AcceptedAnswers(e, a, inputs, t)), code);
  }

  // --- puts that are not mutable ---

  ghost predicate ReportsConflict(report: Report, t: Id) {
    exists x :: (t, PutErr(P.Concurrency(x))) in report.puts
  }

  /** A tick reports a concurrency error for a put exactly when polling it gives one. */
  lemma ConflictIsPolled(e: Env, s: State, i: TickInput, t: Id)
    requires ValidInput(s, i) && t in s.puts
    ensures var poll := P.PollCompletion(s.puts[t], s.socket, i.now);
            ReportsConflict(Tick(e, s, i).1, t) <==> poll.Failed? && poll.error.Concurrency?
  {
    hide TickPuts, TickGets, FinishAll, Maintain, HandleMessage, NoDuplicates, ExpectedDk, AverageSubnets, P.PollCompletion;
    var polled := TickPuts(s.puts, s.socket, i.putOrder, i.now);
    var (queries, sock, dones) := TickGets(s.queries, s.socket, i.getOrder, ExpectedDk(e, s.cache), AverageSubnets(s.cache), i.now);
    var s0 := s.(queries := queries, socket := sock);
    var failed := FinishAll(e, s0, dones, i.voteOrder, i.now).1;
    TickPutsReports(s.puts, s.socket, i.putOrder, i.now);
    TickGetsReports(s.queries, s.socket, i.getOrder, ExpectedDk(e, s.cache), AverageSubnets(s.cache), i.now);
    FinishAllReports(e, s0, dones, i.voteOrder, i.now);
    assert Tick(e, s, i).1.puts == polled + failed;
    if t in PutIds(polled) {
      var r :| r in polled && r.0 == t;
      assert r in polled + failed;
    }
  }

  /** Over every run in which a put that is not mutable waits, the next tick reports a
      concurrency error for it if and only if it has started, none of its requests is in flight,
      no acknowledgement was accepted, and 301 or 302 leads the tally of the accepted errors. */
  lemma PlainPutConflicts(e: Env, a: Loop, inputs: seq<Input>, t: Id, i: Input)
    requires StateCounts(a.rpc) && Waits(e, a, inputs, t) && IsNew(a.rpc.puts[t]) && !a.rpc.puts[t].request.PutMutable?
    requires var b := Run(e, a, inputs).0; ValidInput(BeforeTick(e, b, i), i.tick) && !AdmitsPut(b, i.message, t)
    ensures t in BeforeTick(e, Run(e, a, inputs).0, i).puts
    ensures var s := BeforeTick(e, Run(e, a, inputs).0, i);
            var answers := AcceptedAnswers(e, a, inputs, t);
            ReportsConflict(ReportOf(e, Run(e, a, inputs).0, i), t) <==>
              && P.Started(s.puts[t]) && P.IsDone(s.puts[t], s.socket, i.tick.now)
              && Acknowledged(answers) == 0 && LedByConflict(ErrorsIn(answers))
  {
    hide Run, Waits, AcceptedAnswers, StateCounts, ValidInput, Accept, Tick, AdmitsPut, ReportsConflict, Acknowledged, ErrorsIn,
         P.Tally, P.PollCompletion, P.IsDone, P.Started;
    PutTallyIsExact(e, a, inputs, t);
    var b := Run(e, a, inputs).0;
    var s := BeforeTick(e, b, i);
    AcceptKeepsPut(e, b, i.message, i.tick.now, t);
    ConflictIsPolled(e, s, i.tick, t);
    P.PollOutcomes(s.puts[t], s.socket, i.tick.now);
  }

  predicate LedByConflict(errors: seq<P.ErrorSpecific>) {
    var tally := P.Tally(errors);
    tally != [] && tally[0].error.code in {301, 302}
  }

  /** As long as no code came more than 255 times, the code that leads the tally is a most common
      one, and one code more common than every other leads it. */
  lemma LeadingCode(errors: seq<P.ErrorSpecific>, code: int, other: int)
    requires code in {301, 302} && P.FitsBytes(errors)
    ensures LedByConflict(errors) ==>
              P.Occurrences(errors, other) <= P.Occurrences(errors, 301) || P.Occurrences(errors, other) <= P.Occurrences(errors, 302)
    ensures P.Occurrences(errors, code) > 0 && (forall c :: c != code ==> P.Occurrences(errors, c) < P.Occurrences(errors, code)) ==>
              LedByConflict(errors)
  {
    hide P.Tally, P.Occurrences, P.FitsBytes;
    P.TallyIsHistogram(errors, code);
    assert P.Tally(errors) == [] ==> P.Occurrences(errors, code) == 0;
    if P.Tally(errors) != [] {
      P.FirstIsMostCommon(errors, code);
      P.FirstIsMostCommon(errors, other);
    }
  }
}
