/**
  A run that ends the actor thread. 256 bootstrap nodes of one private network answer the
  lookup of an announcement. They span one subnet where twenty are wanted, so the secure cut
  takes them all, and `PutQuery::start` fails its assertion.
 */
module PanicScenario {
  import opened QueryCache
  import opened Rpc
  import opened RpcReports
  import opened RpcOutcomes
  import opened RpcLiveness
  import opened RpcRuns
  import opened Actor
  import opened Panics
  import opened Scenarios

  /** One iteration for each of the first `k` bootstrap nodes, all at the same moment. */
  function AnswerRun(e: Env, time: int, k: nat, c: Call): seq<Input>
    requires 0 < k <= |e.bootstrap| <= 256
  {
    (if k == 1 then [] else AnswerRun(e, time, k - 1, c)) +
    [AnswerInput(e, if k == 1 then Announcement(c) else Idle, k - 1, time)]
  }

  lemma FewRequests(e: Env, a: Loop, k: nat, c: Call, time: int)
    requires |e.bootstrap| <= 256 && Answered(e, a, k, c, time)
    ensures a.rpc.socket.sent <= 512
  {
    hide FirstAnswerers, Asked;
  }

  /** The run is one a node can make, and after it the first `k` nodes have answered. */
  lemma {:induction false} AnswersArrive(e: Env, b: Birth, k: nat, c: Call)
    requires 0 < k <= |e.bootstrap| <= 256 && PrivateNetwork(e, |e.bootstrap|)
    requires b.id == SELF && b.timeout > 0
    ensures Life(e, b, AnswerRun(e, b.time, k, c))
    ensures Answered(e, Run(e, Newborn(b), AnswerRun(e, b.time, k, c)).0, k, c, b.time)
    ensures Run(e, Newborn(b), AnswerRun(e, b.time, k, c)).0.rpc.socket.timeout == b.timeout
  {
    hide Accept, Iterate, Answered, ValidIteration, PutFits, Life;
    var inputs := AnswerRun(e, b.time, k, c);
    var init, i := inputs[..|inputs| - 1], inputs[|inputs| - 1];
    assert inputs == init + [i];
    var a := Run(e, Newborn(b), init).0;
    if k == 1 {
      assert init == [];
      LifeBegins(e, b);
      AnnouncementWaits(e, a, c, b.timeout, b.serverMode, b.time);
    } else {
      assert init == AnswerRun(e, b.time, k - 1, c);
      AnswersArrive(e, b, k - 1, c);
      IdleChangesNothing(e, a, b.time);
    }
    AnswerIteration(e, a, i.message, k - 1, c, b.time);
    assert Clock(init, b.time) == b.time;
    FewRequests(e, Accept(e, a, i.message, b.time).0, k - 1, c, b.time);
    FewRequests(e, Iterate(e, a, i).0, k, c, b.time);
    FewRequestsAreYoung(a.rpc, BeforeTick(e, a, i));
    FewRequestsAreYoung(BeforeTick(e, a, i), Iterate(e, a, i).0.rpc);
    LifeGoesOn(e, b, init, i);
  }

  /** All 256 nodes have answered a node that runs normally and whose caller waits; the tick
      after the timeout ends its thread. */
  lemma TooManyNodesPanic(e: Env, b: Birth, c: Call)
    requires PrivateNetwork(e, 256) && b.id == SELF && b.timeout > 0
    ensures var inputs := AnswerRun(e, b.time, 256, c);
            var last := Timeout(b.time + b.timeout);
            && Life(e, b, inputs) && OrderedRun(e, Newborn(b), inputs + [last])
            && Program(e, Newborn(b), inputs).Alive? && PutWaiting(Program(e, Newborn(b), inputs).loop, SELF) == [c.channel]
            && Program(e, Newborn(b), inputs + [last]).Panicked?
  {
    hide Run, Accept, Iterate, ValidRun, OrderedRun, FittingRun, YoungRun, Tick, Program, LookingUp, FirstAnswerers, AnswerRun;
    var inputs, last := AnswerRun(e, b.time, 256, c), Timeout(b.time + b.timeout);
    AnswersArrive(e, b, 256, c);
    var a := Run(e, Newborn(b), inputs).0;
    ValidIsOrdered(e, Newborn(b), inputs);
    SurvivesExactly(e, Newborn(b), inputs);
    IdleChangesNothing(e, a, last.tick.now);
    TooManyFound(e, a, c, b.time, last.tick);
    UnfitIteration(e, Newborn(b), inputs, last);
    SurvivesExactly(e, Newborn(b), inputs + [last]);
  }

  lemma {:induction false} ValidIsOrdered(e: Env, a: Loop, inputs: seq<Input>)
    requires ValidRun(e, a, inputs)
    ensures OrderedRun(e, a, inputs)
  {
    hide Run, Accept, IterationFits, ValidInput;
    if inputs != [] { ValidIsOrdered(e, a, inputs[..|inputs| - 1]); }
  }

  lemma UnfitIteration(e: Env, a: Loop, inputs: seq<Input>, i: Input)
    requires OrderedRun(e, a, inputs)
    requires ValidInput(Accept(e, Run(e, a, inputs).0, i.message, i.tick.now).0.rpc, i.tick)
    requires !IterationFits(e, Run(e, a, inputs).0, i)
    ensures OrderedRun(e, a, inputs + [i]) && !FittingRun(e, a, inputs + [i])
  {
    hide Run, Accept, ValidInput, IterationFits;
    assert (inputs + [i])[..|inputs|] == inputs;
  }

  lemma TooManyFound(e: Env, a: Loop, c: Call, time: int, i: TickInput)
    requires PrivateNetwork(e, 256) && Answered(e, a, 256, c, time)
    requires i.getOrder == [SELF] && i.putOrder == [SELF] && i.now - time >= a.rpc.socket.timeout
    ensures ValidInput(a.rpc, i) && !TickFits(e, a.rpc, i)
  {
    hide TickPuts, TickGets, FinishAll, Maintain, HandleMessage, ExpectedDk, AverageSubnets, MakeDone, LookingUp, Asked;
    var s := a.rpc;
    OneOrder(SELF);
    WaitingLookup(e, s, time);
    var q := s.queries[SELF];
    LookupTimesOut(e, s, VALUE_LOOKUP, time, i.now);
    AnswerersAreFound(e, q, ExpectedDk(e, s.cache), 256, time);
    var d := MakeDone(SELF, q, ExpectedDk(e, s.cache), 20);
    MakeDoneId(SELF, q, ExpectedDk(e, s.cache), 20);
    assert d in Tick(e, s, i).1.gets;
  }

  lemma WaitingLookup(e: Env, s: State, time: int)
    requires LookingUp(e, s, VALUE_LOOKUP, time)
    ensures s.queries.Keys == {SELF} && s.queries[SELF].request == VALUE_LOOKUP
  {
  }
}
