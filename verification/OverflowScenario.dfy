/**
  A put whose errors overflow their `u8` count. `start` caps the closest nodes but not the
  nodes handed in with the put, so one node that answered and 255 others can all refuse it
  with 203, as they do when their tokens have expired.
 */
module OverflowScenario {
  import opened Rpc
  import opened RpcRuns
  import opened Actor
  import opened Panics
  import opened Scenarios
  import opened PanicScenario
  import opened SentScenario

  /** Where overflow is checked, the 256th refusal ends the thread of a node that has lived
      normally until then, with its caller waiting. */
  lemma OverflowPanics(e: Env, b: Birth, c: Call)
    requires Usable(e, c) && |c.extra| == 255 && b.id == SELF && b.timeout == TIMEOUT && e.overflowChecks
    ensures var inputs := RefusalRun(e, c, 203, 255, b.time);
            && Life(e, b, inputs) && OrderedRun(e, Newborn(b), RefusalRun(e, c, 203, 256, b.time))
            && Program(e, Newborn(b), inputs).Alive? && PutWaiting(Program(e, Newborn(b), inputs).loop, SELF) == [c.channel]
            && Program(e, Newborn(b), RefusalRun(e, c, 203, 256, b.time)).Panicked?
  {
    hide Run, Accept, Iterate, ValidRun, OrderedRun, FittingRun, Program, Refused, Answered, RefusalRun, ValidInput, IterationFits;
    var inputs, last := RefusalRun(e, c, 203, 255, b.time), RefusalInput(e, c, 203, 255, b.time);
    RefusalsArrive(e, b, c, 203, 255);
    var a := Run(e, Newborn(b), inputs).0;
    ValidIsOrdered(e, Newborn(b), inputs);
    SurvivesExactly(e, Newborn(b), inputs);
    RefusalIteration(e, a, c, 203, 255, b.time);
    OneMoreRefusal(e, c, 255, b.time);
    UnfitIteration(e, Newborn(b), inputs, last);
    SurvivesExactly(e, Newborn(b), inputs + [last]);
  }

  lemma OneMoreRefusal(e: Env, c: Call, k: nat, time: int)
    requires Usable(e, c) && k <= |c.extra|
    ensures RefusalRun(e, c, 203, k + 1, time) == RefusalRun(e, c, 203, k, time) + [RefusalInput(e, c, 203, k, time)]
  {
  }

  /** Where overflow is not checked, the run goes on, and 256 refusals are counted as none. */
  lemma OverflowWraps(e: Env, b: Birth, c: Call)
    requires Usable(e, c) && |c.extra| == 255 && b.id == SELF && b.timeout == TIMEOUT && !e.overflowChecks
    ensures var inputs := RefusalRun(e, c, 203, 256, b.time);
            var s := Run(e, Newborn(b), inputs).0.rpc;
            && Life(e, b, inputs) && SELF in s.puts && P.Occurrences(s.puts[SELF].received, 203) == 256
            && s.puts[SELF].errors == [P.ErrorCount(0, P.ErrorSpecific(203, ""))]
  {
    hide Run, Life, RefusalRun, P.Tally, P.Copies, P.Occurrences;
    RefusalsArrive(e, b, c, 203, 256);
    WrappedTally(e, Run(e, Newborn(b), RefusalRun(e, c, 203, 256, b.time)).0.rpc, c, b.time);
  }

  lemma WrappedTally(e: Env, s: State, c: Call, time: int)
    requires Usable(e, c) && Refused(e, s, c, 203, 256, time)
    ensures SELF in s.puts && P.Occurrences(s.puts[SELF].received, 203) == 256
    ensures s.puts[SELF].errors == [P.ErrorCount(0, P.ErrorSpecific(203, ""))]
  {
    hide P.Tally, P.Copies, P.Occurrences;
    P.CopiesTally(203, 256);
    P.CopiesOccur(203, 256, 203);
  }
}
