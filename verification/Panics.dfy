/**
  The actor loop with the two ways its input can end it. `PutQuery::start` asserts at most 255
  closest nodes (src/rpc/put_query.rs:53-56). And where overflow is checked, counting an answer
  panics when the count is at its largest: a `u8` for the errors of a put
  (src/rpc/put_query.rs:101), a `u16` for the votes of a lookup. A panic ends the thread, and
  with it every channel that still waits.
 */
module Panics {
  import opened Ids
  import opened Rpc
  import opened RpcReports
  import opened Actor

  /** Every call of `start` in this iteration meets the assertion when it is reached, and where
      overflow is checked no count overflows. */
  predicate Survives(e: Env, a: Loop, i: Input) {
    && (i.message.Put? ==> PutFits(a.rpc, i.message.put, i.tick.now))
    && TickSurvives(e, Accept(e, a, i.message, i.tick.now).0.rpc, i.tick)
  }

  /** What has become of the thread: it runs, or it panicked and sends nothing any more. */
  datatype Fate = Alive(loop: Loop, sent: seq<Sent>) | Panicked(sent: seq<Sent>)

  /** What the failing iteration still sends: its message half, unless the put itself failed. */
  function LastWords(e: Env, a: Loop, i: Input): seq<Sent> {
    if i.message.Put? && !PutFits(a.rpc, i.message.put, i.tick.now) then []
    else Accept(e, a, i.message, i.tick.now).1
  }

  /** `run` of src/dht.rs, panics included. */
  function Program(e: Env, a: Loop, inputs: seq<Input>): Fate {
    if inputs == [] then Alive(a, [])
    else
      var i := inputs[|inputs| - 1];
      match Program(e, a, inputs[..|inputs| - 1])
      case Panicked(sent) => Panicked(sent)
      case Alive(b, sent) =>
        if Survives(e, b, i) then Alive(Iterate(e, b, i).0, sent + Iterate(e, b, i).1)
        else Panicked(sent + LastWords(e, b, i))
  }

  /** The hash-map orders of the iterations of `Run` enumerate the maps they iterate. */
  ghost predicate OrderedRun(e: Env, a: Loop, inputs: seq<Input>) {
    inputs != [] ==>
      var init, i := inputs[..|inputs| - 1], inputs[|inputs| - 1];
      && OrderedRun(e, a, init)
      && ValidInput(Accept(e, Run(e, a, init).0, i.message, i.tick.now).0.rpc, i.tick)
  }

  /** In every iteration, a put admitted with a usable cache finds at most 255 cached nodes, and
      a lookup reported to a waiting put found at most 255; and where overflow is checked, no
      accepted answer raises a count at its largest. */
  ghost predicate FittingRun(e: Env, a: Loop, inputs: seq<Input>) {
    inputs != [] ==>
      var init, i := inputs[..|inputs| - 1], inputs[|inputs| - 1];
      FittingRun(e, a, init) && IterationFits(e, Run(e, a, init).0, i)
  }

  /** The thread survives a run if and only if the run fits, and it then does what `Run` says. */
  lemma {:induction false} SurvivesExactly(e: Env, a: Loop, inputs: seq<Input>)
    requires OrderedRun(e, a, inputs)
    ensures Program(e, a, inputs).Alive? <==> FittingRun(e, a, inputs)
    ensures FittingRun(e, a, inputs) ==>
              Program(e, a, inputs) == Alive(Run(e, a, inputs).0, Run(e, a, inputs).1)
    ensures ValidRun(e, a, inputs) <==> FittingRun(e, a, inputs)
  {
    hide Iterate, Accept, PutFits, TickSurvives, TickFits, ValidInput, LastWords;
    if inputs != [] {
      var init, i := inputs[..|inputs| - 1], inputs[|inputs| - 1];
      SurvivesExactly(e, a, init);
      TickSurvivesExactly(e, Accept(e, Run(e, a, init).0, i.message, i.tick.now).0.rpc, i.tick);
    }
  }

  /** The whole story of a caller. While the thread lives nobody is orphaned and every channel
      handed in waits or was answered; and the thread lives exactly as long as the run fits. */
  lemma CallersOfTheProgram(e: Env, s: State, inputs: seq<Input>, t: Id, c: nat)
    requires OrderedRun(e, Loop(s, map[], map[]), inputs)
    ensures var fate := Program(e, Loop(s, map[], map[]), inputs);
            && (fate.Alive? <==> FittingRun(e, Loop(s, map[], map[]), inputs))
            && (fate.Alive? ==>
                  && NoOrphans(fate.loop)
                  && Occurs(PutWaiting(fate.loop, t), c) + PutsAnswered(fate.sent, t, c) == PutsSubmitted(inputs, t, c)
                  && SenderOccurs(GetWaiting(fate.loop, t), c) + GetsAnswered(fate.sent, t, c) == GetsSubmitted(inputs, t, c))
  {
    hide Run, Program, FittingRun, OrderedRun, ValidRun;
    var a := Loop(s, map[], map[]);
    SurvivesExactly(e, a, inputs);
    if FittingRun(e, a, inputs) {
      NoCallerIsOrphaned(e, a, inputs, t, c);
    }
  }
}
