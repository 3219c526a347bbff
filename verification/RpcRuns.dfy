/**
  The whole life of one node, from `Rpc::new` on: what the other modules prove of one
  tick or from a given state holds in every state a new node can reach.
 */
module RpcRuns {
  import opened Ids
  import opened Bep42
  import opened Sockets
  import opened IterativeQueries
  import opened Rpc
  import opened RpcReports
  import opened RpcSockets
  import opened RpcLiveness
  import opened RpcFinality
  import opened RpcEngine
  import opened RpcPuts
  import opened RpcResolution
  import opened RpcReachability
  import opened RpcCounts
  import opened RpcOutcomes
  import opened Actor

  datatype Birth = Birth(id: Id, timeout: nat, serverMode: bool, time: int)

  function Newborn(b: Birth): Loop {
    Loop(NewState(b.id, b.timeout, b.serverMode, b.time), map[], map[])
  }

  // --- the clock ---

  function Clock(inputs: seq<Input>, start: int): int {
    if inputs == [] then start else inputs[|inputs| - 1].tick.now
  }

  predicate InTime(inputs: seq<Input>, start: int) {
    inputs != [] ==>
      var init, last := inputs[..|inputs| - 1], inputs[|inputs| - 1];
      InTime(init, start) && Clock(init, start) <= last.tick.now
  }

  ghost predicate SentUpTo(sock: Socket, now: int) {
    forall t: Tid :: t in sock.requests ==> sock.requests[t].sentAt <= now
  }

  lemma SentUpToEvolves(a: Socket, b: Socket, past: int, now: int)
    requires SentUpTo(a, past) && Evolves(a, b, now) && past <= now
    ensures SentUpTo(b, now)
  {
    hide Issued;
  }

  lemma IterateSentUpTo(e: Env, a: Loop, i: Input, past: int)
    requires SentUpTo(a.rpc.socket, past) && past <= i.tick.now
    ensures SentUpTo(BeforeTick(e, a, i).socket, i.tick.now)
    ensures SentUpTo(Iterate(e, a, i).0.rpc.socket, i.tick.now)
  {
    hide SentUpTo, Evolves, Accept, Tick, Iterate;
    var s, now := BeforeTick(e, a, i), i.tick.now;
    AcceptKeepsLookups(e, a, i.message, now);
    SentUpToEvolves(a.rpc.socket, s.socket, past, now);
    IterateRpc(e, a, i);
    TickEvolves(e, s, i.tick);
    SentUpToEvolves(s.socket, Tick(e, s, i.tick).0.socket, now, now);
  }

  lemma {:induction false} ClockOverRuns(e: Env, a: Loop, inputs: seq<Input>, start: int)
    requires SentUpTo(a.rpc.socket, start) && InTime(inputs, start)
    ensures SentUpTo(Run(e, a, inputs).0.rpc.socket, Clock(inputs, start))
  {
    hide SentUpTo, Iterate;
    if inputs != [] {
      var init, last := inputs[..|inputs| - 1], inputs[|inputs| - 1];
      ClockOverRuns(e, a, init, start);
      IterateSentUpTo(e, Run(e, a, init).0, last, Clock(init, start));
    }
  }

  // --- every reachable state ---

  /** A run of a new node: hash orders enumerate the maps, time does not go back, and fewer
      than 2^32 requests are sent during the life of any query. */
  ghost predicate Life(e: Env, b: Birth, inputs: seq<Input>) {
    ValidRun(e, Newborn(b), inputs) && YoungRun(e, Newborn(b), inputs) && InTime(inputs, b.time)
  }

  /** What every state satisfies: nobody is orphaned, the table and the cache keep their
      invariants, answers stay within requests, no id has two owners, and whatever still
      waits was sent by now. */
  ghost predicate Sound(a: Loop, now: int) {
    && NoOrphans(a) && EngineInv(a.rpc) && StateCounts(a.rpc) && RpcReachability.Reachable(a.rpc)
    && (forall id :: id in a.rpc.queries ==> LookupSentBy(a.rpc, id, now))
    && (forall id :: id in a.rpc.puts ==> PutSentBy(a.rpc.puts[id], a.rpc.socket, now))
  }

  ghost predicate LookupSentBy(s: State, id: Id, now: int)
    requires id in s.queries
  {
    var q := s.queries[id];
    q.born <= s.socket.sent && SentBy(q.inflight, q.born, s.socket, now)
  }

  lemma CountsSentBy(s: State, now: int)
    requires StateCounts(s) && SentUpTo(s.socket, now)
    ensures forall id :: id in s.queries ==> LookupSentBy(s, id, now)
    ensures forall id :: id in s.puts ==> PutSentBy(s.puts[id], s.socket, now)
  {
    hide Issued, Disjoint, Responded, Outstanding, P.Total;
  }

  lemma NewbornIsSound(b: Birth)
    ensures var a := Newborn(b);
            && NoOrphans(a) && EngineInv(a.rpc) && StateCounts(a.rpc) && RpcReachability.Reachable(a.rpc)
            && SentUpTo(a.rpc.socket, b.time)
  {
    hide EngineInv;
    NewStateInv(b.id, b.timeout, b.serverMode, b.time);
  }

  /** Every state a new node can reach is sound. */
  lemma EveryStateIsSound(e: Env, b: Birth, inputs: seq<Input>)
    requires Life(e, b, inputs)
    ensures Sound(Run(e, Newborn(b), inputs).0, Clock(inputs, b.time))
  {
    hide Run, NoOrphans, EngineInv, StateCounts, RpcReachability.Reachable, SentUpTo, ValidRun, YoungRun, InTime;
    var a := Newborn(b);
    NewbornIsSound(b);
    NoCallerIsOrphaned(e, a, inputs, b.id, 0);
    EngineOverRuns(e, a, inputs);
    CountsOverRuns(e, a, inputs);
    ReachabilityOverRuns(e, a, inputs);
    ClockOverRuns(e, a, inputs, b.time);
    CountsSentBy(Run(e, a, inputs).0.rpc, Clock(inputs, b.time));
  }

  // --- the end of lookups and puts ---

  lemma LifeSplits(e: Env, b: Birth, inputs: seq<Input>, i: Input)
    requires Life(e, b, inputs + [i])
    ensures var a := Run(e, Newborn(b), inputs).0;
            && Life(e, b, inputs) && Clock(inputs, b.time) <= i.tick.now
            && ValidInput(BeforeTick(e, a, i), i.tick)
            && YoungStep(a.rpc, BeforeTick(e, a, i)) && YoungStep(BeforeTick(e, a, i), Iterate(e, a, i).0.rpc)
  {
    hide Run, ValidInput, Accept, Iterate, YoungStep;
    assert (inputs + [i])[..|inputs|] == inputs;
  }

  lemma LifeBegins(e: Env, b: Birth)
    ensures Life(e, b, []) && Run(e, Newborn(b), []).0 == Newborn(b)
  {
  }

  /** A run can be continued by any valid iteration in whose course no live query grows old. */
  lemma LifeGoesOn(e: Env, b: Birth, inputs: seq<Input>, i: Input)
    requires Life(e, b, inputs) && ValidIteration(e, Run(e, Newborn(b), inputs).0, i)
    requires Clock(inputs, b.time) <= i.tick.now
    requires var a := Run(e, Newborn(b), inputs).0;
             YoungStep(a.rpc, BeforeTick(e, a, i)) && YoungStep(BeforeTick(e, a, i), Iterate(e, a, i).0.rpc)
    ensures Life(e, b, inputs + [i]) && Run(e, Newborn(b), inputs + [i]).0 == Iterate(e, Run(e, Newborn(b), inputs).0, i).0
  {
    hide Accept, Iterate, ValidIteration, YoungStep;
    assert (inputs + [i])[..|inputs|] == inputs;
  }

  /** Nothing grows old while at most 2^32 requests have been sent since birth. */
  lemma FewRequestsAreYoung(s: State, s': State)
    requires s'.socket.sent <= TID_SPACE
    ensures YoungStep(s, s')
  {
  }

  /** A report is final: whenever a node reports a lookup, its twenty best candidates have
      been visited, and no later iteration delivers an answer to any of its requests. */
  lemma ReportsAreFinal(e: Env, b: Birth, inputs: seq<Input>, i: Input, later: seq<Input>, t: Id)
    requires Life(e, b, inputs + [i])
    requires t in DoneIds(ReportOf(e, Run(e, Newborn(b), inputs).0, i).gets)
    ensures var a := Run(e, Newborn(b), inputs).0;
            var finished := FinishedQuery(e, BeforeTick(e, a, i), i.tick, t);
            && finished.Some?
            && (forall n :: n in Top(finished.value) ==> n.address in finished.value.visited)
            && NeverDelivered(e, Iterate(e, a, i).0, later, finished.value.inflight, finished.value.born, i.tick.now)
  {
    hide Run, Accept, Tick, Iterate, ValidInput, DoneIds, StateCounts, SentUpTo, SentBy, Life, Evolves, FinishedQuery,
         Dead, NeverDelivered, Top, Delivers;
    var a := Run(e, Newborn(b), inputs).0;
    var s, s' := BeforeTick(e, a, i), Iterate(e, a, i).0.rpc;
    LifeSplits(e, b, inputs, i);
    LifeBeforeTick(e, b, inputs, i);
    IterateRpc(e, a, i);
    TickReports(e, s, i.tick);
    TickEvolves(e, s, i.tick);
    EvolvesSent(s.socket, s'.socket, i.tick.now);
    assert LookupSentBy(s, t, i.tick.now);
    DoneIsFinal(e, s, i.tick, t, i.tick.now);
    var q := FinishedQuery(e, s, i.tick, t).value;
    FinishedStaysFinal(e, Iterate(e, a, i).0, later, q.inflight, q.born, i.tick.now);
  }

  lemma LifeBeforeTick(e: Env, b: Birth, inputs: seq<Input>, i: Input)
    requires Life(e, b, inputs + [i])
    ensures var s := BeforeTick(e, Run(e, Newborn(b), inputs).0, i);
            forall id :: id in s.queries ==> LookupSentBy(s, id, i.tick.now)
  {
    hide Run, Accept, Iterate, ValidInput, StateCounts, SentUpTo, YoungStep, ValidRun, YoungRun, InTime, LookupSentBy, PutSentBy,
         EngineInv, NoOrphans, RpcReachability.Reachable, Newborn;
    var a := Run(e, Newborn(b), inputs).0;
    LifeSplits(e, b, inputs, i);
    NewbornIsSound(b);
    CountsOverRuns(e, Newborn(b), inputs);
    ClockOverRuns(e, Newborn(b), inputs, b.time);
    IterateSentUpTo(e, a, i, Clock(inputs, b.time));
    AcceptCounts(e, a, i.message, i.tick.now);
    CountsSentBy(BeforeTick(e, a, i), i.tick.now);
  }

  /** Lookups end: in whatever state a node has reached, a lookup whose candidates stay in a
      finite set of addresses makes at most one round per address not yet visited, and is
      reported before its deadline. */
  lemma EveryLookupEnds(e: Env, b: Birth, inputs: seq<Input>, later: seq<Input>, t: Id, space: set<Address>, gap: nat)
    requires Life(e, b, inputs)
    requires StaysOpen(e, Run(e, Newborn(b), inputs).0, later, t, space, Clock(inputs, b.time), gap)
    requires var s := Run(e, Newborn(b), inputs).0.rpc; s.socket.timeout > 0 && s.queries[t].visited <= space
    ensures var a, now := Run(e, Newborn(b), inputs).0, Clock(inputs, b.time);
            var visited := a.rpc.queries[t].visited;
            && |visited| <= |space|
            && Rounds(e, a, later, t) <= |space| - |visited|
            && EndTime(later, now) < Deadline(|space|, |visited|, now, a.rpc.socket.timeout, gap)
  {
    hide Run, Life, NoOrphans, EngineInv, StateCounts, RpcReachability.Reachable, SentBy, PutSentBy, Accept, Tick, Iterate, ValidInput, Rounds;
    EveryStateIsSound(e, b, inputs);
    var a, now := Run(e, Newborn(b), inputs).0, Clock(inputs, b.time);
    assert LookupSentBy(a.rpc, t, now);
    LookupsTerminate(e, a, later, t, space, now, gap, now);
  }

  /** Puts resolve: in whatever state a node has reached, a live put that moves (it has started,
      or a value or peers lookup is live) and is not displaced is reported before the deadline of
      its lookup plus a gap and a timeout. */
  lemma EveryPutResolves(e: Env, b: Birth, inputs: seq<Input>, later: seq<Input>, t: Id, space: set<Address>, gap: nat)
    requires Life(e, b, inputs) && Moving(Run(e, Newborn(b), inputs).0.rpc, t)
    requires StaysUnresolved(e, Run(e, Newborn(b), inputs).0, later, t, space, Clock(inputs, b.time), gap)
    requires var s := Run(e, Newborn(b), inputs).0.rpc;
             s.socket.timeout > 0 && (!P.Started(s.puts[t]) && t in s.queries ==> s.queries[t].visited <= space)
    ensures var s, now := Run(e, Newborn(b), inputs).0.rpc, Clock(inputs, b.time);
            && (!P.Started(s.puts[t]) ==> t in s.queries && |s.queries[t].visited| <= |space|)
            && EndTime(later, now) < ResolvedBy(s, t, space, now, gap)
  {
    hide Run, Life, NoOrphans, EngineInv, StateCounts, RpcReachability.Reachable, SentBy, PutSentBy, Accept, Tick, Iterate,
         ValidInput, Moving, P.Started, Sound, ResolvedBy;
    var a, now := Run(e, Newborn(b), inputs).0, Clock(inputs, b.time);
    SoundStanding(e, b, inputs, t, space);
    PutsResolve(e, a, later, t, space, now, gap, now);
  }

  /** In particular when no put admitted on the target ever stalled. */
  lemma UnstalledPutResolves(e: Env, b: Birth, inputs: seq<Input>, later: seq<Input>, t: Id, space: set<Address>, gap: nat)
    requires Life(e, b, inputs) && NeverStalls(e, Newborn(b), inputs, t)
    requires StaysUnresolved(e, Run(e, Newborn(b), inputs).0, later, t, space, Clock(inputs, b.time), gap)
    requires var s := Run(e, Newborn(b), inputs).0.rpc;
             s.socket.timeout > 0 && (!P.Started(s.puts[t]) && t in s.queries ==> s.queries[t].visited <= space)
    ensures var s, now := Run(e, Newborn(b), inputs).0.rpc, Clock(inputs, b.time);
            && (!P.Started(s.puts[t]) ==> t in s.queries && |s.queries[t].visited| <= |space|)
            && EndTime(later, now) < ResolvedBy(s, t, space, now, gap)
  {
    hide Run, Life, EngineInv, StaysUnresolved, NeverStalls, MovesThroughout, Moving, P.Started, ResolvedBy;
    NewbornIsSound(b);
    NewbornMoves(b, t);
    LifeIsValid(e, b, inputs);
    PutsKeepMoving(e, Newborn(b), inputs, t);
    MovesAtEnd(e, Newborn(b), inputs, t);
    EveryPutResolves(e, b, inputs, later, t, space, gap);
  }

  lemma LifeIsValid(e: Env, b: Birth, inputs: seq<Input>)
    requires Life(e, b, inputs)
    ensures ValidRun(e, Newborn(b), inputs)
  {
  }

  lemma MovesAtEnd(e: Env, a: Loop, inputs: seq<Input>, t: Id)
    requires MovesThroughout(e, a, inputs, t)
    ensures Moving(Run(e, a, inputs).0.rpc, t)
  {
  }

  lemma NewbornMoves(b: Birth, t: Id)
    ensures Moving(Newborn(b).rpc, t)
  {
  }

  lemma SoundStanding(e: Env, b: Birth, inputs: seq<Input>, t: Id, space: set<Address>)
    requires Life(e, b, inputs)
    requires var s := Run(e, Newborn(b), inputs).0.rpc;
             t in s.puts && Moving(s, t) && (!P.Started(s.puts[t]) && t in s.queries ==> s.queries[t].visited <= space)
    ensures EngineInv(Run(e, Newborn(b), inputs).0.rpc)
    ensures Standing(Run(e, Newborn(b), inputs).0.rpc, t, space, Clock(inputs, b.time))
  {
    hide Run, Life, NoOrphans, EngineInv, StateCounts, RpcReachability.Reachable, SentBy, PutSentBy, P.Started;
    EveryStateIsSound(e, b, inputs);
    var s := Run(e, Newborn(b), inputs).0.rpc;
    if t in s.queries { assert LookupSentBy(s, t, Clock(inputs, b.time)); }
  }
}
