/**
  A put that nobody ever answers. A caller looks its target up with find_node; another one
  then announces to the same target. `Rpc::get` reuses the live lookup, which will never
  start the put.
 */
module StallScenario {
  import opened Ids
  import opened Nodes
  import opened IterativeQueries
  import opened QueryCache
  import opened Lru
  import opened Rpc
  import opened RpcReports
  import opened RpcEngine
  import opened RpcPuts
  import opened RpcLiveness
  import opened RpcRuns
  import opened Actor
  import opened Scenarios

  const FIND_SELF: GetRequest := FindNode(SELF)

  function Find(g: GetSender, time: int): Input {
    Input(Get(FIND_SELF, g), TickInput(time, [], [SELF], map[], None))
  }

  function Announce(c: nat, time: int): Input {
    Input(Put(ANNOUNCE, c, []), TickInput(time, [SELF], [SELF], map[], None))
  }

  /** Only the find_node lookup is live; the given puts wait. */
  ghost predicate Finding(e: Env, a: Loop, puts: map<Id, P.Put>, time: int) {
    LookingUp(e, a.rpc, FIND_SELF, time) && a.rpc.puts == puts && forall t :: t in puts ==> !P.Started(puts[t])
  }

  lemma QuietFinding(e: Env, a: Loop, i: Input, puts: map<Id, P.Put>)
    requires Finding(e, Accept(e, a, i.message, i.tick.now).0, puts, i.tick.now)
    requires i.tick.getOrder == [SELF] && IsOrder(i.tick.putOrder, puts.Keys) && i.tick.packet == None
    requires i.message.Put? ==> PutFits(a.rpc, i.message.put, i.tick.now)
    ensures Iterate(e, a, i).0 == Accept(e, a, i.message, i.tick.now).0 && ValidIteration(e, a, i)
  {
    hide Accept, Iterate, Tick, Asked, PutFits;
    var a1 := Accept(e, a, i.message, i.tick.now).0;
    QuietTick(e, a1.rpc, i.tick, FIND_SELF);
    assert HandleMessage(e, a1.rpc, None, i.tick.now) == (a1.rpc, None);
    QuietIteration(e, a, i);
    OneOrder(SELF);
  }

  lemma FindIsAccepted(e: Env, b: Birth, g: GetSender)
    requires 0 < |e.bootstrap| <= 256 && b.id == SELF && b.timeout > 0
    ensures Finding(e, Accept(e, Newborn(b), Get(FIND_SELF, g), b.time).0, map[], b.time)
    ensures Accept(e, Newborn(b), Get(FIND_SELF, g), b.time).0.putSenders == map[]
    ensures Accept(e, Newborn(b), Get(FIND_SELF, g), b.time).0.rpc.socket.timeout == b.timeout
  {
    hide StartLookup, Replay, LookingUp;
    LaunchWaits(e, Newborn(b).rpc, FIND_SELF, b.time);
  }

  function StalledPut(e: Env): P.Put {
    P.NewPut(ANNOUNCE, [], 2 * |e.bootstrap|)
  }

  lemma AnnouncementStalls(e: Env, a: Loop, c: nat, time: int)
    requires Finding(e, a, map[], time) && a.putSenders == map[]
    ensures var a' := Accept(e, a, Put(ANNOUNCE, c, []), time).0;
            && Finding(e, a', map[SELF := StalledPut(e)], time) && PutWaiting(a', SELF) == [c]
            && a'.rpc.socket == a.rpc.socket
    ensures Stalls(a.rpc, ANNOUNCE, [], time) && Admit(a.rpc.puts, ANNOUNCE) == Proceed && PutFits(a.rpc, ANNOUNCE, time)
  {
    hide Asked;
    var s := a.rpc;
    assert Peek(EMPTY_CACHE.entries, SELF) == None;
    assert !UsableCache(s.cache, SELF, time);
    assert Promote(s.cache.entries, SELF) == s.cache.entries;
    assert s.(cache := s.cache.(entries := s.cache.entries)) == s;
    assert [] + [c] == [c];
    assert s.puts[SELF := StalledPut(e)] == map[SELF := StalledPut(e)];
    LookupIgnoresPuts(e, s, FIND_SELF, time, map[SELF := StalledPut(e)]);
  }

  /** The two calls, made at the same moment. */
  function Calls(g: GetSender, c: nat, time: int): seq<Input> {
    [Find(g, time), Announce(c, time)]
  }

  /** After the two calls the put waits for a lookup that will not start it. */
  lemma CallsStall(e: Env, b: Birth, g: GetSender, c: nat)
    requires 0 < |e.bootstrap| <= 256 && b.id == SELF && b.timeout > 0
    ensures var a := Run(e, Newborn(b), Calls(g, c, b.time)).0;
            && Life(e, b, Calls(g, c, b.time)) && !NeverStalls(e, Newborn(b), Calls(g, c, b.time), SELF)
            && Finding(e, a, map[SELF := StalledPut(e)], b.time) && PutWaiting(a, SELF) == [c]
            && a.rpc.socket.timeout == b.timeout
  {
    hide Accept, Iterate, Life, ValidIteration, Stalls, Finding, Run, NeverStalls, PutFits, Newborn;
    var find, announce := Find(g, b.time), Announce(c, b.time);
    var a0 := Newborn(b);
    LifeBegins(e, b);
    FindIsAccepted(e, b, g);
    NoOrder();
    QuietFinding(e, a0, find, map[]);
    var a1 := Iterate(e, a0, find).0;
    FewRequests(e, a1, map[], b.time);
    assert [] + [find] == [find];
    FewRequestsAreYoung(a0.rpc, BeforeTick(e, a0, find));
    FewRequestsAreYoung(BeforeTick(e, a0, find), a1.rpc);
    LifeGoesOn(e, b, [], find);
    AnnouncementStalls(e, a1, c, b.time);
    OneOrder(SELF);
    QuietFinding(e, a1, announce, map[SELF := StalledPut(e)]);
    FewRequests(e, Iterate(e, a1, announce).0, map[SELF := StalledPut(e)], b.time);
    assert [find] + [announce] == Calls(g, c, b.time);
    FewRequestsAreYoung(a1.rpc, BeforeTick(e, a1, announce));
    FewRequestsAreYoung(BeforeTick(e, a1, announce), Iterate(e, a1, announce).0.rpc);
    LifeGoesOn(e, b, [find], announce);
    StalledOnce(e, a0, find, announce);
  }

  lemma StalledOnce(e: Env, a: Loop, i: Input, j: Input)
    requires var b := Run(e, a, [i]).0; AdmitsPut(b, j.message, SELF) && Stalls(b.rpc, j.message.put, j.message.extra, j.tick.now)
    ensures !NeverStalls(e, a, [i, j], SELF)
  {
    hide Run, Stalls, AdmitsPut;
    assert [i, j][..1] == [i];
  }

  lemma FewRequests(e: Env, a: Loop, puts: map<Id, P.Put>, time: int)
    requires |e.bootstrap| <= 256 && Finding(e, a, puts, time)
    ensures a.rpc.socket.sent <= 512
  {
    hide Asked;
  }

  /** Whatever happens next, the announcer waits as long as no other put on the target is
      admitted and no value or peers lookup on it is reported. */
  lemma AnnouncerWaits(e: Env, b: Birth, g: GetSender, c: nat, later: seq<Input>)
    requires 0 < |e.bootstrap| <= 256 && b.id == SELF && b.timeout > 0
    requires var a := Run(e, Newborn(b), Calls(g, c, b.time)).0; ValidRun(e, a, later) && Forsaken(e, a, later, SELF)
    ensures var z := Run(e, Run(e, Newborn(b), Calls(g, c, b.time)).0, later).0;
            SELF in z.rpc.puts && !P.Started(z.rpc.puts[SELF]) && [c] <= PutWaiting(z, SELF)
  {
    hide Run, Life, ValidRun, Forsaken, LookingUp, EngineInv, NeverStalls;
    CallsStall(e, b, g, c);
    EveryStateIsSound(e, b, Calls(g, c, b.time));
    ForsakenPutWaits(e, Run(e, Newborn(b), Calls(g, c, b.time)).0, later, SELF);
  }

  /** In particular after the lookup itself is over: its timeout reports it, and the put stays. */
  lemma LookupEndsPutStays(e: Env, b: Birth, g: GetSender, c: nat)
    requires 0 < |e.bootstrap| <= 256 && b.id == SELF && b.timeout > 0
    ensures var a := Run(e, Newborn(b), Calls(g, c, b.time)).0;
            var i := Timeout(b.time + b.timeout);
            && SELF in DoneIds(ReportOf(e, a, i).gets)
            && ValidRun(e, a, [i]) && Forsaken(e, a, [i], SELF)
            && [c] <= PutWaiting(Iterate(e, a, i).0, SELF)
  {
    hide Run, Life, NeverStalls, Accept, Iterate, Tick, LookingUp, Asked;
    var a, i := Run(e, Newborn(b), Calls(g, c, b.time)).0, Timeout(b.time + b.timeout);
    CallsStall(e, b, g, c);
    IdleChangesNothing(e, a, i.tick.now);
    FindTimesOut(e, a.rpc, i.tick, b.time);
    OneIteration(e, a, i);
    AnnouncerWaits(e, b, g, c, [i]);
  }

  lemma OneIteration(e: Env, a: Loop, i: Input)
    ensures Run(e, a, [i]).0 == Iterate(e, a, i).0 && Run(e, a, []).0 == a
    ensures ValidRun(e, a, [i]) <==> ValidIteration(e, a, i)
    ensures Forsaken(e, a, [i], SELF) <==>
              !AdmitsPut(a, i.message, SELF) &&
              (SELF in DoneIds(ReportOf(e, a, i).gets) ==> !ValueLookup(BeforeTick(e, a, i), SELF))
  {
    hide Iterate, ValidIteration, AdmitsPut, DoneIds, ValueLookup, Tick, Accept;
    assert [i][..0] == [];
  }

  lemma FindTimesOut(e: Env, s: State, i: TickInput, time: int)
    requires LookingUp(e, s, FIND_SELF, time) && i.getOrder == [SELF] && i.packet == None && i.now - time >= s.socket.timeout
    ensures SELF in DoneIds(Tick(e, s, i).1.gets) && s.queries.Keys == {SELF} && !ValueLookup(s, SELF) && TickFits(e, s, i)
  {
    hide TickPuts, TickGets, FinishAll, Maintain, HandleMessage, ExpectedDk, AverageSubnets, MakeDone, Asked;
    var q := s.queries[SELF];
    LookupTimesOut(e, s, FIND_SELF, time, i.now);
    var d := MakeDone(SELF, q, ExpectedDk(e, s.cache), 20);
    MakeDoneId(SELF, q, ExpectedDk(e, s.cache), 20);
    assert Tick(e, s, i).1.gets == [d];
  }
}
