/**
  A peer announcement that ends in a concurrency error, which `announce_peer` declares
  unreachable (src/dht.rs:278-283): the only node it was stored at answers 301.
 */
module ConflictScenario {
  import opened Ids
  import opened Nodes
  import opened RoutingTable
  import opened Sockets
  import opened QueryCache
  import opened Rpc
  import opened RpcLiveness
  import opened RpcCounts
  import opened RpcRuns
  import opened Actor
  import opened Scenarios
  import opened PanicScenario
  import opened SentScenario

  /** The poll after the refusal. */
  function LastPoll(now: int): Input {
    Input(Idle, TickInput(now, [SELF], [], map[], None))
  }

  lemma RefusalIsPolled(e: Env, s: State, c: Call, time: int)
    requires Usable(e, c) && c.extra == [] && Refused(e, s, c, 301, 1, time)
    ensures P.PollCompletion(s.puts[SELF], s.socket, time + TIMEOUT) == P.Failed(P.Concurrency(P.CasFailed))
  {
    hide AllNodes, P.Tally, P.Copies;
    P.CopiesTally(301, 1);
    var p := s.puts[SELF];
    assert p.inflight == [TidAt(0)];
    assert TidAt(0) !in s.socket.requests;
  }

  /** The next poll fails the announcement with a concurrency error. */
  lemma RefusalIsReported(e: Env, a: Loop, c: Call, time: int)
    requires Usable(e, c) && c.extra == [] && Refusing(e, a, c, 301, 1, time)
    ensures var i := LastPoll(time + TIMEOUT);
            && PutAnswer(SELF, c.channel, PutErr(P.Concurrency(P.CasFailed))) in Iterate(e, a, i).1
            && ValidIteration(e, a, i) && Iterate(e, a, i).0.rpc.socket.sent == a.rpc.socket.sent
  {
    hide AllNodes, ExpectedDk, AverageSubnets, P.PollCompletion, RefusedPut;
    var i, s, result := LastPoll(time + TIMEOUT).tick, a.rpc, PutErr(P.Concurrency(P.CasFailed));
    RefusalIsPolled(e, s, c, time);
    IdleChangesNothing(e, a, i.now);
    PolledOnly(s.puts, s.socket, i.now, result);
    assert TickGets(s.queries, s.socket, [], ExpectedDk(e, s.cache), AverageSubnets(s.cache), i.now) == (s.queries, s.socket, []);
    var report := Tick(e, s, i).1;
    assert report.puts == [(SELF, result)] && report.gets == [] && report.response == None;
    ReportedToOne(e, a, LastPoll(time + TIMEOUT), c, result);
    OneOrder(SELF);
    NoOrder();
    RefusedKeys(e, s, c, 301, 1, time);
    IterateRpc(e, a, LastPoll(time + TIMEOUT));
  }

  lemma PolledOnly(puts: map<Id, P.Put>, sock: Socket, now: int, result: PutResult)
    requires SELF in puts && result.PutErr? && P.PollCompletion(puts[SELF], sock, now) == P.Failed(result.error)
    ensures TickPuts(puts, sock, [SELF], now) == [(SELF, result)]
  {
    hide P.PollCompletion;
    assert [SELF][1..] == [];
    assert TickPuts(puts, sock, [], now) == [];
  }

  lemma ReportedToOne(e: Env, a: Loop, i: Input, c: Call, result: PutResult)
    requires i.message.Idle? && PutWaiting(a, SELF) == [c.channel]
    requires var report := Tick(e, a.rpc, i.tick).1; report.puts == [(SELF, result)] && report.gets == [] && report.response == None
    ensures PutAnswer(SELF, c.channel, result) in Iterate(e, a, i).1
  {
    hide Tick;
    var (rpc, report) := Tick(e, a.rpc, i.tick);
    var a1 := a.(rpc := rpc);
    assert CloseGets(a1, []) == (a1, []);
    assert AnswerPuts(SELF, result, [c.channel])[0] == PutAnswer(SELF, c.channel, result);
    assert ClosePuts(a1, report.puts).1[0] == PutAnswer(SELF, c.channel, result);
  }

  function ConflictRun(e: Env, c: Call, time: int): seq<Input>
    requires Usable(e, c)
  {
    RefusalRun(e, c, 301, 1, time) + [LastPoll(time + TIMEOUT)]
  }

  /** In three iterations of a new node with one bootstrap node, all of them valid, the
      announcer's channel gets a concurrency error. */
  lemma AnnouncementConflicts(e: Env, b: Birth, channel: nat)
    requires PrivateNetwork(e, 1) && b.id == SELF && b.timeout == TIMEOUT
    ensures var inputs := ConflictRun(e, Call(channel, []), b.time);
            && |inputs| == 3 && Life(e, b, inputs)
            && PutAnswer(SELF, channel, PutErr(P.Concurrency(P.CasFailed))) in Run(e, Newborn(b), inputs).1
  {
    hide Run, Life, Refusing, Accept, Tick, Iterate, ValidIteration, Newborn, YoungStep;
    var c := Call(channel, []);
    var first, i := RefusalRun(e, c, 301, 1, b.time), LastPoll(b.time + TIMEOUT);
    assert RefusalRun(e, c, 301, 0, b.time) == AnswerRun(e, b.time, 1, c);
    RefusalsArrive(e, b, c, 301, 1);
    var a := Run(e, Newborn(b), first).0;
    RefusalIsReported(e, a, c, b.time);
    RefusingSent(e, a, c, 301, 1, b.time);
    IdleChangesNothing(e, a, i.tick.now);
    FewRequestsAreYoung(a.rpc, BeforeTick(e, a, i));
    FewRequestsAreYoung(BeforeTick(e, a, i), Iterate(e, a, i).0.rpc);
    LifeGoesOn(e, b, first, i);
    SentByLast(e, Newborn(b), first, i, PutAnswer(SELF, channel, PutErr(P.Concurrency(P.CasFailed))));
  }

  lemma SentByLast(e: Env, a: Loop, inputs: seq<Input>, i: Input, x: Sent)
    requires x in Iterate(e, Run(e, a, inputs).0, i).1
    ensures x in Run(e, a, inputs + [i]).1
  {
    hide Iterate;
    assert (inputs + [i])[..|inputs|] == inputs;
  }
}
