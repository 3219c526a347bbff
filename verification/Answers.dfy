/**
  What the actor loop says in the messages it sends (src/dht.rs): whose result each final
  answer carries, which callers hear of a value, and which puts are refused at once.
 */
module Answers {
  import opened Ids
  import opened Nodes
  import opened IterativeQueries
  import opened Rpc
  import opened RpcReports
  import opened RpcLiveness
  import opened Actor

  /** Who waits for the lookup `t` when the tick runs: the earlier callers and then the new one. */
  function Listeners(a: Loop, m: ActorMessage, t: Id): seq<GetSender> {
    GetWaiting(a, t) + (if m.Get? && m.get.target == t then [m.sender] else [])
  }

  /** Who waits for the put to `t` when the tick runs, unless the new one was refused. */
  function Putters(a: Loop, m: ActorMessage, t: Id): seq<nat> {
    PutWaiting(a, t) + (if m.Put? && m.put.target == t && Refusal(a, m).None? then [m.channel] else [])
  }

  /** The conflict with which the put in the message is turned away, if any: it is mutable and
      meets another of its target with a different signature, and is older than that, does not
      name its sequence number in `cas`, or has no `cas`. */
  function Refusal(a: Loop, m: ActorMessage): Option<P.ConcurrencyError> {
    if !(m.Put? && m.put.PutMutable? && m.put.target in a.rpc.puts && a.rpc.puts[m.put.target].request.PutMutable?) then None
    else
      var inflight := a.rpc.puts[m.put.target].request;
      if m.put.sig == inflight.sig then None
      else if m.put.seqNo < inflight.seqNo then Some(P.NotMostRecent)
      else if m.put.cas.None? then Some(P.ConflictRisk)
      else if m.put.cas.value != inflight.seqNo then Some(P.CasFailed)
      else None
  }

  /** Which final answers are meant: those of lookups or those of puts. */
  datatype Half = Lookups | Stores

  predicate IsAnswer(x: Sent, half: Half, t: Id) {
    x.target == t && if half.Lookups? then x.GetAnswer? else x.PutAnswer?
  }

  /** The final answers for `t`, in the order in which they are sent. */
  function AnswersFor(sent: seq<Sent>, half: Half, t: Id): seq<Sent> {
    if sent == [] then []
    else
      var rest := AnswersFor(sent[..|sent| - 1], half, t);
      if IsAnswer(sent[|sent| - 1], half, t) then rest + [sent[|sent| - 1]] else rest
  }

  lemma {:induction false} AnswersForConcat(a: seq<Sent>, b: seq<Sent>, half: Half, t: Id)
    ensures AnswersFor(a + b, half, t) == AnswersFor(a, half, t) + AnswersFor(b, half, t)
  {
    hide IsAnswer;
    if b == [] {
      assert a + b == a;
    } else {
      AnswersForConcat(a, b[..|b| - 1], half, t);
      assert (a + b)[..|a + b| - 1] == a + b[..|b| - 1];
    }
  }

  lemma {:induction false} AllAnswers(sent: seq<Sent>, half: Half, t: Id)
    requires forall x :: x in sent ==> IsAnswer(x, half, t)
    ensures AnswersFor(sent, half, t) == sent
  {
    hide IsAnswer;
    if sent != [] {
      AllAnswers(sent[..|sent| - 1], half, t);
    }
  }

  lemma {:induction false} NoAnswers(sent: seq<Sent>, half: Half, t: Id)
    requires forall x :: x in sent ==> !IsAnswer(x, half, t)
    ensures AnswersFor(sent, half, t) == []
  {
    hide IsAnswer;
    if sent != [] {
      NoAnswers(sent[..|sent| - 1], half, t);
    }
  }

  // --- lookups ---

  /** `x` tells `sender` how the lookup of `d` ended: a caller that asked for nodes gets the
      nodes reported, one that asked for diagnostics the counters reported or zeros, and any
      other is only told that it is over. */
  predicate Tells(x: Sent, sender: GetSender, d: Done) {
    && x.GetAnswer? && x.target == d.id && x.channel == sender.channel
    && (sender.kind.WantsClosest? ==> x.final.ClosestNodesFound? && x.final.nodes == d.closest)
    && (sender.kind.WantsDetailed? && d.outcome.Some? ==> x.final.DetailedOutcome? && x.final.outcome == d.outcome.value)
    && (sender.kind.WantsDetailed? && d.outcome.None? ==>
          x.final.DetailedOutcome? && x.final.outcome == Outcome(0, 0, 0, 0, 0, 0, 0))
    && (sender.kind.WantsPeers? || sender.kind.WantsMutable? || sender.kind.WantsImmutable? ==> x.final.Closed?)
  }

  /** `told` are the final answers of the lookups `dones` to the callers `listeners` of `t`. */
  ghost predicate EndsTold(told: seq<Sent>, listeners: seq<GetSender>, dones: seq<Done>, t: Id) {
    && (told != [] ==> exists d :: d in dones && d.id == t)
    && (forall d :: d in dones && d.id == t ==>
          |told| == |listeners| && forall k :: 0 <= k < |told| ==> Tells(told[k], listeners[k], d))
  }

  lemma {:induction false} AnswerGetsTell(d: Done, senders: seq<GetSender>)
    ensures var sent := AnswerGets(d, senders);
            && |sent| == |senders|
            && (forall k :: 0 <= k < |sent| ==> Tells(sent[k], senders[k], d))
  {
    if senders != [] { AnswerGetsTell(d, senders[1..]); }
  }

  lemma EndsToldCons(first: seq<Sent>, rest: seq<Sent>, mine: seq<GetSender>, others: seq<GetSender>, dones: seq<Done>, t: Id)
    requires dones != [] && DistinctDones(dones) && EndsTold(rest, others, dones[1..], t)
    requires if dones[0].id == t then |first| == |mine| && forall k :: 0 <= k < |first| ==> Tells(first[k], mine[k], dones[0])
             else first == [] && others == mine
    ensures EndsTold(first + rest, mine, dones, t)
  {
    hide Tells;
    assert dones == [dones[0]] + dones[1..];
    if dones[0].id == t {
      DoneIdsCons(dones);
      InDoneIds(dones[1..]);
      assert forall d :: d in dones[1..] ==> d.id != t;
      assert first + rest == first;
    } else {
      assert first + rest == rest;
    }
  }

  /** Closing lookups says to each waiting caller of a finished lookup how it ended, once and in
      the order in which they came, and to nobody else. */
  lemma {:induction false} CloseGetsTell(a: Loop, dones: seq<Done>, t: Id)
    requires DistinctDones(dones)
    ensures EndsTold(AnswersFor(CloseGets(a, dones).1, Lookups, t), GetWaiting(a, t), dones, t)
    decreases |dones|
  {
    hide AnswerGets, Tells, IsAnswer, DistinctDones, EndsTold;
    if dones == [] {
      NothingTold(GetWaiting(a, t), t);
    } else {
      var d := dones[0];
      var b := a.(getSenders := a.getSenders - {d.id});
      var first, rest := AnswerGets(d, GetWaiting(a, d.id)), CloseGets(b, dones[1..]).1;
      TailDistinct(dones);
      CloseGetsTell(b, dones[1..], t);
      AnswersForConcat(first, rest, Lookups, t);
      AnswerGetsTell(d, GetWaiting(a, d.id));
      AnswersAreGets(first, GetWaiting(a, d.id), d);
      if d.id == t {
        AllAnswers(first, Lookups, t);
      } else {
        NoAnswers(first, Lookups, t);
      }
      EndsToldCons(AnswersFor(first, Lookups, t), AnswersFor(rest, Lookups, t), GetWaiting(a, t), GetWaiting(b, t), dones, t);
    }
  }

  lemma NothingTold(listeners: seq<GetSender>, t: Id)
    ensures EndsTold([], listeners, [], t)
  {
  }

  lemma TailDistinct(dones: seq<Done>)
    requires dones != [] && DistinctDones(dones)
    ensures DistinctDones(dones[1..])
  {
  }

  lemma {:induction false} CloseGetsOnly(a: Loop, dones: seq<Done>)
    ensures forall x :: x in CloseGets(a, dones).1 ==> x.GetAnswer?
    decreases |dones|
  {
    hide AnswerGets, Tells;
    if dones != [] {
      CloseGetsOnly(a.(getSenders := a.getSenders - {dones[0].id}), dones[1..]);
      AnswerGetsTell(dones[0], GetWaiting(a, dones[0].id));
      AnswersAreGets(AnswerGets(dones[0], GetWaiting(a, dones[0].id)), GetWaiting(a, dones[0].id), dones[0]);
    }
  }

  lemma AnswersAreGets(sent: seq<Sent>, senders: seq<GetSender>, d: Done)
    requires |sent| == |senders| && forall k :: 0 <= k < |sent| ==> Tells(sent[k], senders[k], d)
    ensures forall x :: x in sent ==> x.GetAnswer? && (forall t :: IsAnswer(x, Lookups, t) <==> t == d.id)
  {
  }

  lemma InDoneIds(dones: seq<Done>)
    ensures forall d :: d in dones ==> d.id in DoneIds(dones)
  {
  }

  // --- puts ---

  /** `told` are the results of the puts reported to the callers `putters` of `t`. */
  ghost predicate ResultsTold(told: seq<Sent>, putters: seq<nat>, results: seq<(Id, PutResult)>, t: Id) {
    && (told != [] ==> exists r :: r in results && r.0 == t)
    && (forall r :: r in results && r.0 == t ==>
          |told| == |putters| && forall k :: 0 <= k < |told| ==> told[k] == PutAnswer(t, putters[k], r.1))
  }

  lemma {:induction false} AnswerPutsTell(id: Id, result: PutResult, channels: seq<nat>)
    ensures var sent := AnswerPuts(id, result, channels);
            && |sent| == |channels|
            && (forall k :: 0 <= k < |sent| ==> sent[k] == PutAnswer(id, channels[k], result))
  {
    if channels != [] { AnswerPutsTell(id, result, channels[1..]); }
  }

  lemma ResultIdsCons(results: seq<(Id, PutResult)>)
    requires results != [] && DistinctResults(results)
    ensures PutIds(results) == {results[0].0} + PutIds(results[1..])
    ensures results[0].0 !in PutIds(results[1..])
    ensures forall r :: r in results[1..] ==> r.0 in PutIds(results[1..])
  {
    PutIdsSplit(results);
    forall r | r in results[1..] ensures r.0 != results[0].0 {
      var i :| 0 <= i < |results[1..]| && results[1..][i] == r;
      assert results[i + 1] == r;
    }
  }

  lemma ResultsToldCons(first: seq<Sent>, rest: seq<Sent>, mine: seq<nat>, others: seq<nat>, results: seq<(Id, PutResult)>, t: Id)
    requires results != [] && DistinctResults(results) && ResultsTold(rest, others, results[1..], t)
    requires if results[0].0 == t then |first| == |mine| && forall k :: 0 <= k < |first| ==> first[k] == PutAnswer(t, mine[k], results[0].1)
             else first == [] && others == mine
    ensures ResultsTold(first + rest, mine, results, t)
  {
    assert results == [results[0]] + results[1..];
    if results[0].0 == t {
      ResultIdsCons(results);
      assert forall r :: r in results[1..] ==> r.0 != t;
      assert first + rest == first;
    } else {
      assert first + rest == rest;
    }
  }

  /** Closing stores gives each waiting caller of a put its reported result, once and in the order
      in which they came, and nobody else. */
  lemma {:induction false} ClosePutsTell(a: Loop, results: seq<(Id, PutResult)>, t: Id)
    requires DistinctResults(results)
    ensures ResultsTold(AnswersFor(ClosePuts(a, results).1, Stores, t), PutWaiting(a, t), results, t)
    decreases |results|
  {
    hide AnswerPuts, IsAnswer, DistinctResults, ResultsTold;
    if results == [] {
      NoResults(PutWaiting(a, t), t);
    } else {
      var (id, result) := results[0];
      var b := a.(putSenders := a.putSenders - {id});
      var first, rest := AnswerPuts(id, result, PutWaiting(a, id)), ClosePuts(b, results[1..]).1;
      ResultsTail(results);
      ClosePutsTell(b, results[1..], t);
      AnswersForConcat(first, rest, Stores, t);
      AnswerPutsTell(id, result, PutWaiting(a, id));
      AnswersArePuts(first, id);
      if id == t {
        AllAnswers(first, Stores, t);
      } else {
        NoAnswers(first, Stores, t);
      }
      ResultsToldCons(AnswersFor(first, Stores, t), AnswersFor(rest, Stores, t), PutWaiting(a, t), PutWaiting(b, t), results, t);
    }
  }

  lemma NoResults(putters: seq<nat>, t: Id)
    ensures ResultsTold([], putters, [], t)
  {
  }

  lemma ResultsTail(results: seq<(Id, PutResult)>)
    requires results != [] && DistinctResults(results)
    ensures DistinctResults(results[1..])
  {
  }

  lemma AnswersArePuts(sent: seq<Sent>, id: Id)
    requires forall k :: 0 <= k < |sent| ==> sent[k].PutAnswer? && sent[k].target == id
    ensures forall x :: x in sent ==> x.PutAnswer? && (forall t :: IsAnswer(x, Stores, t) <==> t == id)
  {
  }

  lemma {:induction false} ClosePutsOnly(a: Loop, results: seq<(Id, PutResult)>)
    ensures forall x :: x in ClosePuts(a, results).1 ==> x.PutAnswer?
    decreases |results|
  {
    hide AnswerPuts;
    if results != [] {
      ClosePutsOnly(a.(putSenders := a.putSenders - {results[0].0}), results[1..]);
      AnswerPutsTell(results[0].0, results[0].1, PutWaiting(a, results[0].0));
    }
  }

  // --- values ---

  /** A caller hears of peers, of mutable items or of immutable values according to what it asked
      for; one that asked for diagnostics hears of mutable items as well. */
  predicate Hears(sender: GetSender, r: Response) {
    && (r.Peers? ==> sender.kind.WantsPeers?)
    && (r.Immutable? ==> sender.kind.WantsImmutable?)
    && (r.Mutable? ==> sender.kind.WantsMutable? || sender.kind.WantsDetailed?)
  }

  lemma {:induction false} BroadcastReaches(t: Id, senders: seq<GetSender>, r: Response)
    ensures forall x :: x in Broadcast(t, senders, r) <==>
              x.Value? && x.target == t && x.response == r &&
              exists s :: s in senders && s.channel == x.channel && Hears(s, r)
  {
    if senders != [] {
      BroadcastReaches(t, senders[1..], r);
      assert senders == [senders[0]] + senders[1..];
      assert Fits(senders[0].kind, r) <==> Hears(senders[0], r);
    }
  }

  lemma {:induction false} ReplayReaches(t: Id, sender: GetSender, responses: seq<Response>)
    ensures forall x :: x in Replay(t, sender, responses) <==>
              x.Value? && x.target == t && x.channel == sender.channel && x.response in responses && Hears(sender, x.response)
  {
    hide Broadcast, Hears;
    if responses != [] {
      ReplayReaches(t, sender, responses[1..]);
      BroadcastReaches(t, [sender], responses[0]);
      assert responses == [responses[0]] + responses[1..];
    }
  }

  // --- one iteration ---

  /** A put is queued, or turned away with its conflict at once. */
  lemma AcceptPutSpeaks(e: Env, a: Loop, m: ActorMessage, now: int)
    requires m.Put?
    ensures var (a', sent) := Accept(e, a, m, now);
            && a'.getSenders == a.getSenders
            && (Refusal(a, m).Some? ==>
                  && a'.putSenders == a.putSenders
                  && sent == [PutAnswer(m.put.target, m.channel, PutErr(P.Concurrency(Refusal(a, m).value)))])
            && (Refusal(a, m).None? ==>
                  && sent == []
                  && a'.putSenders == a.putSenders[m.put.target := PutWaiting(a, m.put.target) + [m.channel]])
  {
    hide StartLookup, P.Start, UsableCache, CachedNodes;
  }

  /** The message half queues the caller, or turns a put away with its conflict at once. */
  lemma AcceptSpeaks(e: Env, a: Loop, m: ActorMessage, now: int, t: Id)
    ensures var (a', sent) := Accept(e, a, m, now);
            && GetWaiting(a', t) == Listeners(a, m, t) && PutWaiting(a', t) == Putters(a, m, t)
            && AnswersFor(sent, Lookups, t) == []
            && AnswersFor(sent, Stores, t) ==
               (if m.Put? && m.put.target == t && Refusal(a, m).Some?
                then [PutAnswer(t, m.channel, PutErr(P.Concurrency(Refusal(a, m).value)))] else [])
  {
    hide StartLookup, SeedAll, Replay, SubmitPut, Refusal, AnswersFor;
    var sent := Accept(e, a, m, now).1;
    if m.Get? {
      ReplayReaches(m.get.target, m.sender, if m.get.target in a.rpc.queries then a.rpc.queries[m.get.target].responses else []);
    } else if m.Put? {
      AcceptPutSpeaks(e, a, m, now);
    }
    NoAnswers(sent, Lookups, t);
    if m.Put? && m.put.target == t && Refusal(a, m).Some? {
      AllAnswers(sent, Stores, t);
    } else {
      NoAnswers(sent, Stores, t);
    }
  }

  /** Values are no final answers, and closing lookups and stores gives each half its own. */
  lemma HalvesApart(values: seq<Sent>, gets: seq<Sent>, puts: seq<Sent>, t: Id)
    requires forall x :: x in values ==> x.Value?
    requires forall x :: x in gets ==> x.GetAnswer?
    requires forall x :: x in puts ==> x.PutAnswer?
    ensures AnswersFor(values + gets + puts, Lookups, t) == AnswersFor(gets, Lookups, t)
    ensures AnswersFor(values + gets + puts, Stores, t) == AnswersFor(puts, Stores, t)
  {
    NoAnswers(values, Lookups, t);
    NoAnswers(values, Stores, t);
    NoAnswers(gets, Stores, t);
    NoAnswers(puts, Lookups, t);
    hide AnswersFor, IsAnswer;
    AnswersForConcat(values + gets, puts, Lookups, t);
    AnswersForConcat(values, gets, Lookups, t);
    AnswersForConcat(values + gets, puts, Stores, t);
    AnswersForConcat(values, gets, Stores, t);
  }

  /** The tick half: its final lookup answers and put answers are those of the two closing steps. */
  lemma AdvanceHalves(e: Env, a: Loop, i: TickInput, t: Id)
    ensures var (rpc, report) := Tick(e, a.rpc, i);
            var (a2, gets) := CloseGets(a.(rpc := rpc), report.gets);
            && AnswersFor(Advance(e, a, i).1, Lookups, t) == AnswersFor(gets, Lookups, t)
            && AnswersFor(Advance(e, a, i).1, Stores, t) == AnswersFor(ClosePuts(a2, report.puts).1, Stores, t)
            && a2.putSenders == a.putSenders
  {
    hide Tick, Broadcast, CloseGets, ClosePuts, DoneIds, Hears, AnswersFor, IsAnswer, SenderOccurs, GetsAnswered, PutsAnswered;
    var (rpc, report) := Tick(e, a.rpc, i);
    var a1 := a.(rpc := rpc);
    var values := match report.response
                  case None => []
                  case Some((target, response)) => Broadcast(target, GetWaiting(a1, target), response);
    if report.response.Some? {
      BroadcastReaches(report.response.value.0, GetWaiting(a1, report.response.value.0), report.response.value.1);
    }
    var (a2, gets) := CloseGets(a1, report.gets);
    CloseGetsConserves(a1, report.gets, t, 0);
    CloseGetsOnly(a1, report.gets);
    ClosePutsOnly(a2, report.puts);
    HalvesApart(values, gets, ClosePuts(a2, report.puts).1, t);
  }

  lemma AdvanceSpeaks(e: Env, a: Loop, i: TickInput, t: Id)
    requires ValidInput(a.rpc, i)
    ensures var (_, report) := Tick(e, a.rpc, i);
            && EndsTold(AnswersFor(Advance(e, a, i).1, Lookups, t), GetWaiting(a, t), report.gets, t)
            && ResultsTold(AnswersFor(Advance(e, a, i).1, Stores, t), PutWaiting(a, t), report.puts, t)
  {
    hide Tick, Advance, CloseGets, ClosePuts, ValidInput, Tells, DistinctDones, DistinctResults, AnswersFor;
    TickReports(e, a.rpc, i);
    var (rpc, report) := Tick(e, a.rpc, i);
    var a1 := a.(rpc := rpc);
    AdvanceHalves(e, a, i, t);
    CloseGetsTell(a1, report.gets, t);
    ClosePutsTell(CloseGets(a1, report.gets).0, report.puts, t);
  }

  /** In one iteration, a target whose lookup is reported has each of its callers told, once and
      in the order in which they came, how the lookup ended: the nodes reported, the counters
      reported (zeros where there are none), or only that it is over. Nobody else is told. */
  lemma EndedLookupsTold(e: Env, a: Loop, i: Input, t: Id)
    requires ValidIteration(e, a, i)
    ensures EndsTold(AnswersFor(Iterate(e, a, i).1, Lookups, t), Listeners(a, i.message, t), ReportOf(e, a, i).gets, t)
  {
    hide Accept, Advance, Tick, ValidInput, IterationFits, EndsTold, ResultsTold, AnswersFor;
    var (a1, first) := Accept(e, a, i.message, i.tick.now);
    AcceptSpeaks(e, a, i.message, i.tick.now, t);
    AdvanceSpeaks(e, a1, i.tick, t);
    var second := Advance(e, a1, i.tick).1;
    AnswersForConcat(first, second, Lookups, t);
    assert [] + AnswersFor(second, Lookups, t) == AnswersFor(second, Lookups, t);
  }

  /** In one iteration, the callers of a put that is reported get exactly its result, once and in
      the order in which they came; a put turned away gets its conflict; nobody else is answered. */
  lemma EndedPutsTold(e: Env, a: Loop, i: Input, t: Id)
    requires ValidIteration(e, a, i)
    ensures var told := AnswersFor(Iterate(e, a, i).1, Stores, t);
            if i.message.Put? && i.message.put.target == t && Refusal(a, i.message).Some? then
              && told != [] && told[0] == PutAnswer(t, i.message.channel, PutErr(P.Concurrency(Refusal(a, i.message).value)))
              && ResultsTold(told[1..], Putters(a, i.message, t), ReportOf(e, a, i).puts, t)
            else ResultsTold(told, Putters(a, i.message, t), ReportOf(e, a, i).puts, t)
  {
    hide Accept, Advance, Tick, ValidInput, IterationFits, EndsTold, ResultsTold, AnswersFor;
    var (a1, first) := Accept(e, a, i.message, i.tick.now);
    AcceptSpeaks(e, a, i.message, i.tick.now, t);
    AdvanceSpeaks(e, a1, i.tick, t);
    var second := Advance(e, a1, i.tick).1;
    AnswersForConcat(first, second, Stores, t);
    assert [] + AnswersFor(second, Stores, t) == AnswersFor(second, Stores, t);
  }

  /** In iteration `k` of a run, `x` tells a waiting caller how a lookup reported there ended. */
  ghost predicate ToldAt(e: Env, a: Loop, inputs: seq<Input>, k: nat, x: Sent)
    requires k < |inputs|
  {
    var b := Run(e, a, inputs[..k]).0;
    exists d, s :: d in ReportOf(e, b, inputs[k]).gets && s in Listeners(b, inputs[k].message, x.target) && Tells(x, s, d)
  }

  /** Over every run, each final lookup answer carries the result with which the lookup was
      reported, in the kind the caller asked for. */
  lemma {:induction false} EveryAnswerIsTold(e: Env, a: Loop, inputs: seq<Input>, x: Sent)
    requires ValidRun(e, a, inputs) && x in Run(e, a, inputs).1 && x.GetAnswer?
    ensures exists k :: 0 <= k < |inputs| && ToldAt(e, a, inputs, k, x)
  {
    hide Iterate, ValidIteration, Tells, EndsTold, AnswersFor, Listeners, ReportOf;
    if inputs != [] {
      var n := |inputs| - 1;
      var init, last := inputs[..n], inputs[n];
      var (b, sent) := Run(e, a, init);
      if x in sent {
        EveryAnswerIsTold(e, a, init, x);
        var k :| 0 <= k < n && ToldAt(e, a, init, k, x);
        ToldInPrefix(e, a, inputs, n, k, x);
      } else {
        EndedLookupsTold(e, b, last, x.target);
        OneToldAt(Iterate(e, b, last).1, Listeners(b, last.message, x.target), ReportOf(e, b, last).gets, x);
        assert ToldAt(e, a, inputs, n, x);
      }
    }
  }

  lemma ToldInPrefix(e: Env, a: Loop, inputs: seq<Input>, n: nat, k: nat, x: Sent)
    requires k < n <= |inputs| && ToldAt(e, a, inputs[..n], k, x)
    ensures ToldAt(e, a, inputs, k, x)
  {
    hide Run, Tells, Listeners, ReportOf;
    assert inputs[..n][..k] == inputs[..k];
  }

  lemma OneToldAt(sent: seq<Sent>, listeners: seq<GetSender>, dones: seq<Done>, x: Sent)
    requires x in sent && x.GetAnswer? && EndsTold(AnswersFor(sent, Lookups, x.target), listeners, dones, x.target)
    ensures exists d, s :: d in dones && s in listeners && Tells(x, s, d)
  {
    hide Tells, AnswersFor;
    AnswersKept(sent, x);
    var told := AnswersFor(sent, Lookups, x.target);
    var k :| 0 <= k < |told| && told[k] == x;
    var d :| d in dones && d.id == x.target;
    assert Tells(x, listeners[k], d);
  }

  lemma {:induction false} AnswersKept(sent: seq<Sent>, x: Sent)
    requires x in sent && x.GetAnswer?
    ensures x in AnswersFor(sent, Lookups, x.target)
  {
    if x != sent[|sent| - 1] { AnswersKept(sent[..|sent| - 1], x); }
  }

  // --- values in one iteration ---

  /** The new caller joins a lookup that already delivered this response. */
  predicate JoinsLate(a: Loop, m: ActorMessage, x: Sent) {
    && m.Get? && x.Value? && m.get.target == x.target && m.sender.channel == x.channel && Hears(m.sender, x.response)
    && x.target in a.rpc.queries && x.response in a.rpc.queries[x.target].responses
  }

  /** A waiting caller gets the response that this tick reports. */
  predicate HearsNow(a: Loop, m: ActorMessage, r: Option<(Id, Response)>, x: Sent) {
    && x.Value? && r == Some((x.target, x.response))
    && exists s :: s in Listeners(a, m, x.target) && s.channel == x.channel && Hears(s, x.response)
  }

  /** The values sent in one iteration are exactly the response of the tick, to each waiting caller
      that asked for its kind, and what a lookup already delivered, to a caller that joins it. */
  lemma ValuesReach(e: Env, a: Loop, i: Input, x: Sent)
    requires x.Value?
    ensures x in Iterate(e, a, i).1 <==> JoinsLate(a, i.message, x) || HearsNow(a, i.message, ReportOf(e, a, i).response, x)
  {
    hide Tick, Hears, StartLookup, SubmitPut, SeedAll, Replay, Broadcast, CloseGets, ClosePuts;
    var m := i.message;
    var (a1, first) := Accept(e, a, m, i.tick.now);
    var (rpc, report) := Tick(e, a1.rpc, i.tick);
    if m.Get? {
      ReplayReaches(m.get.target, m.sender, if m.get.target in a.rpc.queries then a.rpc.queries[m.get.target].responses else []);
    }
    assert x in first <==> JoinsLate(a, m, x);
    if report.response.Some? {
      BroadcastReaches(report.response.value.0, GetWaiting(a1, report.response.value.0), report.response.value.1);
      AcceptQueues(e, a, m, i.tick.now, report.response.value.0);
    }
    CloseGetsOnly(a1.(rpc := rpc), report.gets);
    ClosePutsOnly(CloseGets(a1.(rpc := rpc), report.gets).0, report.puts);
  }

  lemma AcceptQueues(e: Env, a: Loop, m: ActorMessage, now: int, t: Id)
    ensures GetWaiting(Accept(e, a, m, now).0, t) == Listeners(a, m, t)
  {
    AcceptSpeaks(e, a, m, now, t);
  }
}
