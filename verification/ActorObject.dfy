/** The actor loop as the object the source has: two maps of waiting channels around an engine. */
module ActorObject {
  import opened Ids
  import opened RoutingTable
  import opened IterativeQueries
  import opened Rpc
  import opened QueryCache
  import opened RpcObject
  import opened Panics
  import opened Actor
  import opened RpcReports
  import opened Answers

  class ActorLoop {
    const rpc: Engine
    var putSenders: map<Id, seq<nat>>
    var getSenders: map<Id, seq<GetSender>>

    ghost function Now(): Loop
      reads this, rpc, rpc.table, rpc.cache, rpc.socket, rpc.socket.inflight
    {
      Loop(rpc.Now(), putSenders, getSenders)
    }

    constructor (rpc: Engine)
      ensures this.rpc == rpc && Now() == Loop(rpc.Now(), map[], map[])
    {
      this.rpc := rpc;
      putSenders, getSenders := map[], map[];
    }

    method SendToAll(target: Id, senders: seq<GetSender>, r: Response) returns (sent: seq<Sent>)
      ensures sent == Broadcast(target, senders, r)
      ensures forall x :: x in sent <==>
                x.Value? && x.target == target && x.response == r &&
                exists s :: s in senders && s.channel == x.channel && Hears(s, r)
    {
      hide Hears;
      sent := [];
      assert senders[0..] == senders;
      for i := 0 to |senders|
        invariant Broadcast(target, senders, r) == sent + Broadcast(target, senders[i..], r)
      {
        assert senders[i..][1..] == senders[i + 1..];
        if Fits(senders[i].kind, r) {
          sent := sent + [Value(target, senders[i].channel, r)];
        }
      }
      assert sent == Broadcast(target, senders, r);
      BroadcastReaches(target, senders, r);
    }

    method ReplayTo(target: Id, sender: GetSender, responses: seq<Response>) returns (sent: seq<Sent>)
      ensures sent == Replay(target, sender, responses)
    {
      hide Broadcast;
      sent := [];
      assert responses[0..] == responses;
      for i := 0 to |responses|
        invariant Replay(target, sender, responses) == sent + Replay(target, sender, responses[i..])
      {
        assert responses[i..][1..] == responses[i + 1..];
        var one := SendToAll(target, [sender], responses[i]);
        sent := sent + one;
      }
    }

    /** The message half of an iteration. */
    method AcceptMessage(m: ActorMessage, now: int) returns (sent: seq<Sent>)
      requires rpc.Valid() && (m.Put? ==> PutFits(rpc.Now(), m.put, now))
      modifies this, rpc`queries, rpc`puts, rpc.table, rpc.cache`entries, rpc.socket`nextTid, rpc.socket`sent, rpc.socket.inflight
      ensures rpc.Valid()
      ensures (Now(), sent) == Accept(rpc.env, old(Now()), m, now)
    {
      hide SubmitPut, StartLookup, Replay, TableAdd, PutFits, TableInv, Balanced;
      match m
      case Put(request, channel, extra) =>
        var error := rpc.Put(request, extra, now);
        if error.None? {
          var waiting := if request.target in putSenders then putSenders[request.target] else [];
          putSenders := putSenders[request.target := waiting + [channel]];
          return [];
        }
        return [PutAnswer(request.target, channel, PutErr(error.value))];
      case Get(request, sender) =>
        var seen := rpc.Get(request, [], now);
        sent := [];
        if seen.Some? {
          sent := ReplayTo(request.target, sender, seen.value);
        }
        var waiting := if request.target in getSenders then getSenders[request.target] else [];
        getSenders := getSenders[request.target := waiting + [sender]];
        EmptyReplay(request.target, sender);
      case SeedRouting(nodes) =>
        assert nodes[0..] == nodes;
        for i := 0 to |nodes|
          invariant rpc.Valid()
          invariant SeedAll(old(rpc.table.State()), nodes, now) == SeedAll(rpc.table.State(), nodes[i..], now)
          invariant Now() == old(Now()).(rpc := old(rpc.Now()).(table := rpc.table.State()))
        {
          assert nodes[i..][1..] == nodes[i + 1..];
          var _ := rpc.table.Add(nodes[i], now);
        }
        return [];
      case Idle => return [];
    }

    /** Senders of finished lookups get their last message and are dropped. */
    method CloseLookups(dones: seq<Done>) returns (sent: seq<Sent>)
      modifies this`getSenders
      ensures (Now(), sent) == CloseGets(old(Now()), dones)
      ensures DistinctDones(dones) ==>
                forall t :: EndsTold(AnswersFor(sent, Lookups, t), GetWaiting(old(Now()), t), dones, t)
    {
      hide AnswerGets, AnswersFor, EndsTold, DistinctDones;
      ghost var all := CloseGets(Now(), dones);
      sent := [];
      assert dones[0..] == dones;
      for i := 0 to |dones|
        invariant var rest := CloseGets(Now(), dones[i..]); all.0 == rest.0 && all.1 == sent + rest.1
      {
        assert dones[i..][1..] == dones[i + 1..];
        var waiting := if dones[i].id in getSenders then getSenders[dones[i].id] else [];
        getSenders := getSenders - {dones[i].id};
        sent := sent + AnswerGets(dones[i], waiting);
      }
      assert sent + [] == sent;
      AllLookupsTold(old(Now()), dones);
    }

    method CloseStores(results: seq<(Id, PutResult)>) returns (sent: seq<Sent>)
      modifies this`putSenders
      ensures (Now(), sent) == ClosePuts(old(Now()), results)
      ensures DistinctResults(results) ==>
                forall t :: ResultsTold(AnswersFor(sent, Stores, t), PutWaiting(old(Now()), t), results, t)
    {
      hide AnswerPuts, AnswersFor, ResultsTold, DistinctResults;
      ghost var all := ClosePuts(Now(), results);
      sent := [];
      assert results[0..] == results;
      for i := 0 to |results|
        invariant var rest := ClosePuts(Now(), results[i..]); all.0 == rest.0 && all.1 == sent + rest.1
      {
        assert results[i..][1..] == results[i + 1..];
        var id := results[i].0;
        var waiting := if id in putSenders then putSenders[id] else [];
        putSenders := putSenders - {id};
        sent := sent + AnswerPuts(id, results[i].1, waiting);
      }
      assert sent + [] == sent;
      AllStoresTold(old(Now()), results);
    }

    /** One turn of `run`. */
    method Turn(i: Input) returns (sent: seq<Sent>)
      requires rpc.Valid() && Survives(rpc.env, Now(), i)
      modifies this, rpc, rpc.table, rpc.cache, rpc.socket, rpc.socket.inflight
      ensures rpc.Valid() && (rpc.table == old(rpc.table) || fresh(rpc.table))
      ensures (Now(), sent) == Iterate(rpc.env, old(Now()), i)
    {
      hide Accept, Tick, CloseGets, ClosePuts, Broadcast, PutFits, TickSurvives, TableInv, Balanced;
      sent := AcceptMessage(i.message, i.tick.now);
      var report := rpc.Advance(i.tick);
      var values: seq<Sent> := [];
      if report.response.Some? {
        var (target, response) := report.response.value;
        var waiting := if target in getSenders then getSenders[target] else [];
        values := SendToAll(target, waiting, response);
      }
      var gets := CloseLookups(report.gets);
      var puts := CloseStores(report.puts);
      sent := sent + (values + gets + puts);
    }
  }

  lemma AllLookupsTold(a: Loop, dones: seq<Done>)
    ensures DistinctDones(dones) ==>
              forall t :: EndsTold(AnswersFor(CloseGets(a, dones).1, Lookups, t), GetWaiting(a, t), dones, t)
  {
    if DistinctDones(dones) {
      forall t {
        CloseGetsTell(a, dones, t);
      }
    }
  }

  lemma AllStoresTold(a: Loop, results: seq<(Id, PutResult)>)
    ensures DistinctResults(results) ==>
              forall t :: ResultsTold(AnswersFor(ClosePuts(a, results).1, Stores, t), PutWaiting(a, t), results, t)
  {
    if DistinctResults(results) {
      forall t {
        ClosePutsTell(a, results, t);
      }
    }
  }

  lemma EmptyReplay(target: Id, sender: GetSender)
    ensures Replay(target, sender, []) == []
  {
  }
}
