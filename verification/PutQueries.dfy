/**
  A store operation (src/rpc/put_query.rs): sending to the closest nodes, the
  tally of acknowledgements and errors, and the completion test.
 */
module PutQueries {
  import opened Ids
  import opened Nodes
  import opened Sockets

  /** The request to store, as far as the engine reads it. */
  datatype PutRequest =
    | AnnouncePeer(target: Id)
    | PutImmutable(target: Id)
    | PutMutable(target: Id, sig: Bytes, seqNo: int, cas: Option<int>, salt: Option<Bytes>)

  datatype ErrorSpecific = ErrorSpecific(code: int, description: string)

  /** A `u8`. */
  type Byte = n: nat | n < 256

  datatype ErrorCount = ErrorCount(count: Byte, error: ErrorSpecific)

  datatype ConcurrencyError = ConflictRisk | NotMostRecent | CasFailed
  datatype PutQueryError = NoClosestNodes | ErrorResponse(error: ErrorSpecific) | Timeout
  datatype PutError = Query(query: PutQueryError) | Concurrency(conflict: ConcurrencyError)

  datatype PutOutcome = PutOutcome(target: Id, storedAt: nat)

  /** Two fields are not in the source. `born` is the number of requests sent before this query
      existed, and only the hypotheses on the reuse of transaction ids read it. `received` is
      the history of the errors handed to `error`, and only theorems about the tally read it. */
  datatype Put = Put(target: Id, storedAt: nat, inflight: seq<Tid>, request: PutRequest,
                     errors: seq<ErrorCount>, extra: seq<Node>, born: nat, received: seq<ErrorSpecific>)

  function NewPut(request: PutRequest, extra: seq<Node>, born: nat): Put {
    Put(request.target, 0, [], request, [], extra, born, [])
  }

  predicate Started(p: Put) {
    p.inflight != []
  }

  /** One request to every node that carries a token. */
  function SendAll(p: Put, s: Socket, nodes: seq<Node>, now: int): (r: (Put, Socket))
    decreases |nodes|
  {
    if nodes == [] then (p, s)
    else if nodes[0].token.None? then SendAll(p, s, nodes[1..], now)
    else SendAll(p.(inflight := p.inflight + [Wrap(s.sent)]), Request(s, nodes[0].address, now), nodes[1..], now)
  }

  /** `start` asserts that it gets at most this many closest nodes. */
  const MAX_CLOSEST: nat := 255

  /** `start`, when its two assertions hold: it is not called twice, which every caller shows,
      and it gets at most `MAX_CLOSEST` nodes, which not every run of the engine ensures. */
  function Start(p: Put, s: Socket, closest: seq<Node>, now: int): (r: (Put, Socket, Option<PutError>))
    requires !Started(p)
  {
    if closest == [] then (p, s, Some(Query(NoClosestNodes)))
    else
      var (p', s') := SendAll(p, s, closest + p.extra, now);
      (p', s', None)
  }

  /** The nodes that carry a token, in order. */
  function TokenHolders(nodes: seq<Node>): seq<Node> {
    if nodes == [] then []
    else TokenHolders(nodes[..|nodes| - 1]) + (if nodes[|nodes| - 1].token.Some? then [nodes[|nodes| - 1]] else [])
  }

  lemma {:induction false} HoldersSplit(first: Node, rest: seq<Node>)
    ensures TokenHolders([first] + rest) == (if first.token.Some? then [first] else []) + TokenHolders(rest)
  {
    if rest == [] {
      assert [first] + rest == [first] && [first][..0] == [];
    } else {
      HoldersSplit(first, rest[..|rest| - 1]);
      var all := [first] + rest;
      assert all[..|all| - 1] == [first] + rest[..|rest| - 1];
    }
  }

  /** `s'` is `s` with the first `n` requests, and the table is otherwise the same. */
  ghost predicate SentInOrder(s: Socket, s': Socket, holders: seq<Node>, now: int) {
    && s'.sent == s.sent + |holders|
    && (forall i :: 0 <= i < |holders| ==>
          Nth(s.sent, i) in s'.requests && s'.requests[Nth(s.sent, i)] == InflightRequest(holders[i].address, now))
    && (forall t: Tid :: t in s.requests && (forall i :: 0 <= i < |holders| ==> Nth(s.sent, i) != t) ==>
          t in s'.requests && s'.requests[t] == s.requests[t])
  }

  lemma OneMoreInOrder(s: Socket, s1: Socket, s': Socket, n: Node, tail: seq<Node>, now: int)
    requires s1 == Request(s, n.address, now) && SentInOrder(s1, s', tail, now) && |tail| < TID_SPACE
    ensures SentInOrder(s, s', [n] + tail, now)
  {
    var holders := [n] + tail;
    forall i | 0 <= i < |tail| ensures Nth(s1.sent, i) == Nth(s.sent, i + 1) && Nth(s1.sent, i) != Nth(s.sent, 0) {
      NthApart(s.sent, 0, i + 1);
    }
    forall i | 0 <= i < |holders|
      ensures Nth(s.sent, i) in s'.requests && s'.requests[Nth(s.sent, i)] == InflightRequest(holders[i].address, now)
    {
      if i > 0 {
        assert Nth(s1.sent, i - 1) == Nth(s.sent, i);
      } else {
        assert Nth(s.sent, 0) in s1.requests;
      }
    }
    forall t: Tid | t in s.requests && (forall i :: 0 <= i < |holders| ==> Nth(s.sent, i) != t)
      ensures t in s'.requests && s'.requests[t] == s.requests[t]
    {
      assert Nth(s.sent, 0) != t;
      assert t in s1.requests && s1.requests[t] == s.requests[t];
      forall i | 0 <= i < |tail| ensures Nth(s1.sent, i) != t {
        assert Nth(s.sent, i + 1) != t;
      }
    }
  }

  lemma {:induction false} SendAllHolders(p: Put, s: Socket, nodes: seq<Node>, now: int)
    requires |nodes| <= TID_SPACE
    ensures var ((p', s'), holders) := (SendAll(p, s, nodes, now), TokenHolders(nodes));
            && |holders| <= |nodes| && SentInOrder(s, s', holders, now)
            && p' == p.(inflight := p'.inflight) && |p'.inflight| == |p.inflight| + |holders| && p.inflight <= p'.inflight
            && (forall i :: 0 <= i < |holders| ==> p'.inflight[|p.inflight| + i] == Nth(s.sent, i))
    decreases |nodes|
  {
    hide SentInOrder;
    if nodes == [] {
      NothingInOrder(s, now);
    } else {
      var n, rest := nodes[0], nodes[1..];
      assert nodes == [n] + rest;
      HoldersSplit(n, rest);
      var p1 := if n.token.None? then p else p.(inflight := p.inflight + [Wrap(s.sent)]);
      var s1 := if n.token.None? then s else Request(s, n.address, now);
      SendAllHolders(p1, s1, rest, now);
      var (p', s') := SendAll(p, s, nodes, now);
      var tail, holders := TokenHolders(rest), TokenHolders(nodes);
      assert holders == (if n.token.None? then tail else [n] + tail);
      assert SendAll(p, s, nodes, now) == SendAll(p1, s1, rest, now);
      if n.token.Some? {
        OneMoreInOrder(s, s1, s', n, tail, now);
        forall i | 0 <= i < |holders| ensures p'.inflight[|p.inflight| + i] == Nth(s.sent, i) {
          if i == 0 {
            assert p1.inflight[|p.inflight|] == Nth(s.sent, 0);
          } else {
            assert p'.inflight[|p1.inflight| + (i - 1)] == Nth(s1.sent, i - 1);
          }
        }
      }
    }
  }

  lemma NothingInOrder(s: Socket, now: int)
    ensures SentInOrder(s, s, [], now)
  {
  }

  /** A started put has sent one request, in order, to each closest or extra node that carries a
      token, and to no other; it started if and only if there was one. */
  lemma StartSendsToTokenHolders(p: Put, s: Socket, closest: seq<Node>, now: int)
    requires !Started(p) && |closest| + |p.extra| <= TID_SPACE
    ensures var (p', s', error) := Start(p, s, closest, now);
            var holders := if closest == [] then [] else TokenHolders(closest + p.extra);
            && (error == if closest == [] then Some(Query(NoClosestNodes)) else None)
            && |p'.inflight| == |holders| && s'.sent == s.sent + |holders|
            && (forall i :: 0 <= i < |holders| ==>
                  p'.inflight[i] in s'.requests && s'.requests[p'.inflight[i]] == InflightRequest(holders[i].address, now))
            && (Started(p') <==> closest != [] && exists n :: n in closest + p.extra && n.token.Some?)
  {
    hide SendAll, TokenHolders;
    if closest != [] {
      SendAllHolders(p, s, closest + p.extra, now);
      HoldersExist(closest + p.extra);
      var (p', s', _) := Start(p, s, closest, now);
      forall i | 0 <= i < |TokenHolders(closest + p.extra)| ensures p'.inflight[i] == Nth(s.sent, i) {
        assert p'.inflight[|p.inflight| + i] == Nth(s.sent, i);
      }
    }
  }

  lemma {:induction false} HoldersExist(nodes: seq<Node>)
    ensures TokenHolders(nodes) != [] <==> exists n :: n in nodes && n.token.Some?
  {
    if nodes != [] {
      HoldersExist(nodes[..|nodes| - 1]);
      assert nodes == nodes[..|nodes| - 1] + [nodes[|nodes| - 1]];
    }
  }

  // --- the error tally ---

  predicate HasCode(errors: seq<ErrorCount>, code: int) {
    exists i :: 0 <= i < |errors| && errors[i].error.code == code
  }

  function CodeIndex(errors: seq<ErrorCount>, code: int): (i: nat)
    requires HasCode(errors, code)
    ensures i < |errors| && errors[i].error.code == code
    ensures forall j :: 0 <= j < i ==> errors[j].error.code != code
  {
    if errors[0].error.code == code then 0 else
      assert HasCode(errors[1..], code) by {
        var k :| 0 <= k < |errors| && errors[k].error.code == code;
        assert errors[1..][k - 1].error.code == code;
      }
      1 + CodeIndex(errors[1..], code)
  }

  function Swap(s: seq<ErrorCount>, i: nat, j: nat): seq<ErrorCount>
    requires i < |s| && j < |s|
  {
    s[i := s[j]][j := s[i]]
  }

  /** Move the element at `i` forward past every smaller count. */
  function Bubble(errors: seq<ErrorCount>, i: nat): (r: seq<ErrorCount>)
    requires i < |errors|
    ensures |r| == |errors|
    decreases i
  {
    if i > 0 && errors[i].count > errors[i - 1].count then Bubble(Swap(errors, i, i - 1), i - 1) else errors
  }

  /** The count is a `u8`, which wraps around where overflow is not checked. */
  function Increment(errors: seq<ErrorCount>, i: nat): seq<ErrorCount>
    requires i < |errors|
  {
    errors[i := ErrorCount((errors[i].count + 1) % 256, errors[i].error)]
  }

  function RecordError(errors: seq<ErrorCount>, error: ErrorSpecific): seq<ErrorCount> {
    if HasCode(errors, error.code) then
      var i := CodeIndex(errors, error.code);
      Bubble(Increment(errors, i), i)
    else errors + [ErrorCount(1, error)]
  }

  function Tally(errors: seq<ErrorSpecific>): seq<ErrorCount> {
    if errors == [] then [] else RecordError(Tally(errors[..|errors| - 1]), errors[|errors| - 1])
  }

  /** `error`, as a step of the query. */
  function TakeError(p: Put, error: ErrorSpecific): Put {
    p.(errors := RecordError(p.errors, error), received := p.received + [error])
  }

  predicate Descending(errors: seq<ErrorCount>) {
    forall i, j :: 0 <= i < j < |errors| ==> errors[i].count >= errors[j].count
  }

  predicate DistinctCodes(errors: seq<ErrorCount>) {
    forall i, j :: 0 <= i < j < |errors| ==> errors[i].error.code != errors[j].error.code
  }

  /** Descending except that the element at `i` may be too large for its place. */
  predicate DescendingBut(errors: seq<ErrorCount>, i: nat) {
    forall j, k :: 0 <= j < k < |errors| && k != i ==> errors[j].count >= errors[k].count
  }

  function Total(errors: seq<ErrorCount>): nat {
    if errors == [] then 0 else Total(errors[..|errors| - 1]) + errors[|errors| - 1].count
  }

  function Occurrences(errors: seq<ErrorSpecific>, code: int): nat {
    if errors == [] then 0
    else Occurrences(errors[..|errors| - 1], code) + (if errors[|errors| - 1].code == code then 1 else 0)
  }

  /** The count recorded for `code`; zero when there is none. */
  function CountOf(errors: seq<ErrorCount>, code: int): nat {
    if HasCode(errors, code) then errors[CodeIndex(errors, code)].count else 0
  }

  lemma {:induction false} TotalUpdate(s: seq<ErrorCount>, i: nat, e: ErrorCount)
    requires i < |s|
    ensures Total(s[i := e]) == Total(s) - s[i].count + e.count
  {
    var init := s[..|s| - 1];
    if i < |s| - 1 {
      TotalUpdate(init, i, e);
      assert s[i := e][..|s| - 1] == init[i := e];
    } else {
      assert s[i := e][..|s| - 1] == init;
    }
  }

  lemma TwoOfTotal(s: seq<ErrorCount>, i: nat, j: nat)
    requires i < |s| && j < |s| && i != j
    ensures s[i].count + s[j].count <= Total(s)
  {
    var none := s[i].(count := 0);
    TotalUpdate(s, i, none);
    TotalUpdate(s[i := none], j, none);
  }

  /** Facts about a tally that a reordering keeps. */
  predicate SameTally(a: seq<ErrorCount>, b: seq<ErrorCount>) {
    |a| == |b| && multiset(a) == multiset(b) && Total(a) == Total(b)
  }

  lemma SwapKeepsContents(s: seq<ErrorCount>, i: nat, j: nat)
    requires i < |s| && j < |s|
    ensures multiset(Swap(s, i, j)) == multiset(s)
  {
    var t := s[i := s[j]];
    assert multiset(t) == multiset(s) - multiset{s[i]} + multiset{s[j]};
    assert multiset(t[j := s[i]]) == multiset(t) - multiset{t[j]} + multiset{s[i]};
  }

  lemma SwapSameTally(s: seq<ErrorCount>, i: nat, j: nat)
    requires i < |s| && j < |s| && i != j
    ensures SameTally(Swap(s, i, j), s)
    ensures DistinctCodes(s) ==> DistinctCodes(Swap(s, i, j))
  {
    hide Total;
    SwapKeepsContents(s, i, j);
    TotalUpdate(s, i, s[j]);
    TotalUpdate(s[i := s[j]], j, s[i]);
  }

  lemma {:induction false} BubbleKeepsContents(errors: seq<ErrorCount>, i: nat)
    requires i < |errors| && DistinctCodes(errors)
    ensures multiset(Bubble(errors, i)) == multiset(errors) && DistinctCodes(Bubble(errors, i))
    decreases i
  {
    hide DistinctCodes;
    if i > 0 && errors[i].count > errors[i - 1].count {
      SwapSameTally(errors, i, i - 1);
      BubbleKeepsContents(Swap(errors, i, i - 1), i - 1);
    }
  }

  lemma {:induction false} BubbleSorts(errors: seq<ErrorCount>, i: nat)
    requires i < |errors| && DescendingBut(errors, i) && DistinctCodes(errors)
    ensures Descending(Bubble(errors, i)) && DistinctCodes(Bubble(errors, i))
    ensures SameTally(Bubble(errors, i), errors)
    decreases i
  {
    hide Total, DistinctCodes;
    if i > 0 && errors[i].count > errors[i - 1].count {
      SwapSameTally(errors, i, i - 1);
      BubbleSorts(Swap(errors, i, i - 1), i - 1);
    } else if i > 0 {
      assert forall j :: 0 <= j < i ==> errors[j].count >= errors[i - 1].count;
    }
  }

  lemma CountByMembership(s: seq<ErrorCount>, code: int, e: ErrorCount)
    requires DistinctCodes(s) && e in s && e.error.code == code
    ensures CountOf(s, code) == e.count
  {
    var i :| 0 <= i < |s| && s[i] == e;
    assert HasCode(s, code);
  }

  lemma ReorderedCount(a: seq<ErrorCount>, b: seq<ErrorCount>, code: int)
    requires multiset(a) == multiset(b) && DistinctCodes(a) && DistinctCodes(b)
    ensures CountOf(a, code) == CountOf(b, code)
  {
    if HasCode(a, code) {
      var e := a[CodeIndex(a, code)];
      assert e in multiset(b);
      CountByMembership(b, code, e);
    }
    if HasCode(b, code) {
      var e := b[CodeIndex(b, code)];
      assert e in multiset(a);
      CountByMembership(a, code, e);
    }
  }

  /** Recording keeps one entry per code and raises the count of exactly the recorded code by
      one, modulo 256. */
  lemma RecordErrorModulo(errors: seq<ErrorCount>, error: ErrorSpecific, code: int)
    requires DistinctCodes(errors)
    ensures var r := RecordError(errors, error);
            && DistinctCodes(r)
            && CountOf(r, code) == (if code == error.code then (CountOf(errors, code) + 1) % 256 else CountOf(errors, code))
            && (HasCode(r, code) <==> HasCode(errors, code) || code == error.code)
  {
    hide DistinctCodes, CountOf, Bubble;
    var r := RecordError(errors, error);
    if HasCode(errors, error.code) {
      var i := CodeIndex(errors, error.code);
      var raised := Increment(errors, i);
      assert DistinctCodes(raised) by { IncrementKeepsCodes(errors, i); }
      BubbleKeepsContents(raised, i);
      ReorderedCount(r, raised, code);
      ReorderedCodes(r, raised, code);
      IncrementCount(errors, i, code);
      IncrementKeepsCodes(errors, i);
      assert HasCode(raised, code) <==> HasCode(errors, code) by {
        assert forall j :: 0 <= j < |raised| ==> raised[j].error == errors[j].error;
      }
    } else {
      assert DistinctCodes(r) by { AppendKeepsCodes(errors, error); }
      AppendCount(errors, error, code);
      assert CountOf(errors, error.code) == 0 by { NoCodeNoCount(errors, error.code); }
      AppendKeepsCodes(errors, error);
      assert r[|errors|].error.code == error.code;
      assert forall j :: 0 <= j < |errors| ==> r[j] == errors[j];
    }
  }

  lemma NoCodeNoCount(errors: seq<ErrorCount>, code: int)
    requires !HasCode(errors, code)
    ensures CountOf(errors, code) == 0
  {
  }

  lemma IncrementKeepsCodes(errors: seq<ErrorCount>, i: nat)
    requires i < |errors| && DistinctCodes(errors)
    ensures DistinctCodes(Increment(errors, i))
  {
  }

  lemma AppendKeepsCodes(errors: seq<ErrorCount>, error: ErrorSpecific)
    requires DistinctCodes(errors) && !HasCode(errors, error.code)
    ensures DistinctCodes(errors + [ErrorCount(1, error)])
  {
  }

  lemma ReorderedCodes(a: seq<ErrorCount>, b: seq<ErrorCount>, code: int)
    requires multiset(a) == multiset(b)
    ensures HasCode(a, code) <==> HasCode(b, code)
  {
    if HasCode(a, code) {
      var e := a[CodeIndex(a, code)];
      assert e in multiset(b);
    }
    if HasCode(b, code) {
      var e := b[CodeIndex(b, code)];
      assert e in multiset(a);
    }
  }

  /** As long as the count does not overflow, recording keeps the tally ordered by falling
      count with one entry per code, and raises by one the count of exactly the recorded code. */
  lemma RecordErrorCounts(errors: seq<ErrorCount>, error: ErrorSpecific, code: int)
    requires Descending(errors) && DistinctCodes(errors) && forall e :: e in errors ==> e.count >= 1
    requires CountOf(errors, error.code) < 255
    ensures var r := RecordError(errors, error);
            && Descending(r) && DistinctCodes(r)
            && (forall e :: e in r ==> e.count >= 1)
            && Total(r) == Total(errors) + 1
            && CountOf(r, code) == CountOf(errors, code) + (if code == error.code then 1 else 0)
  {
    hide Descending, DistinctCodes, Total, CountOf, Bubble;
    var r := RecordError(errors, error);
    if HasCode(errors, error.code) {
      var i := CodeIndex(errors, error.code);
      var raised := Increment(errors, i);
      CountByMembership(errors, error.code, errors[i]);
      IncrementKeepsShape(errors, i);
      BubbleSorts(raised, i);
      ReorderedCount(r, raised, code);
      forall e | e in r ensures e.count >= 1 { assert e in multiset(raised); }
      IncrementCount(errors, i, code);
    } else {
      AppendKeepsShape(errors, error);
      AppendCount(errors, error, code);
    }
  }

  lemma IncrementKeepsShape(errors: seq<ErrorCount>, i: nat)
    requires i < |errors| && Descending(errors) && DistinctCodes(errors) && errors[i].count < 255
    ensures DescendingBut(Increment(errors, i), i) && DistinctCodes(Increment(errors, i))
    ensures Total(Increment(errors, i)) == Total(errors) + 1
  {
    hide Total;
    var raised := Increment(errors, i);
    TotalUpdate(errors, i, raised[i]);
    assert raised[i].count == errors[i].count + 1;
    assert forall j :: 0 <= j < |errors| && j != i ==> raised[j] == errors[j];
  }

  lemma AppendKeepsShape(errors: seq<ErrorCount>, error: ErrorSpecific)
    requires Descending(errors) && DistinctCodes(errors) && forall e :: e in errors ==> e.count >= 1
    requires !HasCode(errors, error.code)
    ensures var r := errors + [ErrorCount(1, error)];
            Descending(r) && DistinctCodes(r) && Total(r) == Total(errors) + 1
  {
    var r := errors + [ErrorCount(1, error)];
    assert r[..|r| - 1] == errors;
  }

  lemma IncrementCount(errors: seq<ErrorCount>, i: nat, code: int)
    requires i < |errors| && DistinctCodes(errors)
    ensures CountOf(Increment(errors, i), code) ==
            if errors[i].error.code == code then (CountOf(errors, code) + 1) % 256 else CountOf(errors, code)
  {
    var raised := Increment(errors, i);
    assert DistinctCodes(raised);
    if HasCode(errors, code) {
      var j := CodeIndex(errors, code);
      CountByMembership(raised, code, raised[j]);
    } else {
      assert forall j :: 0 <= j < |raised| ==> raised[j].error.code == errors[j].error.code;
    }
  }

  lemma AppendCount(errors: seq<ErrorCount>, error: ErrorSpecific, code: int)
    requires DistinctCodes(errors) && !HasCode(errors, error.code)
    ensures CountOf(errors + [ErrorCount(1, error)], code) ==
            CountOf(errors, code) + (if error.code == code then 1 else 0)
  {
    var r := errors + [ErrorCount(1, error)];
    assert DistinctCodes(r);
    if HasCode(errors, code) {
      CountByMembership(r, code, r[CodeIndex(errors, code)]);
    } else if error.code == code {
      CountByMembership(r, code, r[|errors|]);
    } else {
      assert !HasCode(r, code);
    }
  }

  /** No code occurs more often than a byte can count. */
  ghost predicate FitsBytes(errors: seq<ErrorSpecific>) {
    forall code: int :: Occurrences(errors, code) <= 255
  }

  /** After any error responses the tally has one entry for each of their codes, which counts
      it modulo 256. */
  lemma {:induction false} TallyModulo(errors: seq<ErrorSpecific>, code: int)
    ensures DistinctCodes(Tally(errors))
    ensures CountOf(Tally(errors), code) == Occurrences(errors, code) % 256
    ensures HasCode(Tally(errors), code) <==> Occurrences(errors, code) > 0
    ensures Occurrences(errors, code) <= |errors|
  {
    hide RecordError, CountOf, DistinctCodes, HasCode;
    if errors == [] {
      EmptyTally(code);
    } else {
      var init, last := errors[..|errors| - 1], errors[|errors| - 1];
      TallyModulo(init, code);
      RecordErrorModulo(Tally(init), last, code);
    }
  }

  lemma FitsBytesPrefix(errors: seq<ErrorSpecific>)
    requires errors != [] && FitsBytes(errors)
    ensures FitsBytes(errors[..|errors| - 1])
    ensures Occurrences(errors[..|errors| - 1], errors[|errors| - 1].code) < 255
  {
    var init, last := errors[..|errors| - 1], errors[|errors| - 1];
    assert Occurrences(errors, last.code) == Occurrences(init, last.code) + 1;
    forall code: int ensures Occurrences(init, code) <= 255 {
      assert Occurrences(init, code) <= Occurrences(errors, code);
    }
  }

  /** When no code occurs more than 255 times, the tally is the exact histogram of the errors by
      code, one entry per code, highest count first. */
  lemma {:induction false} TallyIsHistogram(errors: seq<ErrorSpecific>, code: int)
    requires FitsBytes(errors)
    ensures Descending(Tally(errors)) && DistinctCodes(Tally(errors))
    ensures forall e :: e in Tally(errors) ==> e.count >= 1
    ensures Total(Tally(errors)) == |errors|
    ensures CountOf(Tally(errors), code) == Occurrences(errors, code) <= |errors|
  {
    hide RecordError, CountOf, Total, Descending, DistinctCodes, FitsBytes, Occurrences;
    TallyModulo(errors, code);
    assert Occurrences(errors, code) <= 255 by { OneFits(errors, code); }
    if errors == [] {
      EmptyTally(code);
    } else {
      var init, last := errors[..|errors| - 1], errors[|errors| - 1];
      FitsBytesPrefix(errors);
      TallyIsHistogram(init, last.code);
      RecordErrorCounts(Tally(init), last, code);
    }
  }

  lemma OneFits(errors: seq<ErrorSpecific>, code: int)
    requires FitsBytes(errors)
    ensures Occurrences(errors, code) <= 255
  {
  }

  /** The tally is the histogram of the errors if and only if no code occurs more than 255 times. */
  lemma TallyIsExactly(errors: seq<ErrorSpecific>)
    ensures (forall code: int :: CountOf(Tally(errors), code) == Occurrences(errors, code)) <==> FitsBytes(errors)
  {
    hide Tally, CountOf, Occurrences;
    forall code: int ensures CountOf(Tally(errors), code) == Occurrences(errors, code) % 256 {
      TallyModulo(errors, code);
    }
    forall code: int ensures CountOf(Tally(errors), code) <= 255 {
    }
  }

  /** The first entry of an exact tally is a most common code. */
  lemma FirstIsMostCommon(errors: seq<ErrorSpecific>, code: int)
    requires Tally(errors) != [] && FitsBytes(errors)
    ensures Occurrences(errors, Tally(errors)[0].error.code) >= Occurrences(errors, code)
    ensures Occurrences(errors, Tally(errors)[0].error.code) > 0
  {
    hide Tally, Occurrences, FitsBytes;
    var tally := Tally(errors);
    var first := tally[0];
    TallyIsHistogram(errors, code);
    TallyIsHistogram(errors, first.error.code);
    CountByMembership(tally, first.error.code, first);
    if HasCode(tally, code) {
      var i := CodeIndex(tally, code);
      CountByMembership(tally, code, tally[i]);
    }
  }

  lemma EmptyTally(code: int)
    ensures Descending([]) && DistinctCodes([]) && Total([]) == 0 && CountOf([], code) == 0 && !HasCode([], code)
  {
  }

  /** At most 255 responses cannot overflow a count. */
  lemma TallyFitsByte(errors: seq<ErrorSpecific>)
    requires |errors| <= 255
    ensures FitsBytes(errors)
    ensures forall e :: e in Tally(errors) ==> 1 <= e.count <= |errors|
  {
    hide Tally, CountOf, Total, Descending, Occurrences;
    forall code: int ensures Occurrences(errors, code) <= 255 { TallyModulo(errors, code); }
    forall e | e in Tally(errors) ensures 1 <= e.count <= |errors| {
      TallyIsHistogram(errors, e.error.code);
      CountByMembership(Tally(errors), e.error.code, e);
    }
  }

  /** `n` errors of one code, and nothing else. */
  function Copies(code: int, n: nat): seq<ErrorSpecific> {
    if n == 0 then [] else Copies(code, n - 1) + [ErrorSpecific(code, "")]
  }

  lemma {:induction false} CopiesOccur(code: int, n: nat, c: int)
    ensures |Copies(code, n)| == n && Occurrences(Copies(code, n), c) == if c == code then n else 0
  {
    if n > 0 {
      CopiesOccur(code, n - 1, c);
      var errors := Copies(code, n);
      assert errors[..|errors| - 1] == Copies(code, n - 1);
    }
  }

  lemma {:induction false} CopiesTally(code: int, n: nat)
    requires n > 0
    ensures Tally(Copies(code, n)) == [ErrorCount(n % 256, ErrorSpecific(code, ""))]
  {
    hide Tally, Bubble;
    var e := ErrorSpecific(code, "");
    OneMoreError(Copies(code, n - 1), e);
    if n == 1 {
      assert Tally([]) == [] by { EmptyIsEmpty(); }
    } else {
      CopiesTally(code, n - 1);
      var tally := [ErrorCount((n - 1) % 256, e)];
      assert tally[0].error.code == code;
      assert HasCode(tally, code) && CodeIndex(tally, code) == 0;
      assert Increment(tally, 0) == [ErrorCount(n % 256, e)];
      FirstStays(Increment(tally, 0));
    }
  }

  lemma EmptyIsEmpty()
    ensures Tally([]) == []
  {
  }

  lemma FirstStays(errors: seq<ErrorCount>)
    requires errors != []
    ensures Bubble(errors, 0) == errors
  {
  }

  /** Past 255 the tally misleads: 256 errors of 203 and two of 301 are led by 301. */
  lemma RarerCodeLeads()
    ensures var errors := Copies(203, 256) + [ErrorSpecific(301, ""), ErrorSpecific(301, "")];
            && Occurrences(errors, 203) == 256 && Occurrences(errors, 301) == 2
            && Tally(errors) == [ErrorCount(2, ErrorSpecific(301, "")), ErrorCount(0, ErrorSpecific(203, ""))]
  {
    hide Tally, Copies, Occurrences;
    var many, e, z := Copies(203, 256), ErrorSpecific(301, ""), ErrorCount(0, ErrorSpecific(203, ""));
    CopiesTally(203, 256);
    CopiesOccur(203, 256, 203);
    CopiesOccur(203, 256, 301);
    OneMoreError(many, e);
    OneMoreError(many + [e], e);
    assert many + [e] + [e] == many + [e, e];
    assert !HasCode([z], 301);
    var one := [z, ErrorCount(1, e)];
    assert one[1].error.code == 301 && HasCode(one, 301) && CodeIndex(one, 301) == 1;
    assert RecordError([z], e) == one;
    var two := [z, ErrorCount(2, e)];
    assert Increment(one, 1) == two;
    assert Swap(two, 1, 0) == [ErrorCount(2, e), z];
    assert Bubble(two, 1) == Bubble(Swap(two, 1, 0), 0);
    FirstStays(Swap(two, 1, 0));
    assert RecordError(one, e) == Bubble(two, 1);
  }

  lemma OneMoreError(errors: seq<ErrorSpecific>, e: ErrorSpecific)
    ensures Tally(errors + [e]) == RecordError(Tally(errors), e)
    ensures forall c :: Occurrences(errors + [e], c) == Occurrences(errors, c) + (if c == e.code then 1 else 0)
  {
    assert (errors + [e])[..|errors|] == errors;
  }

  // --- completion ---

  /** `most_common_error`: only when the first entry is 301 or 302. */
  function MostCommonError(p: Put): Option<(nat, ConcurrencyError)> {
    if p.errors == [] then None
    else match p.errors[0].error.code
      case 301 => Some((p.errors[0].count, CasFailed))
      case 302 => Some((p.errors[0].count, NotMostRecent))
      case _ => None
  }

  /** `((len / 2) + 1) as u8`. */
  function Half(requests: nat): nat {
    (requests / 2 + 1) % 256
  }

  /** `majority_nodes_rejected_put_mutable`. */
  function MajorityRejected(p: Put): Option<ConcurrencyError> {
    if !p.request.PutMutable? then None
    else match MostCommonError(p)
      case None => None
      case Some((count, error)) => if count < Half(|p.inflight|) then None else Some(error)
  }

  datatype Poll = Pending | Stored(outcome: PutOutcome) | Failed(error: PutError)

  predicate IsDone(p: Put, s: Socket, now: int) {
    forall tid :: tid in p.inflight ==> !Inflight(s, tid, now)
  }

  /** `poll_completion`. */
  function PollCompletion(p: Put, s: Socket, now: int): Poll {
    if !Started(p) then Pending
    else if MajorityRejected(p).Some? then Failed(Concurrency(MajorityRejected(p).value))
    else if !IsDone(p, s, now) then Pending
    else if p.storedAt == 0 then
      match MostCommonError(p)
      case Some((_, error)) => Failed(Concurrency(error))
      case None => Failed(Query(Timeout))
    else Stored(PutOutcome(p.target, p.storedAt))
  }

  predicate WellTallied(p: Put) {
    && Descending(p.errors) && DistinctCodes(p.errors)
    && (forall e :: e in p.errors ==> e.count >= 1)
    && p.storedAt + Total(p.errors) <= |p.inflight|
  }

  lemma MajorityIsFirst(errors: seq<ErrorCount>, code: int, n: nat)
    requires Descending(errors) && DistinctCodes(errors) && Total(errors) <= n
    requires 2 * CountOf(errors, code) > n
    ensures errors != [] && errors[0].error.code == code
  {
    var i := CodeIndex(errors, code);
    if i != 0 {
      TwoOfTotal(errors, 0, i);
      assert false;
    }
  }

  /** Up to 509 contacted nodes, a mutable put is rejected early exactly when 301 or 302
      came back from a strict majority of them. */
  lemma RejectedByMajority(p: Put)
    requires p.request.PutMutable? && WellTallied(p) && |p.inflight| < 510
    ensures MajorityRejected(p) == Some(CasFailed) <==> 2 * CountOf(p.errors, 301) > |p.inflight|
    ensures MajorityRejected(p) == Some(NotMostRecent) <==> 2 * CountOf(p.errors, 302) > |p.inflight|
    ensures MajorityRejected(p).Some? ==> MajorityRejected(p).value in {CasFailed, NotMostRecent}
  {
    hide Descending, Total;
    var n := |p.inflight|;
    if 2 * CountOf(p.errors, 301) > n { MajorityIsFirst(p.errors, 301, n); }
    if 2 * CountOf(p.errors, 302) > n { MajorityIsFirst(p.errors, 302, n); }
    if p.errors != [] {
      CountByMembership(p.errors, p.errors[0].error.code, p.errors[0]);
    }
  }

  /** The same for the errors a put received: exact as long as neither 301 nor 302 overflows,
      whatever other counts have done. */
  lemma RejectedByReceived(p: Put)
    requires p.request.PutMutable? && p.errors == Tally(p.received) && |p.received| <= |p.inflight| < 510
    requires Occurrences(p.received, 301) <= 255 && Occurrences(p.received, 302) <= 255
    ensures MajorityRejected(p) == Some(CasFailed) <==> 2 * Occurrences(p.received, 301) > |p.inflight|
    ensures MajorityRejected(p) == Some(NotMostRecent) <==> 2 * Occurrences(p.received, 302) > |p.inflight|
    ensures MajorityRejected(p).Some? ==> MajorityRejected(p).value in {CasFailed, NotMostRecent}
  {
    hide Tally, Occurrences, CountOf;
    ReceivedMajorityLeads(p, 301);
    ReceivedMajorityLeads(p, 302);
    if p.errors != [] {
      var first := p.errors[0];
      TallyModulo(p.received, first.error.code);
      CountByMembership(p.errors, first.error.code, first);
    }
  }

  lemma ReceivedMajorityLeads(p: Put, code: int)
    requires p.errors == Tally(p.received) && |p.received| <= |p.inflight| < 510
    requires Occurrences(p.received, code) <= 255
    ensures 2 * Occurrences(p.received, code) > |p.inflight| ==>
              p.errors != [] && p.errors[0].error.code == code && p.errors[0].count == Occurrences(p.received, code)
  {
    hide Tally, Occurrences, CountOf, Total, Descending, DistinctCodes;
    if 2 * Occurrences(p.received, code) > |p.inflight| {
      forall c: int ensures Occurrences(p.received, c) <= 255 { TwoCodes(p.received, code, c); }
      TallyIsHistogram(p.received, code);
      MajorityIsFirst(p.errors, code, |p.received|);
      CountByMembership(p.errors, code, p.errors[0]);
    }
  }

  lemma {:induction false} TwoCodes(errors: seq<ErrorSpecific>, a: int, b: int)
    ensures a != b ==> Occurrences(errors, a) + Occurrences(errors, b) <= |errors|
  {
    if errors != [] { TwoCodes(errors[..|errors| - 1], a, b); }
  }

  /** From 510 requests on the truncated threshold lets a minority reject: for every such
      number of requests some tally is rejected without a majority. */
  lemma RejectedByMinority(p: Put)
    requires p.request.PutMutable? && |p.inflight| >= 510
    ensures exists errors: seq<ErrorCount> ::
              var q := p.(storedAt := 0, errors := errors);
              && WellTallied(q)
              && MajorityRejected(q) == Some(CasFailed)
              && 2 * CountOf(errors, 301) <= |q.inflight|
  {
    var count := if Half(|p.inflight|) == 0 then 1 else Half(|p.inflight|);
    var e := ErrorCount(count, ErrorSpecific(301, ""));
    var errors := [e];
    var q := p.(storedAt := 0, errors := errors);
    assert Total(errors) == count by { assert errors[..0] == []; }
    CountByMembership(errors, 301, e);
    assert WellTallied(q) && MajorityRejected(q) == Some(CasFailed);
  }

  lemma {:induction false} EveryNodeIsSent(p: Put, s: Socket, nodes: seq<Node>, now: int)
    requires forall n :: n in nodes ==> n.token.Some?
    ensures var p' := SendAll(p, s, nodes, now).0;
            |p'.inflight| == |p.inflight| + |nodes| && p' == p.(inflight := p'.inflight)
    decreases |nodes|
  {
    if nodes != [] {
      EveryNodeIsSent(p.(inflight := p.inflight + [Wrap(s.sent)]), Request(s, nodes[0].address, now), nodes[1..], now);
    }
  }

  /** How the minority comes about: a mutable put with extra nodes sends to all of them, and
      from 510 nodes on at most 255 answers of 301 reject it. */
  lemma ExtraNodesLetMinorityReject(request: PutRequest, closest: seq<Node>, extra: seq<Node>, s: Socket, now: int)
    requires request.PutMutable? && 0 < |closest| <= MAX_CLOSEST && |closest| + |extra| >= 510
    requires forall n :: n in closest + extra ==> n.token.Some?
    ensures var p := Start(NewPut(request, extra, s.sent), s, closest, now).0;
            && |p.inflight| == |closest| + |extra|
            && exists k: nat :: k <= 255 && 2 * k <= |p.inflight| &&
                                MajorityRejected(p.(errors := Tally(Copies(301, k)))) == Some(CasFailed)
  {
    hide Tally, Copies, SendAll, Occurrences, CountOf;
    var put := NewPut(request, extra, s.sent);
    EveryNodeIsSent(put, s, closest + extra, now);
    var p := Start(put, s, closest, now).0;
    var k := if Half(|p.inflight|) == 0 then 1 else Half(|p.inflight|);
    var errors := Copies(301, k);
    CopiesTally(301, k);
    assert MajorityRejected(p.(errors := Tally(errors))) == Some(CasFailed);
  }

  /** When a poll is pending, and how it ends: a started put whose ids are all answered or
      expired always completes; acknowledgements decide unless a majority objected; and
      answers with other error codes are reported as a timeout, never as themselves. */
  lemma PollOutcomes(p: Put, s: Socket, now: int)
    ensures PollCompletion(p, s, now) == Pending <==>
            !Started(p) || (MajorityRejected(p).None? && !IsDone(p, s, now))
    ensures PollCompletion(p, s, now).Stored? <==>
            Started(p) && MajorityRejected(p).None? && IsDone(p, s, now) && p.storedAt > 0
    ensures PollCompletion(p, s, now).Stored? ==>
            PollCompletion(p, s, now).outcome.target == p.target && PollCompletion(p, s, now).outcome.storedAt == p.storedAt
    ensures Started(p) && IsDone(p, s, now) && MajorityRejected(p).None? && p.storedAt == 0 && p.errors != [] ==>
              && (p.errors[0].error.code == 301 ==> PollCompletion(p, s, now) == Failed(Concurrency(CasFailed)))
              && (p.errors[0].error.code == 302 ==> PollCompletion(p, s, now) == Failed(Concurrency(NotMostRecent)))
    ensures MajorityRejected(p).Some? && Started(p) ==>
              PollCompletion(p, s, now) == Failed(Concurrency(MajorityRejected(p).value))
    ensures forall e :: PollCompletion(p, s, now) != Failed(Query(ErrorResponse(e)))
    ensures !p.request.PutMutable? ==>
              ((PollCompletion(p, s, now).Failed? && PollCompletion(p, s, now).error.Concurrency?) <==>
               Started(p) && IsDone(p, s, now) && p.storedAt == 0 && p.errors != [] && p.errors[0].error.code in {301, 302})
    ensures Started(p) && IsDone(p, s, now) && MajorityRejected(p).None? && p.storedAt == 0 &&
            (p.errors == [] || p.errors[0].error.code !in {301, 302}) <==>
            PollCompletion(p, s, now) == Failed(Query(Timeout))
  {
  }

  // --- the mutable object ---

  class PutQuery {
    const target: Id
    var storedAt: nat
    var inflight: seq<Tid>
    const request: PutRequest
    var errors: seq<ErrorCount>
    const extra: seq<Node>
    ghost const born: nat
    ghost var received: seq<ErrorSpecific>

    ghost function State(): Put
      reads this
    {
      Put(target, storedAt, inflight, request, errors, extra, born, received)
    }

    constructor (request: PutRequest, extra: seq<Node>, ghost born: nat)
      ensures State() == NewPut(request, extra, born)
    {
      target, storedAt, inflight, errors := request.target, 0, [], [];
      this.request, this.extra, this.born := request, extra, born;
      received := [];
    }

    method StartAt(socket: KrpcSocket, closest: seq<Node>, now: int) returns (error: Option<PutError>)
      requires socket.Valid()
      requires !Started(State()) && |closest| <= MAX_CLOSEST
      modifies this`inflight, socket`nextTid, socket`sent, socket.inflight
      ensures socket.Valid()
      ensures (State(), socket.State(), error) == Start(old(State()), old(socket.State()), closest, now)
      ensures error.None? && (exists n :: n in closest && n.token.Some?) ==> Started(State())
    {
      if closest == [] {
        return Some(Query(NoClosestNodes));
      }
      ghost var nodes := closest + extra;
      ghost var p, s := State(), socket.State();
      assert nodes[0..] == nodes;
      for i := 0 to |closest| + |extra|
        invariant socket.Valid()
        invariant SendAll(p, s, nodes, now) == SendAll(State(), socket.State(), nodes[i..], now)
        invariant (exists n :: n in nodes[..i] && n.token.Some?) ==> Started(State())
      {
        var node := if i < |closest| then closest[i] else extra[i - |closest|];
        assert nodes[i..][0] == node && nodes[i..][1..] == nodes[i + 1..];
        assert nodes[..i + 1] == nodes[..i] + [node];
        if node.token.Some? {
          var tid := socket.SendRequest(node.address, now);
          inflight := inflight + [tid];
        }
      }
      assert nodes[..|nodes|] == nodes;
      return None;
    }

    /** `success`: one more acknowledgement, and nothing else changes. */
    method Success()
      modifies this`storedAt
      ensures State() == old(State()).(storedAt := old(storedAt) + 1)
    {
      storedAt := storedAt + 1;
    }

    /** `error`: count the code, wrapping around at 256, then swap the entry forward until the
        order holds again. */
    method Error(error: ErrorSpecific)
      modifies this`errors, this`received
      ensures State() == TakeError(old(State()), error)
    {
      received := received + [error];
      if exists i :: 0 <= i < |errors| && errors[i].error.code == error.code {
        assert HasCode(errors, error.code);
        var pos := CodeIndex(errors, error.code);
        errors := errors[pos := ErrorCount((errors[pos].count + 1) % 256, errors[pos].error)];
        var i := pos;
        while i > 0 && errors[i].count > errors[i - 1].count
          invariant i < |errors|
          invariant State() == TakeError(old(State()), error).(errors := errors)
          invariant RecordError(old(errors), error) == Bubble(errors, i)
          decreases i
        {
          errors := errors[i := errors[i - 1]][i - 1 := errors[i]];
          i := i - 1;
        }
      } else {
        errors := errors + [ErrorCount(1, error)];
      }
    }
  }
}
