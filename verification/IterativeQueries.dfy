/**
  A lookup (src/rpc/iterative_query.rs): the candidates it knows, the addresses it
  has visited, the requests it waits for, and the diagnostics of a mutable GET.
 */
module IterativeQueries {
  import opened Ids
  import opened Bep42
  import opened Nodes
  import opened ClosestNodes
  import opened Sockets
  import opened MutableItems

  datatype Response = Peers(values: seq<Address>) | Immutable(v: Bytes) | Mutable(item: MutableItem)

  datatype GetRequest =
    | FindNode(target: Id)
    | GetPeers(target: Id)
    | GetValue(target: Id, seqNo: Option<int>, salt: Option<Bytes>)

  /** `GetMutableOutcome`. */
  datatype Outcome = Outcome(queried: nat, values: nat, noValues: nat, noMoreRecent: nat,
                             invalidValues: nat, invalidResponses: nat, krpcErrors: nat)

  const NO_OUTCOME: Outcome := Outcome(0, 0, 0, 0, 0, 0, 0)

  function Responded(o: Outcome): nat {
    o.values + o.noValues + o.noMoreRecent + o.invalidValues + o.invalidResponses + o.krpcErrors
  }

  /** Saturating subtraction, as in the source. */
  function TimedOut(o: Outcome): nat {
    if o.queried > Responded(o) then o.queried - Responded(o) else 0
  }

  /** `inflight` lists every id the lookup sent, `primary` those that are not liveness pings.
      `born` is the number of requests sent before the lookup existed; nothing reads it
      but the hypotheses on the reuse of transaction ids. */
  datatype Query = Query(request: GetRequest, closest: seq<Node>, responders: seq<Node>,
                         inflight: seq<Tid>, primary: seq<Tid>, visited: set<Address>,
                         responses: seq<Response>, outcome: Outcome, votes: map<Address, nat>, born: nat)

  function NewQuery(request: GetRequest, born: nat): Query {
    Query(request, [], [], [], [], {}, [], NO_OUTCOME, map[], born)
  }

  function AddCandidates(q: Query, nodes: seq<Node>): Query {
    q.(closest := AddAll(q.request.target, q.closest, nodes))
  }

  function AddResponder(q: Query, node: Node): Query {
    q.(responders := Insert(q.request.target, q.responders, node))
  }

  /** Votes are `u16` counts, which wrap around where overflow is not checked. */
  const MAX_VOTES: nat := 65535

  function VotesFor(q: Query, address: Address): nat {
    if address in q.votes then q.votes[address] else 0
  }

  function AddVote(q: Query, address: Address): Query {
    q.(votes := q.votes[address := (VotesFor(q, address) + 1) % (MAX_VOTES + 1)])
  }

  /** `mutable_outcome`: the counters with the number of visited addresses. */
  function FinalOutcome(q: Query): Outcome {
    q.outcome.(queried := |q.visited|)
  }

  // --- visiting ---

  /** `visit`: the request itself and a liveness ping. */
  function Visit(q: Query, s: Socket, address: Address, now: int): (r: (Query, Socket)) {
    var s' := Request(s, address, now);
    (q.(inflight := q.inflight + [Wrap(s.sent), Wrap(s'.sent)], primary := q.primary + [Wrap(s.sent)],
        visited := q.visited + {address}),
     Request(s', address, now))
  }

  function VisitAll(q: Query, s: Socket, addresses: seq<Address>, now: int): (r: (Query, Socket))
    decreases |addresses|
  {
    if addresses == [] then (q, s)
    else
      var (q', s') := Visit(q, s, addresses[0], now);
      VisitAll(q', s', addresses[1..], now)
  }

  function Unvisited(nodes: seq<Node>, visited: set<Address>): (r: seq<Address>)
    ensures forall a :: a in r <==> a !in visited && exists n :: n in nodes && n.address == a
  {
    if nodes == [] then []
    else
      assert nodes == [nodes[0]] + nodes[1..];
      (if nodes[0].address in visited then [] else [nodes[0].address]) + Unvisited(nodes[1..], visited)
  }

  function Top(q: Query): seq<Node> {
    q.closest[..Min(K, |q.closest|)]
  }

  /** The addresses of the next round, collected before any of them is visited. */
  function ToVisit(q: Query): seq<Address> {
    Unvisited(Top(q), q.visited)
  }

  function VisitClosest(q: Query, s: Socket, now: int): (r: (Query, Socket)) {
    VisitAll(q, s, ToVisit(q), now)
  }

  predicate AnyLive(q: Query, s: Socket, now: int) {
    exists tid :: tid in q.inflight && Inflight(s, tid, now)
  }

  /** `tick`: the lookup and the socket afterwards, and whether the lookup is done. */
  function TickQuery(q: Query, s: Socket, now: int): (r: (Query, Socket, bool)) {
    var (q', s') := VisitClosest(q, s, now);
    (q', s', !AnyLive(q', s', now))
  }

  // --- what sending requests does to the id table ---

  /** `t` is the id of a request numbered `a` or later and before `b`. */
  ghost predicate Issued(t: Tid, a: nat, b: nat) {
    exists k: nat :: a <= k < b && Wrap(k) == t
  }

  /** `s'` is `s` after some requests, all sent at `now`. */
  ghost predicate Extends(s: Socket, s': Socket, now: int) {
    && s.sent <= s'.sent
    && s' == s.(sent := s'.sent, requests := s'.requests)
    && (forall t: Tid :: !Issued(t, s.sent, s'.sent) ==>
          (t in s.requests <==> t in s'.requests) && (t in s.requests ==> s'.requests[t] == s.requests[t]))
    && (forall t: Tid :: Issued(t, s.sent, s'.sent) ==> t in s'.requests && s'.requests[t].sentAt == now)
  }

  lemma IssuedSplit(t: Tid, a: nat, b: nat, c: nat)
    requires a <= b <= c
    ensures Issued(t, a, c) <==> Issued(t, a, b) || Issued(t, b, c)
  {
  }

  lemma IssuedFresh(a: nat, b: nat)
    requires a <= b < a + TID_SPACE
    ensures !Issued(Wrap(b), a, b)
  {
  }

  lemma IssuedLast(a: nat, b: nat)
    requires a <= b
    ensures Issued(Wrap(b), a, b + 1)
  {
  }

  lemma RequestExtends(s: Socket, to: Address, now: int)
    ensures Extends(s, Request(s, to, now), now)
  {
    var s' := Request(s, to, now);
    forall t: Tid ensures Issued(t, s.sent, s'.sent) <==> t == Wrap(s.sent) {
      if t == Wrap(s.sent) { IssuedLast(s.sent, s.sent); }
    }
  }

  lemma ExtendsReflexive(s: Socket, now: int)
    ensures Extends(s, s, now)
  {
  }

  lemma ExtendsTransitive(a: Socket, b: Socket, c: Socket, now: int)
    requires Extends(a, b, now) && Extends(b, c, now)
    ensures Extends(a, c, now)
  {
    forall t: Tid
      ensures !Issued(t, a.sent, c.sent) ==>
                (t in a.requests <==> t in c.requests) && (t in a.requests ==> c.requests[t] == a.requests[t])
      ensures Issued(t, a.sent, c.sent) ==> t in c.requests && c.requests[t].sentAt == now
    {
      IssuedSplit(t, a.sent, b.sent, c.sent);
    }
  }

  ghost predicate NoDuplicates<T(!new)>(s: seq<T>) {
    forall i, j :: 0 <= i < j < |s| ==> s[i] != s[j]
  }

  /** `q'` is `q` after visiting, with the requests numbered from `s.sent` on. */
  ghost predicate Visited(q: Query, s: Socket, q': Query, s': Socket) {
    && q' == q.(inflight := q'.inflight, primary := q'.primary, visited := q'.visited)
    && q.inflight <= q'.inflight && q.primary <= q'.primary && q.visited <= q'.visited
    && (forall i :: |q.inflight| <= i < |q'.inflight| ==> Issued(q'.inflight[i], s.sent, s'.sent))
    && (forall i :: |q.primary| <= i < |q'.primary| ==> Issued(q'.primary[i], s.sent, s'.sent))
  }

  lemma VisitEffect(q: Query, s: Socket, address: Address, now: int)
    ensures var (q', s') := Visit(q, s, address, now); Extends(s, s', now) && Visited(q, s, q', s')
  {
    hide Extends;
    var s1 := Request(s, address, now);
    var s2 := Request(s1, address, now);
    RequestExtends(s, address, now);
    RequestExtends(s1, address, now);
    ExtendsTransitive(s, s1, s2, now);
    IssuedLast(s.sent, s.sent);
    IssuedLast(s.sent + 1, s.sent + 1);
    IssuedSplit(Wrap(s.sent), s.sent, s.sent + 1, s.sent + 2);
    IssuedSplit(Wrap(s.sent + 1), s.sent, s.sent + 1, s.sent + 2);
  }

  lemma VisitedTransitive(a: Query, s: Socket, b: Query, t: Socket, c: Query, u: Socket)
    requires Visited(a, s, b, t) && Visited(b, t, c, u) && s.sent <= t.sent <= u.sent
    ensures Visited(a, s, c, u)
  {
    hide Issued;
    forall i | |a.inflight| <= i < |c.inflight| ensures Issued(c.inflight[i], s.sent, u.sent) {
      IssuedSplit(c.inflight[i], s.sent, t.sent, u.sent);
    }
    forall i | |a.primary| <= i < |c.primary| ensures Issued(c.primary[i], s.sent, u.sent) {
      IssuedSplit(c.primary[i], s.sent, t.sent, u.sent);
    }
  }

  lemma {:induction false} VisitAllEffect(q: Query, s: Socket, addresses: seq<Address>, now: int)
    ensures var (q', s') := VisitAll(q, s, addresses, now);
            && Extends(s, s', now) && Visited(q, s, q', s')
            && q'.visited == q.visited + (set a | a in addresses)
            && |q'.primary| == |q.primary| + |addresses|
            && s'.sent == s.sent + 2 * |addresses|
    decreases |addresses|
  {
    hide Issued;
    var (q', s') := VisitAll(q, s, addresses, now);
    ExtendsReflexive(s, now);
    if addresses != [] {
      var (q1, s1) := Visit(q, s, addresses[0], now);
      VisitEffect(q, s, addresses[0], now);
      VisitAllEffect(q1, s1, addresses[1..], now);
      ExtendsTransitive(s, s1, s', now);
      VisitedTransitive(q, s, q1, s1, q', s');
      assert addresses == [addresses[0]] + addresses[1..];
    }
  }

  /** The round asks the given addresses in order: a primary request to each and a liveness ping
      after it, with consecutive ids. */
  ghost predicate Asks(q: Query, s: Socket, q': Query, s': Socket, addresses: seq<Address>, now: int) {
    && |q'.primary| == |q.primary| + |addresses| && |q'.inflight| == |q.inflight| + 2 * |addresses|
    && (forall i :: 0 <= i < |addresses| ==>
          && q'.primary[|q.primary| + i] == q'.inflight[|q.inflight| + 2 * i] == Nth(s.sent, 2 * i)
          && q'.inflight[|q.inflight| + 2 * i + 1] == Nth(s.sent, 2 * i + 1)
          && Nth(s.sent, 2 * i) in s'.requests && s'.requests[Nth(s.sent, 2 * i)] == InflightRequest(addresses[i], now)
          && Nth(s.sent, 2 * i + 1) in s'.requests && s'.requests[Nth(s.sent, 2 * i + 1)] == InflightRequest(addresses[i], now))
  }

  lemma {:induction false} VisitAllAsks(q: Query, s: Socket, addresses: seq<Address>, now: int)
    requires 2 * |addresses| <= TID_SPACE
    ensures var (q', s') := VisitAll(q, s, addresses, now); Asks(q, s, q', s', addresses, now)
    decreases |addresses|
  {
    if addresses != [] {
      var (q1, s1) := Visit(q, s, addresses[0], now);
      var (q', s') := VisitAll(q, s, addresses, now);
      VisitAllAsks(q1, s1, addresses[1..], now);
      VisitAllEffect(q1, s1, addresses[1..], now);
      FirstAsked(q, s, q', s', addresses, now);
      OthersAsked(q, s, q', s', addresses, now);
    }
  }

  lemma FirstAsked(q: Query, s: Socket, q': Query, s': Socket, addresses: seq<Address>, now: int)
    requires addresses != [] && 2 * |addresses| <= TID_SPACE
    requires var (q1, s1) := Visit(q, s, addresses[0], now);
             Extends(s1, s', now) && Visited(q1, s1, q', s') && s'.sent == s1.sent + 2 * |addresses[1..]|
    ensures |q'.primary| > |q.primary| && |q'.inflight| > |q.inflight| + 1
    ensures q'.primary[|q.primary|] == q'.inflight[|q.inflight|] == Nth(s.sent, 0) && q'.inflight[|q.inflight| + 1] == Nth(s.sent, 1)
    ensures Nth(s.sent, 0) in s'.requests && s'.requests[Nth(s.sent, 0)] == InflightRequest(addresses[0], now)
    ensures Nth(s.sent, 1) in s'.requests && s'.requests[Nth(s.sent, 1)] == InflightRequest(addresses[0], now)
  {
    var (q1, s1) := Visit(q, s, addresses[0], now);
    assert q1.primary[|q.primary|] == Nth(s.sent, 0) && q1.inflight[|q.inflight|] == Nth(s.sent, 0);
    assert q1.inflight[|q.inflight| + 1] == Nth(s.sent, 1);
    NthApart(s.sent, 0, 1);
    forall k: nat | s1.sent <= k < s'.sent ensures Wrap(k) != Nth(s.sent, 0) && Wrap(k) != Nth(s.sent, 1) {
      NthApart(0, s.sent, k);
      NthApart(0, s.sent + 1, k);
    }
  }

  lemma OthersAsked(q: Query, s: Socket, q': Query, s': Socket, addresses: seq<Address>, now: int)
    requires addresses != [] && 2 * |addresses| <= TID_SPACE
    requires var (q1, s1) := Visit(q, s, addresses[0], now); Asks(q1, s1, q', s', addresses[1..], now)
    requires Nth(s.sent, 0) in s'.requests && s'.requests[Nth(s.sent, 0)] == InflightRequest(addresses[0], now)
    requires Nth(s.sent, 1) in s'.requests && s'.requests[Nth(s.sent, 1)] == InflightRequest(addresses[0], now)
    requires |q'.primary| > |q.primary| && |q'.inflight| > |q.inflight| + 1
    requires q'.primary[|q.primary|] == q'.inflight[|q.inflight|] == Nth(s.sent, 0) && q'.inflight[|q.inflight| + 1] == Nth(s.sent, 1)
    ensures Asks(q, s, q', s', addresses, now)
  {
    var (q1, s1) := Visit(q, s, addresses[0], now);
    var rest := addresses[1..];
    forall i | 0 <= i < |addresses|
      ensures q'.primary[|q.primary| + i] == q'.inflight[|q.inflight| + 2 * i] == Nth(s.sent, 2 * i)
      ensures q'.inflight[|q.inflight| + 2 * i + 1] == Nth(s.sent, 2 * i + 1)
      ensures Nth(s.sent, 2 * i) in s'.requests && s'.requests[Nth(s.sent, 2 * i)] == InflightRequest(addresses[i], now)
      ensures Nth(s.sent, 2 * i + 1) in s'.requests && s'.requests[Nth(s.sent, 2 * i + 1)] == InflightRequest(addresses[i], now)
    {
      if i > 0 {
        var k := i - 1;
        assert Nth(s1.sent, 2 * k) == Nth(s.sent, 2 * i) && Nth(s1.sent, 2 * k + 1) == Nth(s.sent, 2 * i + 1);
        assert q'.primary[|q1.primary| + k] == q'.inflight[|q1.inflight| + 2 * k] == Nth(s1.sent, 2 * k);
        assert rest[k] == addresses[i];
      }
    }
  }

  /** One of the twenty best candidates is at `x`. */
  predicate AmongBest(q: Query, x: Address) {
    exists i :: 0 <= i < |q.closest| && i < 20 && q.closest[i].address == x
  }

  lemma TopMeans(q: Query, x: Address)
    ensures AmongBest(q, x) <==> exists n :: n in Top(q) && n.address == x
  {
    if AmongBest(q, x) {
      var i :| 0 <= i < |q.closest| && i < 20 && q.closest[i].address == x;
      assert Top(q)[i] in Top(q);
    }
  }

  lemma {:induction false} UnvisitedIsShort(nodes: seq<Node>, visited: set<Address>)
    ensures |Unvisited(nodes, visited)| <= |nodes|
  {
    if nodes != [] { UnvisitedIsShort(nodes[1..], visited); }
  }

  /** A round asks the addresses of the twenty best candidates that were not visited before, at most
      twenty of them, and nobody else. */
  lemma RoundAsks(q: Query, s: Socket, now: int)
    ensures var (q', s') := VisitClosest(q, s, now);
            && |ToVisit(q)| <= 20 && Asks(q, s, q', s', ToVisit(q), now)
            && s'.sent == s.sent + 2 * |ToVisit(q)|
            && forall x :: x in ToVisit(q) <==> AmongBest(q, x) && x !in q.visited
  {
    hide Asks, VisitAll, AmongBest, Top, Extends, Visited;
    UnvisitedIsShort(Top(q), q.visited);
    TopIsShort(q);
    VisitAllAsks(q, s, ToVisit(q), now);
    VisitAllEffect(q, s, ToVisit(q), now);
    forall x ensures AmongBest(q, x) <==> exists n :: n in Top(q) && n.address == x {
      TopMeans(q, x);
    }
  }

  lemma TopIsShort(q: Query)
    ensures |Top(q)| <= 20
  {
  }

  /** After a round every one of the twenty best candidates has been visited, and a round
      that contacts anyone strictly enlarges the visited set. */
  lemma VisitClosestEffect(q: Query, s: Socket, now: int)
    ensures var (q', s') := VisitClosest(q, s, now);
            && Extends(s, s', now) && Visited(q, s, q', s')
            && Top(q') == Top(q)
            && (forall n :: n in Top(q') ==> n.address in q'.visited)
            && (forall i :: 0 <= i < |q.closest| && i < 20 ==> q.closest[i].address in q'.visited)
            && (ToVisit(q) == [] ==> (q', s') == (q, s))
            && (ToVisit(q) != [] ==> q.visited < q'.visited)
            && q'.visited <= q.visited + (set n | n in q.closest :: n.address)
  {
    hide Extends;
    var (q', s') := VisitClosest(q, s, now);
    VisitAllEffect(q, s, ToVisit(q), now);
    forall n | n in Top(q) ensures n.address in q'.visited {
      assert n.address in q.visited || n.address in ToVisit(q);
    }
    forall i | 0 <= i < |q.closest| && i < 20 ensures q.closest[i].address in q'.visited {
      assert Top(q)[i] in Top(q);
    }
    if ToVisit(q) != [] {
      assert ToVisit(q)[0] in q'.visited && ToVisit(q)[0] !in q.visited;
    }
    forall a | a in ToVisit(q) ensures a in (set n | n in q.closest :: n.address) {
      var n :| n in Top(q) && n.address == a;
      assert n in q.closest;
    }
  }

  /** Two candidates of one address with different 21-bit prefixes are both kept when the
      address is exempt, and one round contacts the address for each of them: one address
      visited, two primary requests. */
  lemma SharedAddressContactedTwice(request: GetRequest, a: Node, b: Node, s: Socket, now: int)
    requires a.address == b.address && IsExempt(a.address.ip) && First21Bits(a.id) != First21Bits(b.id)
    ensures var q := AddCandidates(NewQuery(request, s.sent), [a, b]);
            var q' := VisitClosest(q, s, now).0;
            && multiset(q.closest) == multiset{a, b} && ToVisit(q) == [a.address, a.address]
            && q'.visited == {a.address} && |q'.primary| == 2
  {
    hide First21Bits, IsExempt, AddAll, Unvisited;
    var q := AddCandidates(NewQuery(request, s.sent), [a, b]);
    PairIsKept(request.target, a, b);
    var nodes := q.closest;
    assert |nodes| == |multiset(nodes)| == 2;
    assert nodes[0] in multiset(nodes) && nodes[1] in multiset(nodes);
    assert Top(q) == nodes;
    PairIsUnvisited(nodes, a.address);
    VisitAllEffect(q, s, ToVisit(q), now);
    assert q.visited + (set x | x in ToVisit(q)) == {a.address};
  }

  lemma PairIsKept(target: Id, a: Node, b: Node)
    requires a.address == b.address && IsExempt(a.address.ip) && First21Bits(a.id) != First21Bits(b.id)
    ensures multiset(AddAll(target, [], [a, b])) == multiset{a, b}
  {
    hide First21Bits, Position, IsExempt, Insert;
    assert !Blocks(a, b) && !SameEntry(a, b);
    InsertContents(target, [], a);
    var one := Insert(target, [], a);
    assert |one| == |multiset(one)| == 1 && one[0] in multiset(one);
    assert one == [a];
    InsertContents(target, [a], b);
    assert [a, b][1..] == [b] && [b][1..] == [];
    assert AddAll(target, [], [a, b]) == AddAll(target, one, [b]);
    assert AddAll(target, one, [b]) == AddAll(target, Insert(target, one, b), []);
  }

  lemma {:induction false} PairIsUnvisited(nodes: seq<Node>, x: Address)
    requires |nodes| == 2 && nodes[0].address == x && nodes[1].address == x
    ensures Unvisited(nodes, {}) == [x, x]
  {
    var rest := nodes[1..];
    assert rest == [nodes[1]] && rest[1..] == [];
    assert Unvisited(rest[1..], {}) == [];
    assert Unvisited(rest, {}) == [x] + [];
    assert Unvisited(nodes, {}) == [x] + Unvisited(rest, {});
  }

  /** Such nodes exist: 10.0.0.1, with identifiers that differ in the first byte. */
  lemma SharedAddressExample(request: GetRequest, a: Node, b: Node, s: Socket, now: int)
    requires a.address == b.address == Address(0x0a000001, 6881) && a.id[0] == 0 && b.id[0] == 1
    ensures VisitClosest(AddCandidates(NewQuery(request, s.sent), [a, b]), s, now).0.visited == {a.address}
    ensures |VisitClosest(AddCandidates(NewQuery(request, s.sent), [a, b]), s, now).0.primary| == 2
  {
    hide VisitClosest, AddCandidates;
    assert First21Bits(a.id)[0] != First21Bits(b.id)[0];
    SharedAddressContactedTwice(request, a, b, s, now);
  }

  // --- votes on our own address ---

  /** The scan of `best_address` over the votes in the given order: a strictly larger count wins. */
  function BestFrom(votes: map<Address, nat>, order: seq<Address>, best: Option<Address>, max: nat): Option<Address>
    decreases |order|
  {
    if order == [] then best
    else if order[0] in votes && votes[order[0]] > max
    then BestFrom(votes, order[1..], Some(order[0]), votes[order[0]])
    else BestFrom(votes, order[1..], best, max)
  }

  function BestAddress(votes: map<Address, nat>, order: seq<Address>): Option<Address> {
    BestFrom(votes, order, None, 0)
  }

  /** `best_address` as a loop: no vote is higher than the winner's, whatever the hash order, and
      there is none exactly when no address has a vote (or all of them wrapped to zero). */
  method ComputeBestAddress(votes: map<Address, nat>, order: seq<Address>) returns (best: Option<Address>)
    requires forall a :: a in votes ==> a in order
    ensures best.None? <==> forall a :: a in votes ==> votes[a] == 0
    ensures best.Some? ==> best.value in votes && forall a :: a in votes ==> votes[a] <= votes[best.value]
    ensures best == BestAddress(votes, order)
  {
    var max := 0;
    best := None;
    assert order[0..] == order;
    for i := 0 to |order|
      invariant BestAddress(votes, order) == BestFrom(votes, order[i..], best, max)
      invariant best.None? ==> max == 0
      invariant best.Some? ==> best.value in votes && votes[best.value] == max > 0
      invariant forall j :: 0 <= j < i && order[j] in votes ==> votes[order[j]] <= max
    {
      assert order[i..][1..] == order[i + 1..];
      if order[i] in votes && votes[order[i]] > max {
        max := votes[order[i]];
        best := Some(order[i]);
      }
    }
    forall a | a in votes ensures votes[a] <= max {
      assert a in order;
    }
  }

  // --- the mutable object ---

  class IterativeQuery {
    const request: GetRequest
    var closest: seq<Node>
    var responders: seq<Node>
    var inflight: seq<Tid>
    var primary: seq<Tid>
    var visited: set<Address>
    var responses: seq<Response>
    var outcome: Outcome
    var votes: map<Address, nat>
    ghost const born: nat

    ghost function State(): Query
      reads this
    {
      Query(request, closest, responders, inflight, primary, visited, responses, outcome, votes, born)
    }

    constructor (request: GetRequest, ghost born: nat)
      ensures State() == NewQuery(request, born)
    {
      this.request, this.born := request, born;
      closest, responders, inflight, primary, visited := [], [], [], [], {};
      responses, outcome, votes := [], NO_OUTCOME, map[];
    }

    method VisitAddress(socket: KrpcSocket, address: Address, now: int)
      requires socket.Valid()
      modifies this`inflight, this`primary, this`visited, socket`nextTid, socket`sent, socket.inflight
      ensures socket.Valid()
      ensures (State(), socket.State()) == Visit(old(State()), old(socket.State()), address, now)
    {
      var tid := socket.SendRequest(address, now);
      inflight := inflight + [tid];
      primary := primary + [tid];
      var ping := socket.SendRequest(address, now);
      inflight := inflight + [ping];
      visited := visited + {address};
      assert inflight == old(inflight) + [tid, ping];
    }

    /** `visit_closest`: the round is collected first, then visited one address at a time. */
    method VisitClosestNodes(socket: KrpcSocket, now: int)
      requires socket.Valid()
      modifies this`inflight, this`primary, this`visited, socket`nextTid, socket`sent, socket.inflight
      ensures socket.Valid()
      ensures (State(), socket.State()) == VisitClosest(old(State()), old(socket.State()), now)
    {
      ghost var q, s := State(), socket.State();
      var toVisit := Unvisited(closest[..Min(K, |closest|)], visited);
      assert toVisit[0..] == toVisit;
      for i := 0 to |toVisit|
        invariant socket.Valid()
        invariant VisitClosest(q, s, now) == VisitAll(State(), socket.State(), toVisit[i..], now)
      {
        assert toVisit[i..][1..] == toVisit[i + 1..];
        VisitAddress(socket, toVisit[i], now);
      }
    }

    /** `tick`. A finished lookup has visited its twenty best candidates and waits for nothing. */
    method Tick(socket: KrpcSocket, now: int) returns (done: bool)
      requires socket.Valid()
      modifies this`inflight, this`primary, this`visited, socket`nextTid, socket`sent, socket.inflight
      ensures socket.Valid()
      ensures (State(), socket.State(), done) == TickQuery(old(State()), old(socket.State()), now)
      ensures done ==> forall tid :: tid in inflight ==> !Inflight(socket.State(), tid, now)
      ensures forall n :: n in Top(State()) ==> n.address in visited
    {
      VisitClosestEffect(State(), socket.State(), now);
      VisitClosestNodes(socket, now);
      done := true;
      for i := 0 to |inflight|
        modifies {}
        invariant done ==> forall j :: 0 <= j < i ==> !Inflight(socket.State(), inflight[j], now)
        invariant !done ==> AnyLive(State(), socket.State(), now)
      {
        var live := socket.inflight.Contains(inflight[i], now);
        if live {
          assert inflight[i] in State().inflight && Inflight(socket.State(), inflight[i], now);
          done := false;
        }
      }
    }
  }
}
