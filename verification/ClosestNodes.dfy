/**
  The ordered candidate set of a lookup (src/rpc/closest_nodes.rs): insertion by
  binary search under "secure first, then XOR distance to the target", and the
  secure cut-off of the set.
 */
module ClosestNodes {
  import opened Ids
  import opened Bep42
  import opened Nodes

  const K: nat := 20

  // --- the order ---

  datatype Ordering = Less | Equal | Greater

  /** The comparator handed to `binary_search_by`: how `probe` stands to `node`. */
  function Compare(target: Id, probe: Node, node: Node): Ordering {
    if IsSecure(probe) && !IsSecure(node) then Less
    else if !IsSecure(probe) && IsSecure(node) then Greater
    else if probe.id == node.id then Equal
    else if LexLess(Xor(probe.id, target), Xor(node.id, target)) then Less
    else Greater
  }

  /** One integer that carries the two-level order: insecure nodes lie above every secure one. */
  ghost function Key(target: Id, n: Node): nat {
    (if IsSecure(n) then 0 else Pow2(160)) + Value(Xor(n.id, target))
  }

  lemma CompareFollowsKey(target: Id, a: Node, b: Node)
    ensures Compare(target, a, b) == Less <==> Key(target, a) < Key(target, b)
    ensures Compare(target, a, b) == Equal <==> Key(target, a) == Key(target, b)
    ensures Key(target, a) == Key(target, b) <==> a.id == b.id && IsSecure(a) == IsSecure(b)
  {
    hide IsValidForIp, Pow2, Value, LexLess, Xor;
    var x, y := Xor(a.id, target), Xor(b.id, target);
    ValueBound(x);
    ValueBound(y);
    LexLessIsIntegerOrder(x, y);
    if x == y { XorInjective(a.id, b.id, target); }
  }

  ghost predicate StrictlySorted(target: Id, s: seq<Node>) {
    forall i, j :: 0 <= i < j < |s| ==> Key(target, s[i]) < Key(target, s[j])
  }

  // --- insertion ---

  /** Same identifier and same security: the comparator answers `Equal`. */
  predicate SameEntry(a: Node, b: Node) {
    a.id == b.id && IsSecure(a) == IsSecure(b)
  }

  /** The set takes `n`: no member blocks it and no member is the same entry. */
  predicate Accepts(s: seq<Node>, n: Node) {
    !AlreadyExists(n, s) && forall e :: e in s ==> !SameEntry(e, n)
  }

  /** How many leading members come before `n`. */
  function Position(target: Id, s: seq<Node>, n: Node): (p: nat)
    ensures p <= |s|
  {
    if s == [] || Compare(target, s[0], n) != Less then 0 else 1 + Position(target, s[1..], n)
  }

  /** The position is the first index whose node is not before `n`. */
  lemma {:induction false} PositionIsFirst(target: Id, s: seq<Node>, n: Node)
    ensures var p := Position(target, s, n);
            (forall i :: 0 <= i < p ==> Compare(target, s[i], n) == Less)
            && (p < |s| ==> Compare(target, s[p], n) != Less)
  {
    hide Compare;
    if s != [] && Compare(target, s[0], n) == Less {
      PositionIsFirst(target, s[1..], n);
      assert forall i :: 0 < i < |s| ==> s[i] == s[1..][i - 1];
    }
  }

  function Insert(target: Id, s: seq<Node>, n: Node): seq<Node> {
    if Accepts(s, n) then
      var p := Position(target, s, n);
      s[..p] + [n] + s[p..]
    else s
  }

  function AddAll(target: Id, s: seq<Node>, xs: seq<Node>): seq<Node>
    decreases |xs|
  {
    if xs == [] then s else AddAll(target, Insert(target, s, xs[0]), xs[1..])
  }

  /** Every member before the position is smaller than `n`, every other one larger. */
  lemma PositionSplits(target: Id, s: seq<Node>, n: Node, i: nat)
    requires StrictlySorted(target, s) && i < |s|
    requires forall e :: e in s ==> !SameEntry(e, n)
    ensures i < Position(target, s, n) ==> Key(target, s[i]) < Key(target, n)
    ensures i >= Position(target, s, n) ==> Key(target, n) < Key(target, s[i])
  {
    hide Key, Compare, IsSecure;
    var p := Position(target, s, n);
    PositionIsFirst(target, s, n);
    CompareFollowsKey(target, s[i], n);
    assert s[i] in s;
    if i >= p {
      CompareFollowsKey(target, s[p], n);
      assert s[p] in s;
    }
  }

  lemma SpliceSorted(target: Id, s: seq<Node>, n: Node)
    requires StrictlySorted(target, s)
    requires forall e :: e in s ==> !SameEntry(e, n)
    ensures var p := Position(target, s, n); StrictlySorted(target, s[..p] + [n] + s[p..])
  {
    hide Key, Compare, SameEntry, Position;
    forall i | 0 <= i < |s|
      ensures i < Position(target, s, n) ==> Key(target, s[i]) < Key(target, n)
      ensures i >= Position(target, s, n) ==> Key(target, n) < Key(target, s[i])
    {
      PositionSplits(target, s, n, i);
    }
  }

  lemma InsertKeepsOrder(target: Id, s: seq<Node>, n: Node)
    requires StrictlySorted(target, s)
    ensures StrictlySorted(target, Insert(target, s, n))
  {
    hide StrictlySorted, SameEntry, AlreadyExists;
    if Accepts(s, n) {
      SpliceSorted(target, s, n);
    }
  }

  /** When a node is taken: no member of its address is insecure or has its 21-bit prefix, and no
      member has its identifier and security. Otherwise the set stays as it is. */
  lemma InsertTakes(target: Id, s: seq<Node>, n: Node)
    ensures var taken := forall e :: e in s ==>
                           && !(e.address.ip == n.address.ip && (!IsSecure(e) || First21Bits(e.id) == First21Bits(n.id)))
                           && !(e.id == n.id && IsSecure(e) == IsSecure(n));
            if taken then multiset(Insert(target, s, n)) == multiset(s) + multiset{n} else Insert(target, s, n) == s
  {
    hide IsSecure, First21Bits, Position;
    InsertContents(target, s, n);
    forall e ensures Blocks(e, n) <==> (e.address.ip == n.address.ip && (!IsSecure(e) || First21Bits(e.id) == First21Bits(n.id))) {
    }
  }

  lemma InsertContents(target: Id, s: seq<Node>, n: Node)
    ensures multiset(Insert(target, s, n)) == multiset(s) + (if Accepts(s, n) then multiset{n} else multiset{})
  {
    hide Position, Accepts;
    var p := Position(target, s, n);
    assert s == s[..p] + s[p..];
  }

  lemma {:induction false} AddAllKeepsOrder(target: Id, s: seq<Node>, xs: seq<Node>)
    requires StrictlySorted(target, s)
    ensures StrictlySorted(target, AddAll(target, s, xs))
    decreases |xs|
  {
    hide StrictlySorted, Insert;
    if xs != [] {
      InsertKeepsOrder(target, s, xs[0]);
      AddAllKeepsOrder(target, Insert(target, s, xs[0]), xs[1..]);
    }
  }

  class CandidateSet {
    const target: Id
    var nodes: seq<Node>

    ghost predicate Valid()
      reads this
    {
      StrictlySorted(target, nodes)
    }

    constructor (target: Id)
      ensures Valid() && this.target == target && nodes == []
    {
      this.target := target;
      nodes := [];
    }

    /** `binary_search_by`: found, or the place where `node` belongs. */
    method Search(node: Node) returns (found: bool, pos: nat)
      requires Valid()
      ensures found <==> exists e :: e in nodes && SameEntry(e, node)
      ensures !found ==> pos == Position(target, nodes, node)
    {
      hide Key, Compare, IsSecure;
      var lo, hi := 0, |nodes|;
      while lo < hi
        invariant 0 <= lo <= hi <= |nodes|
        invariant forall i :: 0 <= i < lo ==> Key(target, nodes[i]) < Key(target, node)
        invariant forall i :: hi <= i < |nodes| ==> Key(target, node) < Key(target, nodes[i])
      {
        var mid := lo + (hi - lo) / 2;
        CompareFollowsKey(target, nodes[mid], node);
        match Compare(target, nodes[mid], node) {
          case Less => lo := mid + 1;
          case Greater => hi := mid;
          case Equal =>
            assert nodes[mid] in nodes && SameEntry(nodes[mid], node);
            return true, mid;
        }
      }
      forall e | e in nodes ensures !SameEntry(e, node) {
        CompareFollowsKey(target, e, node);
      }
      var p := Position(target, nodes, node);
      PositionIsFirst(target, nodes, node);
      if p < |nodes| { CompareFollowsKey(target, nodes[p], node); }
      if lo < |nodes| { CompareFollowsKey(target, nodes[lo], node); }
      return false, lo;
    }

    /** `ClosestNodes::add`. */
    method Add(node: Node)
      requires Valid()
      modifies this
      ensures Valid()
      ensures nodes == Insert(target, old(nodes), node)
    {
      hide Key, Compare, IsSecure;
      InsertKeepsOrder(target, nodes, node);
      if AlreadyExists(node, nodes) {
        return;
      }
      var found, pos := Search(node);
      if !found {
        nodes := nodes[..pos] + [node] + nodes[pos..];
      }
    }
  }

  // --- reference: greedy acceptance in arrival order ---

  /** The nodes taken when each arrival is tested against those taken before it.
      The target plays no part. */
  function Greedy(xs: seq<Node>): seq<Node> {
    GreedyOnto([], xs)
  }

  /** The same, onto nodes already taken. */
  function GreedyOnto(taken: seq<Node>, xs: seq<Node>): seq<Node> {
    if xs == [] then taken
    else
      var before, last := GreedyOnto(taken, xs[..|xs| - 1]), xs[|xs| - 1];
      if Accepts(before, last) then before + [last] else before
  }

  lemma AcceptsByContents(s: seq<Node>, t: seq<Node>, n: Node)
    requires multiset(s) == multiset(t)
    ensures Accepts(s, n) == Accepts(t, n)
  {
    hide Blocks, SameEntry;
    assert forall e :: e in s <==> e in multiset(s);
    assert forall e :: e in t <==> e in multiset(t);
  }

  lemma {:induction false} AddAllSnoc(target: Id, s: seq<Node>, xs: seq<Node>, x: Node)
    ensures AddAll(target, s, xs + [x]) == Insert(target, AddAll(target, s, xs), x)
    decreases |xs|
  {
    hide Insert;
    if xs == [] {
      assert (xs + [x])[1..] == [];
      assert AddAll(target, s, [x]) == AddAll(target, Insert(target, s, x), []);
      assert [] + [x] == [x];
    } else {
      assert (xs + [x])[1..] == xs[1..] + [x];
      AddAllSnoc(target, Insert(target, s, xs[0]), xs[1..], x);
    }
  }

  /** Adding nodes to a sorted set keeps it sorted, and takes exactly the nodes that are taken
      when each is tested against those before it. */
  lemma {:induction false} AddAllRefinesOnto(target: Id, s: seq<Node>, xs: seq<Node>)
    requires StrictlySorted(target, s)
    ensures StrictlySorted(target, AddAll(target, s, xs))
    ensures multiset(AddAll(target, s, xs)) == multiset(GreedyOnto(s, xs))
    decreases |xs|
  {
    hide StrictlySorted, Insert, Accepts, Key;
    if xs != [] {
      var init, last := xs[..|xs| - 1], xs[|xs| - 1];
      assert xs == init + [last];
      AddAllRefinesOnto(target, s, init);
      AddAllSnoc(target, s, init, last);
      InsertKeepsOrder(target, AddAll(target, s, init), last);
      InsertContents(target, AddAll(target, s, init), last);
      AcceptsByContents(AddAll(target, s, init), GreedyOnto(s, init), last);
    }
  }

  lemma AddAllRefinesGreedy(target: Id, xs: seq<Node>)
    ensures StrictlySorted(target, AddAll(target, [], xs))
    ensures multiset(AddAll(target, [], xs)) == multiset(Greedy(xs))
  {
    AddAllRefinesOnto(target, [], xs);
  }

  /** A strictly sorted sequence is determined by its contents. */
  lemma {:induction false} SortedIsUnique(target: Id, s: seq<Node>, t: seq<Node>)
    requires StrictlySorted(target, s) && StrictlySorted(target, t)
    requires multiset(s) == multiset(t)
    ensures s == t
    decreases |s|
  {
    hide Key;
    assert |s| == |multiset(s)| == |multiset(t)| == |t|;
    if s != [] {
      SortedHeads(target, s, t);
      assert s == [s[0]] + s[1..] && t == [t[0]] + t[1..];
      assert multiset(s[1..]) == multiset(s) - multiset{s[0]};
      assert multiset(t[1..]) == multiset(t) - multiset{t[0]};
      SortedIsUnique(target, s[1..], t[1..]);
    }
  }

  lemma SortedHeads(target: Id, s: seq<Node>, t: seq<Node>)
    requires StrictlySorted(target, s) && StrictlySorted(target, t)
    requires s != [] && t != [] && multiset(s) == multiset(t)
    ensures s[0] == t[0]
  {
    hide StrictlySorted, Key;
    assert s[0] in multiset(t) && t[0] in multiset(s);
    HeadIsLeast(target, s, t[0]);
    HeadIsLeast(target, t, s[0]);
  }

  lemma HeadIsLeast(target: Id, s: seq<Node>, e: Node)
    requires StrictlySorted(target, s) && e in s
    ensures Key(target, s[0]) < Key(target, e) || e == s[0]
  {
    hide Key;
  }

  /** After any arrivals the set is the greedily taken nodes in order, and nothing else:
      every sorted arrangement of those nodes is this one. */
  lemma AddAllIsSortedGreedy(target: Id, xs: seq<Node>, s: seq<Node>)
    requires StrictlySorted(target, s)
    ensures s == AddAll(target, [], xs) <==> multiset(s) == multiset(Greedy(xs))
  {
    hide Key, Greedy, AddAll;
    AddAllRefinesGreedy(target, xs);
    if multiset(s) == multiset(Greedy(xs)) {
      SortedIsUnique(target, s, AddAll(target, [], xs));
    }
  }

  // --- capacity per address ---

  lemma InsertKeepsCompatible(target: Id, s: seq<Node>, n: Node)
    requires PairwiseCompatible(s)
    ensures PairwiseCompatible(Insert(target, s, n))
  {
    hide Compatible, Blocks, SameEntry, Compare;
    if Accepts(s, n) {
      forall e | e in s ensures Compatible(e, n) && Compatible(n, e) {
        UnblockedIsCompatible(e, n);
      }
    }
  }

  lemma {:induction false} AddAllKeepsCompatible(target: Id, s: seq<Node>, xs: seq<Node>)
    requires PairwiseCompatible(s)
    ensures PairwiseCompatible(AddAll(target, s, xs))
    decreases |xs|
  {
    hide PairwiseCompatible, Insert;
    if xs != [] {
      InsertKeepsCompatible(target, s, xs[0]);
      AddAllKeepsCompatible(target, Insert(target, s, xs[0]), xs[1..]);
    }
  }

  /** Whatever arrives, a constrained address holds at most eight secure and one insecure place. */
  lemma CandidatesPerAddress(target: Id, xs: seq<Node>, ip: bv32)
    requires !IsExempt(ip)
    ensures CountAt(AddAll(target, [], xs), ip, true) <= 8
    ensures CountAt(AddAll(target, [], xs), ip, false) <= 1
  {
    AddAllKeepsCompatible(target, [], xs);
    CapacityPerAddress(AddAll(target, [], xs), ip);
  }

  // --- the secure cut-off ---

  /** The top 128 bits of the XOR, as `distance` computes them. */
  function TopDistance(target: Id, n: Node): nat {
    Value(Xor(n.id, target)[..16])
  }

  /** Six leading bits of the IPv4 address. */
  function Subnet(n: Node): (k: nat)
    ensures k < 64
  {
    ((n.address.ip >> 26) & 0x3f) as nat
  }

  function Subnets(s: seq<Node>): set<nat> {
    set n | n in s :: Subnet(n)
  }

  /** The loop breaks at index `i`. */
  predicate Stops(target: Id, s: seq<Node>, edk: nat, averageSubnets: nat, i: nat)
    requires i < |s|
  {
    TopDistance(target, s[i]) >= edk && |Subnets(s[..i + 1])| >= averageSubnets
  }

  function StopIndex(target: Id, s: seq<Node>, edk: nat, averageSubnets: nat, from: nat): (u: nat)
    requires from <= |s|
    ensures from <= u <= |s|
    ensures forall i :: from <= i < u ==> !Stops(target, s, edk, averageSubnets, i)
    ensures u < |s| ==> Stops(target, s, edk, averageSubnets, u)
    decreases |s| - from
  {
    if from == |s| || Stops(target, s, edk, averageSubnets, from) then from
    else StopIndex(target, s, edk, averageSubnets, from + 1)
  }

  function Min(a: nat, b: nat): nat { if a < b then a else b }
  function Max(a: nat, b: nat): nat { if a > b then a else b }

  function TakeLength(target: Id, s: seq<Node>, edk: nat, averageSubnets: nat): (l: nat)
    ensures Min(K, |s|) <= l <= |s|
  {
    Min(Max(StopIndex(target, s, edk, averageSubnets, 0), K), |s|)
  }

  function TakeUntilSecure(target: Id, s: seq<Node>, edk: nat, averageSubnets: nat): seq<Node> {
    s[..TakeLength(target, s, edk, averageSubnets)]
  }

  /** `take_until_secure`, with the expected distance given as an integer. */
  method ComputeTakeUntilSecure(target: Id, s: seq<Node>, edk: nat, averageSubnets: nat) returns (r: seq<Node>)
    ensures r == TakeUntilSecure(target, s, edk, averageSubnets)
  {
    hide TopDistance, Subnet;
    var untilSecure := 0;
    var subnets: set<nat> := {};
    while untilSecure < |s|
      invariant untilSecure <= |s|
      invariant subnets == Subnets(s[..untilSecure])
      invariant StopIndex(target, s, edk, averageSubnets, 0) == StopIndex(target, s, edk, averageSubnets, untilSecure)
    {
      subnets := subnets + {Subnet(s[untilSecure])};
      assert s[..untilSecure + 1] == s[..untilSecure] + [s[untilSecure]];
      assert subnets == Subnets(s[..untilSecure + 1]);
      if TopDistance(target, s[untilSecure]) >= edk && |subnets| >= averageSubnets {
        break;
      }
      untilSecure := untilSecure + 1;
    }
    r := s[..Min(Max(untilSecure, K), |s|)];
  }

  lemma {:induction false} ValueSplit(s: Bytes, k: nat)
    requires k <= |s|
    ensures Value(s) == Value(s[..k]) * Pow2(8 * (|s| - k)) + Value(s[k..])
    decreases k
  {
    if k == 0 {
      assert s[0..] == s;
    } else {
      ValueSplit(s[1..], k - 1);
      assert s[1..][..k - 1] == s[..k][1..] && s[1..][k - 1..] == s[k..];
      var d, hi, m, n := s[0] as nat, Value(s[..k][1..]), 8 * (k - 1), 8 * (|s| - k);
      Pow2Add(m, n);
      assert Value(s[..k]) == d * Pow2(m) + hi;
      Distribute(d, Pow2(m), hi, Pow2(n));
    }
  }

  lemma Distribute(d: nat, p: nat, h: nat, q: nat)
    ensures (d * p + h) * q == d * (p * q) + h * q
  {
    assert (d * p) * q == d * (p * q);
  }

  lemma TopDistanceMonotone(target: Id, a: Node, b: Node)
    requires Value(Xor(a.id, target)) <= Value(Xor(b.id, target))
    ensures TopDistance(target, a) <= TopDistance(target, b)
  {
    hide Value, Xor, Pow2;
    var x, y := Xor(a.id, target), Xor(b.id, target);
    ValueSplit(x, 16);
    ValueSplit(y, 16);
    ValueBound(y[16..]);
    if Value(y[..16]) < Value(x[..16]) {
      DigitDecides(Value(y[..16]), Value(x[..16]), Pow2(32), Value(y[16..]), Value(x[16..]));
    }
  }

  /** The cut never omits a secure node nearer than the expected distance. */
  lemma TakeKeepsNearSecureNodes(target: Id, s: seq<Node>, edk: nat, averageSubnets: nat, i: nat)
    requires StrictlySorted(target, s)
    requires TakeLength(target, s, edk, averageSubnets) <= i < |s| && IsSecure(s[i])
    ensures TopDistance(target, s[i]) >= edk
  {
    hide TopDistance, Subnets, IsValidForIp, Value, Xor;
    var u := StopIndex(target, s, edk, averageSubnets, 0);
    if u < i {
      assert Key(target, s[u]) < Key(target, s[i]);
      ValueBound(Xor(s[i].id, target));
      TopDistanceMonotone(target, s[u], s[i]);
    }
  }

  /** When it stops short, the cut and the next node span the wanted number of subnets. */
  lemma TakeSpansSubnets(target: Id, s: seq<Node>, edk: nat, averageSubnets: nat)
    ensures var l := TakeLength(target, s, edk, averageSubnets);
            l < |s| ==> |Subnets(s[..l + 1])| >= averageSubnets
  {
    hide TopDistance, Subnet;
    var l, u := TakeLength(target, s, edk, averageSubnets), StopIndex(target, s, edk, averageSubnets, 0);
    if l < |s| {
      var small, large := s[..u + 1], s[..l + 1];
      assert small <= large;
      assert forall n :: n in small ==> n in large;
      SubsetSize(Subnets(small), Subnets(large));
    }
  }

  /** The address without its low 26 bits. */
  function TopSixBits(ip: bv32): nat {
    (ip >> 26) as nat
  }

  lemma SubnetIsTopBits(n: Node)
    ensures Subnet(n) == TopSixBits(n.address.ip)
  {
  }

  /** The distance is the 160-bit XOR without its low 32 bits. */
  lemma TopDistanceIsQuotient(target: Id, n: Node)
    ensures TopDistance(target, n) == Value(Xor(n.id, target)) / 0x1_0000_0000
  {
    hide Value, Xor;
    var x := Xor(n.id, target);
    ValueSplit(x, 16);
    ValueBound(x[16..]);
    Pow2Is32();
    Quotient(Value(x[..16]), Value(x[16..]), 0x1_0000_0000);
  }

  lemma Pow2Is32()
    ensures Pow2(32) == 0x1_0000_0000
  {
    Pow2Small();
    Pow2Add(8, 8);
    Pow2Add(16, 16);
  }

  lemma Quotient(q: nat, r: nat, d: nat)
    requires r < d
    ensures (q * d + r) / d == q
  {
    var x := (q * d + r) / d;
    assert x * d <= q * d + r < (x + 1) * d;
    if x < q {
      Scale(x + 1, q, d);
    } else if q < x {
      Scale(q + 1, x, d);
    }
  }

  /** The set may be cut after `l` nodes: it has at least twenty, and it has all nodes or the loop
      has met a node at the expected distance with enough subnets so far. */
  ghost predicate MayCut(target: Id, s: seq<Node>, edk: nat, averageSubnets: nat, l: nat) {
    && l <= |s| && (l >= 20 || l == |s|)
    && (l == |s| ||
        exists i :: 0 <= i <= l && i < |s| && MeetsBoth(target, s, edk, averageSubnets, i))
  }

  predicate MeetsBoth(target: Id, s: seq<Node>, edk: nat, averageSubnets: nat, i: nat)
    requires i < |s|
  {
    Value(Xor(s[i].id, target)) / 0x1_0000_0000 >= edk &&
    |set n | n in s[..i + 1] :: TopSixBits(n.address.ip)| >= averageSubnets
  }

  lemma MeetsBothIsStops(target: Id, s: seq<Node>, edk: nat, averageSubnets: nat, i: nat)
    requires i < |s|
    ensures MeetsBoth(target, s, edk, averageSubnets, i) <==> Stops(target, s, edk, averageSubnets, i)
  {
    hide TopDistance, Subnet, Value, Xor;
    TopDistanceIsQuotient(target, s[i]);
    forall n: Node ensures Subnet(n) == TopSixBits(n.address.ip) { SubnetIsTopBits(n); }
    assert (set n | n in s[..i + 1] :: TopSixBits(n.address.ip)) == Subnets(s[..i + 1]);
  }

  /** The cut is the shortest allowed one. */
  lemma TakeIsShortest(target: Id, s: seq<Node>, edk: nat, averageSubnets: nat)
    ensures var l := TakeLength(target, s, edk, averageSubnets);
            && MayCut(target, s, edk, averageSubnets, l)
            && forall m: nat :: MayCut(target, s, edk, averageSubnets, m) ==> l <= m
    ensures TakeUntilSecure(target, s, edk, averageSubnets) <= s
  {
    hide MeetsBoth, Stops;
    var l, u := TakeLength(target, s, edk, averageSubnets), StopIndex(target, s, edk, averageSubnets, 0);
    forall i | 0 <= i < |s| ensures MeetsBoth(target, s, edk, averageSubnets, i) <==> Stops(target, s, edk, averageSubnets, i) {
      MeetsBothIsStops(target, s, edk, averageSubnets, i);
    }
  }

  /** Asking for more subnets or a larger expected distance never shortens the cut. */
  lemma TakeMonotone(target: Id, s: seq<Node>, edk: nat, edk': nat, subnets: nat, subnets': nat)
    requires edk <= edk' && subnets <= subnets'
    ensures TakeLength(target, s, edk, subnets) <= TakeLength(target, s, edk', subnets')
  {
    hide TopDistance, Subnets;
    var u, u' := StopIndex(target, s, edk, subnets, 0), StopIndex(target, s, edk', subnets', 0);
    if u' < |s| {
      assert Stops(target, s, edk, subnets, u');
    }
  }

  /** `subnets_count`: distinct subnets among the first twenty, or 20 when there is no node. */
  function SubnetsCount(s: seq<Node>): nat {
    if s == [] then 20 else |Subnets(s[..Min(K, |s|)])|
  }

  /** Distinct subnets among the first twenty nodes, whatever follows them; and 20 without any. */
  lemma SubnetsCountIs(s: seq<Node>)
    ensures SubnetsCount(s) == if s == [] then 20 else |set i | 0 <= i < |s| && i < 20 :: TopSixBits(s[i].address.ip)|
  {
    if s != [] {
      var first, subnets := s[..Min(K, |s|)], set i | 0 <= i < |s| && i < 20 :: TopSixBits(s[i].address.ip);
      hide Subnet, TopSixBits;
      forall n: Node ensures Subnet(n) == TopSixBits(n.address.ip) { SubnetIsTopBits(n); }
      forall x ensures x in Subnets(first) <==> x in subnets {
        if x in subnets {
          var i :| 0 <= i < |s| && i < 20 && TopSixBits(s[i].address.ip) == x;
          assert first[i] == s[i] && first[i] in first;
        }
      }
      assert Subnets(first) == subnets;
    }
  }

  lemma {:induction false} SubnetsBound(s: seq<Node>)
    ensures |Subnets(s)| <= |s|
  {
    hide Subnet;
    if s != [] {
      var init, last := s[..|s| - 1], s[|s| - 1];
      SubnetsBound(init);
      assert s == init + [last];
      assert Subnets(s) == Subnets(init) + {Subnet(last)};
    }
  }

  /** The loop of `subnets_count`; the count always fits its `u8`. */
  method ComputeSubnetsCount(s: seq<Node>) returns (count: nat)
    ensures count == SubnetsCount(s)
    ensures 1 <= count <= 20
  {
    hide Subnet;
    if s == [] {
      return 20;
    }
    var subnets: set<nat> := {};
    for i := 0 to Min(K, |s|)
      invariant subnets == Subnets(s[..i])
    {
      assert s[..i + 1] == s[..i] + [s[i]];
      subnets := subnets + {Subnet(s[i])};
    }
    count := |subnets|;
    SubnetsBound(s[..Min(K, |s|)]);
    assert s[0] in s[..Min(K, |s|)];
    assert Subnet(s[0]) in subnets;
  }
}
