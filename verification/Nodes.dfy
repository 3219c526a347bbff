/**
  Node records, the duplicate rule of `Node::already_exists`, and the number of
  nodes per address that this rule leaves room for (src/common/node.rs).
  Times are milliseconds; the clock is an argument.
 */
module Nodes {
  import opened Ids
  import opened Bep42

  datatype Option<+T> = None | Some(value: T)

  const STALE_TIME: int := 15 * 60 * 1000
  const MIN_PING_BACKOFF_INTERVAL: int := 10 * 1000
  const TOKEN_ROTATE_INTERVAL: int := 5 * 60 * 1000

  datatype Node = Node(id: Id, address: Address, token: Option<Bytes>, lastSeen: int)

  predicate IsStale(n: Node, now: int) {
    now - n.lastSeen > STALE_TIME
  }

  predicate ShouldPing(n: Node, now: int) {
    now - n.lastSeen > MIN_PING_BACKOFF_INTERVAL
  }

  predicate ValidToken(n: Node, now: int) {
    now - n.lastSeen <= TOKEN_ROTATE_INTERVAL
  }

  predicate SameIp(a: Node, b: Node) {
    a.address.ip == b.address.ip
  }

  predicate IsSecure(n: Node) {
    IsValidForIp(n.id, n.address.ip)
  }

  /** `existing` keeps `node` out. Not symmetric: only the security of `existing` is asked. */
  predicate Blocks(existing: Node, node: Node) {
    SameIp(node, existing) && (!IsSecure(existing) || First21Bits(node.id) == First21Bits(existing.id))
  }

  predicate AlreadyExists(node: Node, nodes: seq<Node>) {
    exists e :: e in nodes && Blocks(e, node)
  }

  /** What the duplicate rule leaves between any two accepted nodes, in either order. */
  predicate Compatible(a: Node, b: Node) {
    SameIp(a, b) ==> First21Bits(a.id) != First21Bits(b.id) && (IsSecure(a) || IsSecure(b))
  }

  predicate PairwiseCompatible(s: seq<Node>) {
    forall i, j :: 0 <= i < j < |s| ==> Compatible(s[i], s[j])
  }

  lemma UnblockedIsCompatible(existing: Node, node: Node)
    requires !Blocks(existing, node)
    ensures Compatible(existing, node) && Compatible(node, existing)
  {
    hide First21Bits, IsValidForIp;
  }

  // --- capacity per address ---

  /** Number of nodes at `ip` whose security is `secure`. */
  function CountAt(s: seq<Node>, ip: bv32, secure: bool): nat {
    if s == [] then 0
    else CountAt(s[..|s| - 1], ip, secure) +
         (if s[|s| - 1].address.ip == ip && IsSecure(s[|s| - 1]) == secure then 1 else 0)
  }

  /** The three random bits used by the secure nodes at `ip`. */
  ghost function BitsAt(s: seq<Node>, ip: bv32): (bits: set<nat>)
    ensures forall b :: b in bits ==> b < 8
  {
    if s == [] then {}
    else BitsAt(s[..|s| - 1], ip) +
         (if s[|s| - 1].address.ip == ip && IsSecure(s[|s| - 1]) then {RandomBits(s[|s| - 1].id)} else {})
  }

  /** A compatible newcomer brings three random bits no earlier node uses. */
  lemma {:induction false} NewcomerBringsNewBits(s: seq<Node>, n: Node, ip: bv32)
    requires !IsExempt(ip) && n.address.ip == ip && IsSecure(n)
    requires forall i :: 0 <= i < |s| ==> Compatible(s[i], n)
    ensures RandomBits(n.id) !in BitsAt(s, ip)
  {
    hide First21Bits, IsValidForIp, RandomBits, IsExempt;
    if s != [] {
      var last := s[|s| - 1];
      NewcomerBringsNewBits(s[..|s| - 1], n, ip);
      assert Compatible(last, n);
      if last.address.ip == ip && IsSecure(last) && RandomBits(last.id) == RandomBits(n.id) {
        RandomBitsFixPrefix(last.id, n.id, ip);
      }
    }
  }

  lemma {:induction false} SecureNodesUseDistinctBits(s: seq<Node>, ip: bv32)
    requires PairwiseCompatible(s) && !IsExempt(ip)
    ensures |BitsAt(s, ip)| == CountAt(s, ip, true)
  {
    hide Compatible, IsSecure, RandomBits, IsExempt;
    if s != [] {
      var init, last := s[..|s| - 1], s[|s| - 1];
      SecureNodesUseDistinctBits(init, ip);
      if last.address.ip == ip && IsSecure(last) {
        NewcomerBringsNewBits(init, last, ip);
      }
    }
  }

  lemma SubsetSize<T>(a: set<T>, b: set<T>)
    requires a <= b
    ensures |a| <= |b|
  {
    assert b == a + (b - a);
  }

  lemma {:induction false} OneInsecureNode(s: seq<Node>, ip: bv32)
    requires PairwiseCompatible(s)
    ensures CountAt(s, ip, false) <= 1
    ensures CountAt(s, ip, false) == 1 ==> exists i :: 0 <= i < |s| && s[i].address.ip == ip && !IsSecure(s[i])
  {
    hide First21Bits, IsValidForIp;
    if s != [] {
      var init := s[..|s| - 1];
      OneInsecureNode(init, ip);
      if CountAt(init, ip, false) == 1 {
        var i :| 0 <= i < |init| && init[i].address.ip == ip && !IsSecure(init[i]);
        assert s[i] == init[i];
        assert Compatible(s[i], s[|s| - 1]);
      }
    }
  }

  /** A set of pairwise compatible nodes holds at most eight secure nodes and at
      most one insecure node of any address BEP 42 constrains. */
  lemma CapacityPerAddress(s: seq<Node>, ip: bv32)
    requires PairwiseCompatible(s) && !IsExempt(ip)
    ensures CountAt(s, ip, true) <= 8
    ensures CountAt(s, ip, false) <= 1
  {
    hide PairwiseCompatible, CountAt, BitsAt, IsExempt;
    SecureNodesUseDistinctBits(s, ip);
    SubsetSize(BitsAt(s, ip), {0, 1, 2, 3, 4, 5, 6, 7});
    OneInsecureNode(s, ip);
  }
}
