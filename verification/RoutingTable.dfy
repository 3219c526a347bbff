/**
  The Kademlia routing table (src/common/routing_table.rs): buckets by distance,
  insertion with eviction, the hand-written iterator and the closest-nodes query.
 */
module RoutingTable {
  import opened Ids
  import opened Bep42
  import opened Nodes
  import opened ClosestNodes

  type Buckets = map<nat, seq<Node>>

  datatype Table = Table(id: Id, buckets: Buckets)

  // --- one bucket ---

  predicate HasId(bucket: seq<Node>, id: Id) {
    exists i :: 0 <= i < |bucket| && bucket[i].id == id
  }

  function IndexOf(bucket: seq<Node>, id: Id): (i: nat)
    requires HasId(bucket, id)
    ensures i < |bucket| && bucket[i].id == id
    ensures forall j :: 0 <= j < i ==> bucket[j].id != id
  {
    if bucket[0].id == id then 0 else
      assert HasId(bucket[1..], id) by {
        var k :| 0 <= k < |bucket| && bucket[k].id == id;
        assert bucket[1..][k - 1].id == id;
      }
      1 + IndexOf(bucket[1..], id)
  }

  /** `KBucket::add`: the new bucket and whether the node was taken. */
  function BucketAdd(bucket: seq<Node>, incoming: Node, now: int): (r: (seq<Node>, bool)) {
    if HasId(bucket, incoming.id) then
      var i := IndexOf(bucket, incoming.id);
      if IsSecure(incoming) || (!IsSecure(bucket[i]) && SameIp(bucket[i], incoming)) then
        (bucket[..i] + bucket[i + 1..] + [incoming], true)
      else (bucket, false)
    else if |bucket| < K then (bucket + [incoming], true)
    else if IsStale(bucket[0], now) then (bucket[1..] + [incoming], true)
    else (bucket, false)
  }

  function Without(bucket: seq<Node>, id: Id): (r: seq<Node>)
    ensures forall n :: n in r <==> n in bucket && n.id != id
    ensures |r| <= |bucket|
  {
    if bucket == [] then []
    else
      var rest := Without(bucket[1..], id);
      assert bucket == [bucket[0]] + bucket[1..];
      if bucket[0].id != id then [bucket[0]] + rest else rest
  }

  predicate DistinctIds(s: seq<Node>) {
    forall i, j :: 0 <= i < j < |s| ==> s[i].id != s[j].id
  }

  // --- the table ---

  predicate Taken(buckets: Buckets, node: Node) {
    exists d :: d in buckets && AlreadyExists(node, buckets[d])
  }

  function BucketAt(buckets: Buckets, d: nat): seq<Node> {
    if d in buckets then buckets[d] else []
  }

  /** `RoutingTable::add`. */
  function TableAdd(t: Table, node: Node, now: int): (r: (Table, bool)) {
    var d := Distance(t.id, node.id);
    if d == 0 || Taken(t.buckets, node) then (t, false)
    else
      var (bucket, added) := BucketAdd(BucketAt(t.buckets, d), node, now);
      (t.(buckets := t.buckets[d := bucket]), added)
  }

  /** `RoutingTable::remove`. */
  function TableRemove(t: Table, id: Id): Table {
    var d := Distance(t.id, id);
    if d in t.buckets then t.(buckets := t.buckets[d := Without(t.buckets[d], id)]) else t
  }

  predicate BucketInv(id: Id, d: nat, bucket: seq<Node>) {
    && 1 <= d <= MAX_DISTANCE
    && |bucket| <= K
    && DistinctIds(bucket)
    && forall n :: n in bucket ==> Distance(id, n.id) == d
  }

  predicate CrossCompatible(buckets: Buckets) {
    forall d, e, a, b :: d in buckets && e in buckets && a in buckets[d] && b in buckets[e] && a.id != b.id ==>
      Compatible(a, b)
  }

  /** Every node sits in the bucket of its distance, ids are distinct, self is absent,
      buckets hold at most twenty, and any two nodes obey the duplicate rule. */
  predicate TableInv(t: Table) {
    && (forall d :: d in t.buckets ==> BucketInv(t.id, d, t.buckets[d]))
    && CrossCompatible(t.buckets)
  }

  predicate Holds(t: Table, n: Node) {
    exists d :: d in t.buckets && n in t.buckets[d]
  }

  lemma BucketAddContents(bucket: seq<Node>, incoming: Node, now: int)
    requires DistinctIds(bucket) && |bucket| <= K
    ensures var (b, added) := BucketAdd(bucket, incoming, now);
            && DistinctIds(b) && |b| <= K
            && (!added ==> b == bucket)
            && (added ==> incoming in b)
            && (forall n :: n in b ==> n == incoming || n in bucket)
            && (forall n :: n in bucket && n !in b ==>
                  added && (IsStale(n, now) ||
                            (n.id == incoming.id && (IsSecure(incoming) || SameIp(n, incoming)))))
  {
    hide IsSecure, IndexOf;
    var (b, added) := BucketAdd(bucket, incoming, now);
    if HasId(bucket, incoming.id) {
      SpliceContents(bucket, IndexOf(bucket, incoming.id), incoming);
    } else if |bucket| == K {
      assert bucket[..0] + bucket[0 + 1..] + [incoming] == bucket[1..] + [incoming];
      SpliceContents(bucket, 0, incoming);
    }
  }

  /** Taking out one node and appending another. */
  lemma SpliceContents(bucket: seq<Node>, i: nat, incoming: Node)
    requires DistinctIds(bucket) && i < |bucket|
    requires forall j :: 0 <= j < |bucket| && j != i ==> bucket[j].id != incoming.id
    ensures var b := bucket[..i] + bucket[i + 1..] + [incoming];
            && DistinctIds(b) && |b| == |bucket| && incoming in b
            && (forall n :: n in b ==> n == incoming || n in bucket)
            && (forall n :: n in bucket && n !in b ==> n == bucket[i])
  {
    var b := bucket[..i] + bucket[i + 1..] + [incoming];
    assert b[|bucket| - 1] == incoming;
    forall j | 0 <= j < |bucket| - 1 ensures b[j] == bucket[if j < i then j else j + 1] {
    }
    forall j | 0 <= j < |bucket| && j != i ensures bucket[j] in b {
      assert b[if j < i then j else j - 1] == bucket[j];
    }
  }

  lemma TakenBlocks(t: Table, node: Node, e: Node)
    requires Holds(t, e) && !Taken(t.buckets, node)
    ensures !Blocks(e, node)
  {
    hide Blocks;
  }

  lemma AddKeepsInv(t: Table, node: Node, now: int)
    requires TableInv(t)
    ensures TableInv(TableAdd(t, node, now).0)
  {
    hide Distance, Compatible, BucketAdd, Taken, IsStale, SameIp, IsSecure;
    var d := Distance(t.id, node.id);
    if d != 0 && !Taken(t.buckets, node) {
      var bucket := BucketAt(t.buckets, d);
      var b := BucketAdd(bucket, node, now).0;
      BucketAddContents(bucket, node, now);
      var t' := TableAdd(t, node, now).0;
      assert t'.buckets == t.buckets[d := b];
      assert BucketInv(t.id, d, b);
      forall x | Holds(t, x) ensures Compatible(x, node) && Compatible(node, x) {
        TakenBlocks(t, node, x);
        UnblockedIsCompatible(x, node);
      }
      forall e, x | e in t'.buckets && x in t'.buckets[e] ensures x == node || Holds(t, x) {
        if e == d { assert x == node || x in bucket; }
      }
      forall e, f, x, y | e in t'.buckets && f in t'.buckets && x in t'.buckets[e] && y in t'.buckets[f] && x.id != y.id
        ensures Compatible(x, y)
      {
        assert x == node || Holds(t, x);
        assert y == node || Holds(t, y);
      }
    }
  }

  lemma WithoutDistinct(bucket: seq<Node>, id: Id)
    requires DistinctIds(bucket)
    ensures DistinctIds(Without(bucket, id))
  {
    if bucket != [] {
      WithoutDistinct(bucket[1..], id);
      forall n | n in Without(bucket[1..], id) ensures n.id != bucket[0].id {
        assert n in bucket[1..];
      }
    }
  }

  lemma RemoveKeepsInv(t: Table, id: Id)
    requires TableInv(t)
    ensures TableInv(TableRemove(t, id))
  {
    hide Distance, Compatible;
    var d := Distance(t.id, id);
    if d in t.buckets {
      WithoutDistinct(t.buckets[d], id);
      var t' := TableRemove(t, id);
      assert BucketInv(t.id, d, t'.buckets[d]);
    }
  }

  // --- any run of additions and removals ---

  datatype TableOp = AddNode(node: Node, now: int) | RemoveNode(id: Id)

  function RunTable(t: Table, ops: seq<TableOp>): Table
    decreases |ops|
  {
    if ops == [] then t
    else match ops[0] {
      case AddNode(node, now) => RunTable(TableAdd(t, node, now).0, ops[1..])
      case RemoveNode(id) => RunTable(TableRemove(t, id), ops[1..])
    }
  }

  lemma {:induction false} RunKeepsInv(t: Table, ops: seq<TableOp>)
    requires TableInv(t)
    ensures TableInv(RunTable(t, ops))
    decreases |ops|
  {
    hide TableInv, TableAdd, TableRemove;
    if ops != [] {
      match ops[0] {
        case AddNode(node, now) =>
          AddKeepsInv(t, node, now);
          RunKeepsInv(TableAdd(t, node, now).0, ops[1..]);
        case RemoveNode(id) =>
          RemoveKeepsInv(t, id);
          RunKeepsInv(TableRemove(t, id), ops[1..]);
      }
    }
  }

  /** When `add` takes a node. It is not the node itself, no stored node of its address is insecure
      or has its 21-bit prefix, and in its bucket: if its identifier is stored there, it is secure
      or neither is and the IP is the same; else there is room, or the first node has not been seen
      for fifteen minutes. It then goes to the end of the bucket, and what leaves the bucket is
      the node of its identifier, or, when the bucket is full, the first. */
  lemma AddTakes(t: Table, node: Node, now: int)
    requires TableInv(t)
    ensures var (t', added) := TableAdd(t, node, now);
            var d := Distance(t.id, node.id);
            var bucket := BucketAt(t.buckets, d);
            && (added <==>
                  && node.id != t.id
                  && (forall e :: Holds(t, e) ==>
                        !(e.address.ip == node.address.ip && (!IsSecure(e) || First21Bits(e.id) == First21Bits(node.id))))
                  && (if exists e :: e in bucket && e.id == node.id
                      then IsSecure(node) ||
                           exists e :: e in bucket && e.id == node.id && !IsSecure(e) && e.address.ip == node.address.ip
                      else |bucket| < 20 || now - bucket[0].lastSeen > 900_000))
            && (added ==> t' == t.(buckets := t'.buckets) && t'.buckets == t.buckets[d := t'.buckets[d]] && d in t'.buckets)
            && (added && (forall e :: e in bucket ==> e.id != node.id) ==>
                  t'.buckets[d] == (if |bucket| < 20 then bucket else bucket[1..]) + [node])
            && (added && (exists e :: e in bucket && e.id == node.id) ==>
                  exists i :: 0 <= i < |bucket| && bucket[i].id == node.id && t'.buckets[d] == bucket[..i] + bucket[i + 1..] + [node])
            && (!added ==> forall e :: Holds(t', e) <==> Holds(t, e))
  {
    hide IsSecure, First21Bits, Distance, IndexOf, CrossCompatible;
    var d := Distance(t.id, node.id);
    var bucket := BucketAt(t.buckets, d);
    SelfDistance(t.id, node.id);
    TakenMeans(t, node);
    IdInBucket(bucket, node.id);
    if d in t.buckets { assert BucketInv(t.id, d, bucket); }
    if HasId(bucket, node.id) {
      var i := IndexOf(bucket, node.id);
      assert bucket[i] in bucket;
      forall e | e in bucket && e.id == node.id ensures e == bucket[i] {
        var j :| 0 <= j < |bucket| && bucket[j] == e;
        OneIndex(bucket, i, j);
      }
    }
    if !TableAdd(t, node, now).1 { SameHeld(t, node, now); }
  }

  lemma SelfDistance(a: Id, b: Id)
    ensures Distance(a, b) == 0 <==> a == b
  {
    DistanceIsUltrametric(a, b, b);
  }

  lemma TakenMeans(t: Table, node: Node)
    ensures Taken(t.buckets, node) <==>
            exists e :: Holds(t, e) && e.address.ip == node.address.ip && (!IsSecure(e) || First21Bits(e.id) == First21Bits(node.id))
  {
    hide IsSecure, First21Bits;
    if Taken(t.buckets, node) {
      var d :| d in t.buckets && AlreadyExists(node, t.buckets[d]);
      var e :| e in t.buckets[d] && Blocks(e, node);
      assert Holds(t, e);
    }
    if e :| Holds(t, e) && e.address.ip == node.address.ip && (!IsSecure(e) || First21Bits(e.id) == First21Bits(node.id)) {
      var d :| d in t.buckets && e in t.buckets[d];
      assert Blocks(e, node) && AlreadyExists(node, t.buckets[d]);
    }
  }

  lemma IdInBucket(bucket: seq<Node>, id: Id)
    ensures HasId(bucket, id) <==> exists e :: e in bucket && e.id == id
  {
    if HasId(bucket, id) {
      var i :| 0 <= i < |bucket| && bucket[i].id == id;
      assert bucket[i] in bucket;
    }
  }

  lemma OneIndex(bucket: seq<Node>, i: nat, j: nat)
    requires DistinctIds(bucket) && i < |bucket| && j < |bucket| && bucket[i].id == bucket[j].id
    ensures i == j
  {
  }

  lemma SameHeld(t: Table, node: Node, now: int)
    requires !TableAdd(t, node, now).1
    ensures forall e :: Holds(TableAdd(t, node, now).0, e) <==> Holds(t, e)
  {
    hide IsSecure, First21Bits, Distance, Taken;
    var d := Distance(t.id, node.id);
    var t' := TableAdd(t, node, now).0;
    assert t' == t || t' == t.(buckets := t.buckets[d := BucketAt(t.buckets, d)]);
    forall e ensures Holds(t', e) <==> Holds(t, e) {
      if Holds(t, e) {
        var x :| x in t.buckets && e in t.buckets[x];
        assert x in t'.buckets && e in t'.buckets[x];
      }
      if Holds(t', e) {
        var x :| x in t'.buckets && e in t'.buckets[x];
        assert x in t.buckets && e in t.buckets[x];
      }
    }
  }

  /** `remove` takes out exactly the nodes of that identifier. */
  lemma RemoveTakesOut(t: Table, id: Id, n: Node)
    requires TableInv(t)
    ensures Holds(TableRemove(t, id), n) <==> Holds(t, n) && n.id != id
    ensures TableRemove(t, id).id == t.id
  {
    hide Distance, CrossCompatible;
    var d, t' := Distance(t.id, id), TableRemove(t, id);
    if Holds(t, n) {
      var x :| x in t.buckets && n in t.buckets[x];
      assert BucketInv(t.id, x, t.buckets[x]);
      if n.id != id { assert x in t'.buckets && n in t'.buckets[x]; }
    }
    if Holds(t', n) {
      var x :| x in t'.buckets && n in t'.buckets[x];
      assert x in t.buckets && n in t.buckets[x];
      assert BucketInv(t.id, x, t.buckets[x]);
    }
  }

  /** `add` loses only a stale node or one whose identifier a secure node took over. */
  lemma AddDropsOnly(t: Table, node: Node, now: int, lost: Node)
    requires TableInv(t) && Holds(t, lost) && !Holds(TableAdd(t, node, now).0, lost)
    ensures TableAdd(t, node, now).1 && Holds(TableAdd(t, node, now).0, node)
    ensures IsStale(lost, now) || (lost.id == node.id && IsSecure(node))
  {
    hide Distance, BucketAdd, Taken, IsStale, IsSecure, Blocks, CrossCompatible;
    var d := Distance(t.id, node.id);
    var e :| e in t.buckets && lost in t.buckets[e];
    assert BucketInv(t.id, e, t.buckets[e]);
    var (b, added) := BucketAdd(t.buckets[e], node, now);
    var t' := TableAdd(t, node, now).0;
    assert e in t'.buckets && lost !in t'.buckets[e];
    BucketAddContents(t.buckets[e], node, now);
    TakenBlocks(t, node, lost);
    SameIdSameIpBlocks(lost, node);
  }

  lemma SameIdSameIpBlocks(e: Node, n: Node)
    ensures e.id == n.id && SameIp(e, n) ==> Blocks(e, n)
  {
  }

  /** A node that answers again is never refreshed: its own entry blocks the update,
      so `last_seen` keeps the time of the first insertion. */
  lemma AddNeverRefreshes(t: Table, node: Node, now: int, existing: Node)
    requires Holds(t, existing) && existing.id == node.id && SameIp(existing, node)
    ensures TableAdd(t, node, now) == (t, false)
  {
    hide Distance, Blocks, BucketAdd;
    SameIdSameIpBlocks(existing, node);
    var d :| d in t.buckets && existing in t.buckets[d];
    assert AlreadyExists(node, t.buckets[d]);
  }

  // --- all nodes, in bucket order ---

  function Flatten(buckets: Buckets, from: nat): seq<Node>
    decreases 161 - from
  {
    if from > 160 then [] else BucketAt(buckets, from) + Flatten(buckets, from + 1)
  }

  function AllNodes(t: Table): seq<Node> {
    Flatten(t.buckets, 1)
  }

  lemma {:induction false} FlattenContents(t: Table, from: nat)
    requires TableInv(t)
    ensures forall n :: n in Flatten(t.buckets, from) <==> Holds(t, n) && Distance(t.id, n.id) >= from
    ensures DistinctIds(Flatten(t.buckets, from))
    ensures PairwiseCompatible(Flatten(t.buckets, from))
    decreases 161 - from
  {
    hide Distance, Compatible;
    if from <= 160 {
      FlattenContents(t, from + 1);
      var head, rest := BucketAt(t.buckets, from), Flatten(t.buckets, from + 1);
      assert from in t.buckets ==> BucketInv(t.id, from, head);
      assert forall n :: n in head ==> Holds(t, n) && Distance(t.id, n.id) == from;
      forall n | Holds(t, n) && Distance(t.id, n.id) == from ensures n in head {
        var d :| d in t.buckets && n in t.buckets[d];
        assert BucketInv(t.id, d, t.buckets[d]);
      }
      forall i, j | 0 <= i < |head| && 0 <= j < |rest| ensures head[i].id != rest[j].id {
        assert head[i] in head && rest[j] in rest;
      }
      var all := head + rest;
      assert DistinctIds(all);
      forall i, j | 0 <= i < j < |all| ensures Compatible(all[i], all[j]) {
        assert all[i] in all && all[j] in all;
        assert Holds(t, all[i]) && Holds(t, all[j]) && all[i].id != all[j].id;
      }
    } else {
      forall n | Holds(t, n) ensures Distance(t.id, n.id) < from {
        var d :| d in t.buckets && n in t.buckets[d];
        assert BucketInv(t.id, d, t.buckets[d]);
      }
    }
  }

  /** The enumeration holds every stored node exactly once, and self never. */
  lemma AllNodesExact(t: Table)
    requires TableInv(t)
    ensures forall n :: n in AllNodes(t) <==> Holds(t, n)
    ensures DistinctIds(AllNodes(t)) && PairwiseCompatible(AllNodes(t))
    ensures forall n :: n in AllNodes(t) ==> n.id != t.id
  {
    hide Distance, Compatible;
    FlattenContents(t, 1);
    forall n | Holds(t, n) ensures Distance(t.id, n.id) >= 1 && n.id != t.id {
      var d :| d in t.buckets && n in t.buckets[d];
      assert BucketInv(t.id, d, t.buckets[d]);
      DistanceIsUltrametric(t.id, n.id, t.id);
    }
  }

  /** The enumeration goes through the buckets in the order of distance. */
  lemma {:induction false} FlattenInOrder(t: Table, from: nat)
    requires TableInv(t)
    ensures forall i, j :: 0 <= i < j < |Flatten(t.buckets, from)| ==>
              Distance(t.id, Flatten(t.buckets, from)[i].id) <= Distance(t.id, Flatten(t.buckets, from)[j].id)
    decreases 161 - from
  {
    hide Distance, CrossCompatible;
    if from <= 160 {
      FlattenInOrder(t, from + 1);
      FlattenContents(t, from + 1);
      var head, rest := BucketAt(t.buckets, from), Flatten(t.buckets, from + 1);
      assert from in t.buckets ==> BucketInv(t.id, from, head);
      forall n | n in head ensures Distance(t.id, n.id) == from {
      }
      forall n | n in rest ensures Distance(t.id, n.id) > from {
      }
      var all := head + rest;
      forall i, j | 0 <= i < j < |all| ensures Distance(t.id, all[i].id) <= Distance(t.id, all[j].id) {
        assert all[i] in all && all[j] in all;
      }
    }
  }

  lemma AllNodesInOrder(t: Table)
    requires TableInv(t)
    ensures forall i, j :: 0 <= i < j < |AllNodes(t)| ==>
              Distance(t.id, AllNodes(t)[i].id) <= Distance(t.id, AllNodes(t)[j].id)
  {
    hide Distance, TableInv, Flatten;
    FlattenInOrder(t, 1);
  }

  /** Across all buckets and any run, a constrained address holds at most eight secure
      nodes and one insecure node. */
  lemma TablePerAddress(id: Id, ops: seq<TableOp>, ip: bv32)
    requires !IsExempt(ip)
    ensures CountAt(AllNodes(RunTable(Table(id, map[]), ops)), ip, true) <= 8
    ensures CountAt(AllNodes(RunTable(Table(id, map[]), ops)), ip, false) <= 1
  {
    hide RunTable, IsExempt;
    var t := RunTable(Table(id, map[]), ops);
    RunKeepsInv(Table(id, map[]), ops);
    AllNodesExact(t);
    CapacityPerAddress(AllNodes(t), ip);
  }

  // --- the iterator ---

  /** What the iterator still has to yield when it stands at bucket `b`, node `i`. */
  function Remaining(buckets: Buckets, b: nat, i: nat): seq<Node>
    requires i <= |BucketAt(buckets, b)|
  {
    if b > 160 then [] else BucketAt(buckets, b)[i..] + Flatten(buckets, b + 1)
  }

  class NodesIterator {
    const buckets: Buckets
    var bucketIndex: nat
    var nodeIndex: nat

    ghost predicate Valid()
      reads this
    {
      1 <= bucketIndex <= 161 && (nodeIndex == 0 || nodeIndex < |BucketAt(buckets, bucketIndex)|)
    }

    ghost function Rest(): seq<Node>
      requires Valid()
      reads this
    {
      Remaining(buckets, bucketIndex, nodeIndex)
    }

    constructor (table: Table)
      ensures Valid() && Rest() == AllNodes(table)
    {
      buckets := table.buckets;
      bucketIndex, nodeIndex := 1, 0;
    }

    /** `next`: yields the enumeration one node at a time, skipping missing and empty buckets. */
    method Next() returns (r: Option<Node>)
      requires Valid()
      modifies this
      ensures Valid()
      ensures r.None? <==> old(Rest()) == []
      ensures r.Some? ==> old(Rest()) == [r.value] + Rest()
    {
      while bucketIndex <= 160
        invariant Valid()
        invariant Rest() == old(Rest())
        decreases 161 - bucketIndex
      {
        if bucketIndex in buckets {
          var bucket := buckets[bucketIndex];
          if nodeIndex < |bucket| {
            var node := bucket[nodeIndex];
            assert bucket[nodeIndex..] == [node] + bucket[nodeIndex + 1..];
            nodeIndex := nodeIndex + 1;
            if nodeIndex == |bucket| {
              nodeIndex := 0;
              bucketIndex := bucketIndex + 1;
            }
            return Some(node);
          }
        }
        assert BucketAt(buckets, bucketIndex)[nodeIndex..] == [];
        bucketIndex := bucketIndex + 1;
      }
      return None;
    }
  }

  // --- the closest nodes ---

  /** `RoutingTable::closest`. */
  function Closest(t: Table, target: Id): seq<Node> {
    var all := AddAll(target, [], AllNodes(t));
    all[..Min(K, |all|)]
  }

  /** `RoutingTable::closest_secure`. */
  function ClosestSecure(t: Table, target: Id, edk: nat, subnets: nat): seq<Node> {
    TakeUntilSecure(target, AddAll(target, [], AllNodes(t)), edk, subnets)
  }

  /** Reference: insert every node, refusing none. */
  function InsertAny(target: Id, s: seq<Node>, n: Node): seq<Node> {
    var p := Position(target, s, n);
    s[..p] + [n] + s[p..]
  }

  function SortAll(target: Id, xs: seq<Node>): seq<Node> {
    if xs == [] then [] else InsertAny(target, SortAll(target, xs[..|xs| - 1]), xs[|xs| - 1])
  }

  /** The twenty least nodes of the whole table. */
  function Least(t: Table, target: Id): seq<Node> {
    var all := SortAll(target, AllNodes(t));
    all[..Min(K, |all|)]
  }

  /** An insecure node of the same address comes earlier in the enumeration. */
  predicate ShadowedBy(before: seq<Node>, n: Node) {
    exists e :: e in before && SameIp(e, n) && !IsSecure(e)
  }

  predicate Shadowed(xs: seq<Node>, n: Node) {
    exists i :: 0 <= i < |xs| && xs[i] == n && ShadowedBy(xs[..i], n)
  }

  function Unshadowed(xs: seq<Node>): seq<Node> {
    if xs == [] then []
    else
      var init, last := xs[..|xs| - 1], xs[|xs| - 1];
      Unshadowed(init) + (if ShadowedBy(init, last) then [] else [last])
  }

  lemma {:induction false} UnshadowedKeepsInsecure(xs: seq<Node>, n: Node)
    requires PairwiseCompatible(xs) && n in xs && !IsSecure(n)
    ensures n in Unshadowed(xs)
  {
    hide First21Bits, IsSecure;
    var init, last := xs[..|xs| - 1], xs[|xs| - 1];
    if n in init {
      UnshadowedKeepsInsecure(init, n);
    } else {
      assert n == last;
      forall e | e in init ensures SameIp(e, n) ==> IsSecure(e) {
        var i :| 0 <= i < |init| && init[i] == e;
        assert Compatible(xs[i], xs[|xs| - 1]);
      }
    }
  }

  lemma {:induction false} UnshadowedSubset(xs: seq<Node>, n: Node)
    requires n in Unshadowed(xs)
    ensures n in xs
  {
    if n in Unshadowed(xs[..|xs| - 1]) {
      UnshadowedSubset(xs[..|xs| - 1], n);
    }
  }

  /** Within a table the greedy rule refuses exactly the shadowed nodes. */
  lemma {:induction false} GreedyIsUnshadowed(xs: seq<Node>)
    requires PairwiseCompatible(xs) && DistinctIds(xs)
    ensures Greedy(xs) == Unshadowed(xs)
  {
    hide IsSecure, First21Bits;
    if xs != [] {
      var init, last := xs[..|xs| - 1], xs[|xs| - 1];
      GreedyIsUnshadowed(init);
      if ShadowedBy(init, last) {
        var e :| e in init && SameIp(e, last) && !IsSecure(e);
        UnshadowedKeepsInsecure(init, e);
        assert Blocks(e, last);
      } else {
        forall e | e in Unshadowed(init) ensures !Blocks(e, last) && !SameEntry(e, last) {
          UnshadowedSubset(init, e);
          var i :| 0 <= i < |init| && init[i] == e;
          assert xs[i] == e;
          assert Compatible(xs[i], xs[|xs| - 1]);
        }
      }
    }
  }

  lemma InsertAnySorts(target: Id, s: seq<Node>, n: Node)
    requires StrictlySorted(target, s) && forall e :: e in s ==> e.id != n.id
    ensures StrictlySorted(target, InsertAny(target, s, n))
    ensures multiset(InsertAny(target, s, n)) == multiset(s) + multiset{n}
  {
    hide StrictlySorted, IsSecure, Position;
    SpliceSorted(target, s, n);
    var p := Position(target, s, n);
    assert s == s[..p] + s[p..];
  }

  lemma {:induction false} SortAllSorts(target: Id, xs: seq<Node>)
    requires DistinctIds(xs)
    ensures StrictlySorted(target, SortAll(target, xs))
    ensures multiset(SortAll(target, xs)) == multiset(xs)
  {
    hide Key, InsertAny;
    if xs != [] {
      var init, last := xs[..|xs| - 1], xs[|xs| - 1];
      SortAllSorts(target, init);
      assert xs == init + [last];
      forall e | e in SortAll(target, init) ensures e.id != last.id {
        assert e in multiset(init);
      }
      InsertAnySorts(target, SortAll(target, init), last);
    }
  }

  /** The members of `s` that `xs` does not shadow, in the order of `s`. */
  function Keep(xs: seq<Node>, s: seq<Node>): seq<Node> {
    if s == [] then []
    else Keep(xs, s[..|s| - 1]) + (if Shadowed(xs, s[|s| - 1]) then [] else [s[|s| - 1]])
  }

  lemma {:induction false} KeepMembers(xs: seq<Node>, s: seq<Node>)
    ensures forall n :: n in Keep(xs, s) <==> n in s && !Shadowed(xs, n)
  {
    hide Shadowed;
    if s != [] {
      KeepMembers(xs, s[..|s| - 1]);
      assert s == s[..|s| - 1] + [s[|s| - 1]];
    }
  }

  lemma {:induction false} KeepSorted(target: Id, xs: seq<Node>, s: seq<Node>)
    requires StrictlySorted(target, s)
    ensures StrictlySorted(target, Keep(xs, s))
  {
    hide Key, Shadowed;
    if s != [] {
      var init, last := s[..|s| - 1], s[|s| - 1];
      KeepSorted(target, xs, init);
      KeepMembers(xs, init);
      forall n | n in Keep(xs, init) ensures Key(target, n) < Key(target, last) {
        assert n in init;
      }
    }
  }

  lemma {:induction false} KeepAll(xs: seq<Node>, s: seq<Node>)
    requires forall i :: 0 <= i < |s| ==> !Shadowed(xs, s[i])
    ensures Keep(xs, s) == s
  {
    hide Shadowed;
    if s != [] {
      KeepAll(xs, s[..|s| - 1]);
      assert s == s[..|s| - 1] + [s[|s| - 1]];
    }
  }

  lemma {:induction false} KeepPrefix(xs: seq<Node>, s: seq<Node>, k: nat)
    requires k <= |s|
    ensures Keep(xs, s[..k]) <= Keep(xs, s)
    decreases |s|
  {
    hide Shadowed;
    if k < |s| {
      KeepPrefix(xs, s[..|s| - 1], k);
      assert s[..|s| - 1][..k] == s[..k];
    } else {
      assert s[..k] == s;
    }
  }

  lemma {:induction false} KeepLength(xs: seq<Node>, s: seq<Node>)
    ensures |Keep(xs, s)| <= |s|
  {
    if s != [] { KeepLength(xs, s[..|s| - 1]); }
  }

  lemma {:induction false} DistinctCounts(s: seq<Node>)
    requires forall i, j :: 0 <= i < j < |s| ==> s[i] != s[j]
    ensures forall n :: multiset(s)[n] == if n in s then 1 else 0
  {
    if s != [] {
      DistinctCounts(s[..|s| - 1]);
      assert s == s[..|s| - 1] + [s[|s| - 1]];
    }
  }

  lemma ShadowedAt(xs: seq<Node>, i: nat)
    requires DistinctIds(xs) && i < |xs|
    ensures Shadowed(xs, xs[i]) <==> ShadowedBy(xs[..i], xs[i])
  {
    hide ShadowedBy;
    forall j | 0 <= j < |xs| && xs[j] == xs[i] ensures j == i {
    }
  }

  lemma {:induction false} UnshadowedMembers(xs: seq<Node>, n: Node)
    requires DistinctIds(xs)
    ensures n in Unshadowed(xs) <==> n in xs && !Shadowed(xs, n)
  {
    hide ShadowedBy, Shadowed;
    if xs != [] {
      var init, last := xs[..|xs| - 1], xs[|xs| - 1];
      UnshadowedMembers(init, n);
      assert xs == init + [last];
      if n in init {
        var i :| 0 <= i < |init| && init[i] == n;
        assert xs[i] == n && init[..i] == xs[..i];
        assert xs[i].id != last.id;
        ShadowedAt(xs, i);
        ShadowedAt(init, i);
      } else if n == last {
        ShadowedAt(xs, |xs| - 1);
      }
    }
  }

  lemma {:induction false} UnshadowedDistinct(xs: seq<Node>)
    requires DistinctIds(xs)
    ensures DistinctIds(Unshadowed(xs))
  {
    hide ShadowedBy;
    if xs != [] {
      var init, last := xs[..|xs| - 1], xs[|xs| - 1];
      UnshadowedDistinct(init);
      forall n | n in Unshadowed(init) ensures n.id != last.id {
        UnshadowedSubset(init, n);
        var i :| 0 <= i < |init| && init[i] == n;
        assert xs[i].id != xs[|xs| - 1].id;
      }
    }
  }

  /** The candidate set built from a table is the sorted table without its shadowed nodes. */
  lemma AddAllIsKeep(target: Id, xs: seq<Node>)
    requires PairwiseCompatible(xs) && DistinctIds(xs)
    ensures AddAll(target, [], xs) == Keep(xs, SortAll(target, xs))
  {
    hide Key, Compatible, Shadowed, Greedy, Unshadowed, SortAll, AddAll, Keep;
    var sorted := SortAll(target, xs);
    var kept := Keep(xs, sorted);
    KeepMembers(xs, sorted);
    SortAllSorts(target, xs);
    KeepSorted(target, xs, sorted);
    GreedyIsUnshadowed(xs);
    UnshadowedDistinct(xs);
    DistinctCounts(Unshadowed(xs));
    DistinctCounts(kept);
    forall n ensures multiset(kept)[n] == multiset(Unshadowed(xs))[n] {
      UnshadowedMembers(xs, n);
      assert n in sorted <==> n in multiset(xs);
    }
    assert multiset(kept) == multiset(Unshadowed(xs));
    AddAllIsSortedGreedy(target, xs, kept);
  }

  /** `closest` returns the twenty least nodes of the table if and only if none of those
      twenty is shadowed by an insecure node of its own address. */
  lemma ClosestIsLeast(t: Table, target: Id)
    requires TableInv(t)
    ensures Closest(t, target) == Least(t, target) <==>
            forall n :: n in Least(t, target) ==> !Shadowed(AllNodes(t), n)
  {
    hide TableInv, AllNodes, Shadowed, Keep, SortAll, AddAll;
    var xs := AllNodes(t);
    AllNodesExact(t);
    AddAllIsKeep(target, xs);
    var sorted := SortAll(target, xs);
    var kept := Keep(xs, sorted);
    KeepMembers(xs, sorted);
    var m := Min(K, |sorted|);
    KeepLength(xs, sorted);
    if forall n :: n in sorted[..m] ==> !Shadowed(xs, n) {
      forall i | 0 <= i < m ensures !Shadowed(xs, sorted[i]) {
        assert sorted[i] == sorted[..m][i];
        assert sorted[i] in sorted[..m];
      }
      KeepPrefix(xs, sorted, m);
      KeepAll(xs, sorted[..m]);
    }
    if Closest(t, target) == sorted[..m] {
      forall n | n in sorted[..m] ensures !Shadowed(xs, n) {
        assert n in kept[..Min(K, |kept|)];
        assert n in kept;
      }
    }
  }

  // A table in which `closest` is not the twenty least: 124.31.75.21, the address of the first
  // vector of BEP 42, brings the secure identifier of that vector, and then an insecure one that
  // is nearer to the node itself.

  const OWN_ID: Id := [0, 0, 0, 0, 0, 0, 0, 0, 0, 0, 0, 0, 0, 0, 0, 0, 0, 0, 0, 0]
  const SECURE_ID: Id := [0x5f, 0xbf, 0xbf, 0, 0, 0, 0, 0, 0, 0, 0, 0, 0, 0, 0, 0, 0, 0, 0, 1]
  const NEAR_ID: Id := [0, 0, 0, 0, 0, 0, 0, 0, 0, 0, 0, 0, 0, 0, 0, 0, 0, 0, 0, 1]

  function VectorNode(id: Id, now: int): Node {
    Node(id, Address(0x7c1f4b15, 6881), None, now)
  }

  function MixedTable(now: int): Table {
    RunTable(Table(OWN_ID, map[]), [AddNode(VectorNode(SECURE_ID, now), now), AddNode(VectorNode(NEAR_ID, now), now)])
  }

  lemma VectorSecurity(now: int)
    ensures IsSecure(VectorNode(SECURE_ID, now)) && !IsSecure(VectorNode(NEAR_ID, now))
    ensures First21Bits(SECURE_ID) != First21Bits(NEAR_ID)
  {
    hide IdPrefix;
    PublishedVector(SECURE_ID);
    assert First21Bits(SECURE_ID)[0] == 0x5f && First21Bits(NEAR_ID)[0] == 0;
  }

  lemma {:induction false} EqualBytesAreSkipped(a: Id, b: Id, i: nat)
    requires i <= 20 && forall j :: 0 <= j < i ==> a[j] == b[j]
    ensures Distance(a, b) == DistanceFrom(a, b, i)
  {
    if i > 0 {
      EqualBytesAreSkipped(a, b, i - 1);
      XorZero(a[i - 1], b[i - 1]);
    }
  }

  lemma VectorDistances()
    ensures Distance(OWN_ID, SECURE_ID) == 159 && Distance(OWN_ID, NEAR_ID) == 1
  {
    EqualBytesAreSkipped(OWN_ID, NEAR_ID, 19);
  }

  lemma {:induction false} EmptyBucketsAreSkipped(buckets: Buckets, from: nat, to: nat)
    requires from <= to <= 161 && forall d :: from <= d < to ==> d !in buckets
    ensures Flatten(buckets, from) == Flatten(buckets, to)
    decreases 161 - from
  {
    if from < to { EmptyBucketsAreSkipped(buckets, from + 1, to); }
  }

  /** The insecure node comes first in the enumeration, although it was added last. */
  lemma MixedTableNodes(now: int)
    ensures TableInv(MixedTable(now)) && AllNodes(MixedTable(now)) == [VectorNode(NEAR_ID, now), VectorNode(SECURE_ID, now)]
  {
    hide Distance, First21Bits, IsSecure, TableInv, Flatten;
    var secure, near := VectorNode(SECURE_ID, now), VectorNode(NEAR_ID, now);
    var t0 := Table(OWN_ID, map[]);
    VectorDistances();
    VectorSecurity(now);
    EmptyIsValid(OWN_ID);
    RunKeepsInv(t0, [AddNode(secure, now), AddNode(near, now)]);
    var t1 := TableAdd(t0, secure, now).0;
    assert [] + [secure] == [secure] && [] + [near] == [near];
    assert t1 == Table(OWN_ID, map[159 := [secure]]);
    assert !Taken(t1.buckets, near);
    var t2 := TableAdd(t1, near, now).0;
    assert t2 == Table(OWN_ID, map[159 := [secure], 1 := [near]]);
    TwoAdditions(t0, secure, near, now);
    FlattenTwo(t2.buckets, near, secure);
  }

  lemma EmptyIsValid(id: Id)
    ensures TableInv(Table(id, map[]))
  {
  }

  lemma TwoAdditions(t: Table, a: Node, b: Node, now: int)
    ensures RunTable(t, [AddNode(a, now), AddNode(b, now)]) == TableAdd(TableAdd(t, a, now).0, b, now).0
  {
    hide TableAdd;
    var ops := [AddNode(a, now), AddNode(b, now)];
    assert ops[1..] == [AddNode(b, now)] && ops[1..][1..] == [];
    var t1 := TableAdd(t, a, now).0;
    var t2 := TableAdd(t1, b, now).0;
    assert RunTable(t2, ops[1..][1..]) == t2;
    assert RunTable(t1, ops[1..]) == RunTable(t2, ops[1..][1..]);
    assert RunTable(t, ops) == RunTable(t1, ops[1..]);
  }

  lemma FlattenTwo(buckets: Buckets, near: Node, far: Node)
    requires buckets == map[159 := [far], 1 := [near]]
    ensures Flatten(buckets, 1) == [near, far]
  {
    EmptyBucketsAreSkipped(buckets, 2, 159);
    EmptyBucketsAreSkipped(buckets, 160, 161);
    assert Flatten(buckets, 161) == [];
    assert Flatten(buckets, 159) == [far] + Flatten(buckets, 160);
    assert Flatten(buckets, 1) == [near] + Flatten(buckets, 2);
  }

  /** `closest` misses a secure node of a table with two nodes. */
  lemma ClosestMissesSecureNode(now: int)
    ensures Closest(MixedTable(now), OWN_ID) != Least(MixedTable(now), OWN_ID)
    ensures VectorNode(SECURE_ID, now) in Least(MixedTable(now), OWN_ID)
  {
    hide Closest, AllNodes, SortAll, TableInv, IsSecure, MixedTable, Shadowed;
    var t, secure, near := MixedTable(now), VectorNode(SECURE_ID, now), VectorNode(NEAR_ID, now);
    MixedTableNodes(now);
    var xs := AllNodes(t);
    AllNodesExact(t);
    VectorSecurity(now);
    SortAllSorts(OWN_ID, xs);
    var sorted := SortAll(OWN_ID, xs);
    assert |sorted| == |multiset(sorted)| == 2;
    assert xs[1] == secure && secure in multiset(sorted);
    assert sorted[..2] == sorted;
    ShadowedAt(xs, 1);
    assert near in xs[..1] && ShadowedBy(xs[..1], secure);
    ClosestIsLeast(t, OWN_ID);
  }

  /** When no address mixes secure and insecure nodes, `closest` is always the twenty least. */
  lemma ClosestOfUnmixedTable(t: Table, target: Id)
    requires TableInv(t)
    requires forall a, b :: Holds(t, a) && Holds(t, b) && SameIp(a, b) ==> IsSecure(a) == IsSecure(b)
    ensures Closest(t, target) == Least(t, target)
  {
    hide TableInv, AllNodes, IsSecure, First21Bits, SortAll, AddAll, Holds;
    var xs := AllNodes(t);
    AllNodesExact(t);
    ClosestIsLeast(t, target);
    forall n | n in Least(t, target) ensures !Shadowed(xs, n) {
      forall i, e | 0 <= i < |xs| && xs[i] == n && e in xs[..i] ensures SameIp(e, n) ==> IsSecure(e) {
        var j :| 0 <= j < i && xs[j] == e;
        assert Compatible(xs[j], xs[i]);
        assert Holds(t, e) && Holds(t, n);
      }
    }
  }

  // --- the mutable object ---

  class RoutingTable {
    const id: Id
    var buckets: Buckets

    ghost function State(): Table
      reads this
    {
      Table(id, buckets)
    }

    ghost predicate Valid()
      reads this
    {
      TableInv(State())
    }

    constructor (id: Id)
      ensures Valid() && State() == Table(id, map[])
    {
      this.id := id;
      buckets := map[];
    }

    method Add(node: Node, now: int) returns (added: bool)
      requires Valid()
      modifies this
      ensures Valid()
      ensures (State(), added) == TableAdd(old(State()), node, now)
    {
      hide TableInv, Distance, BucketAdd, Taken;
      AddKeepsInv(State(), node, now);
      var distance := ComputeDistance(id, node.id);
      if distance == 0 {
        return false;
      }
      if exists d :: d in buckets && AlreadyExists(node, buckets[d]) {
        assert Taken(buckets, node) by { TakenIntro(buckets, node); }
        return false;
      }
      assert !Taken(buckets, node) by { TakenIntro(buckets, node); }
      var bucket := if distance in buckets then buckets[distance] else [];
      var (bucket', ok) := BucketAdd(bucket, node, now);
      buckets := buckets[distance := bucket'];
      return ok;
    }

    method Remove(nodeId: Id)
      requires Valid()
      modifies this
      ensures Valid()
      ensures State() == TableRemove(old(State()), nodeId)
    {
      hide TableInv, Distance, Without;
      RemoveKeepsInv(State(), nodeId);
      var distance := ComputeDistance(id, nodeId);
      if distance in buckets {
        buckets := buckets[distance := Without(buckets[distance], nodeId)];
      }
    }

    /** `closest`: feed every bucket, in order, to a fresh candidate set. */
    method ClosestTo(target: Id) returns (r: seq<Node>)
      requires Valid()
      ensures r == Closest(State(), target)
    {
      hide TableInv, Insert, StrictlySorted;
      var closest := new CandidateSet(target);
      for d := 1 to 161
        invariant closest.Valid() && closest.target == target
        invariant AddAll(target, [], AllNodes(State())) == AddAll(target, closest.nodes, Flatten(buckets, d))
      {
        if d in buckets {
          var bucket := buckets[d];
          assert bucket[0..] == bucket;
          for i := 0 to |bucket|
            invariant closest.Valid() && closest.target == target
            invariant AddAll(target, [], AllNodes(State())) ==
                      AddAll(target, closest.nodes, bucket[i..] + Flatten(buckets, d + 1))
          {
            assert (bucket[i..] + Flatten(buckets, d + 1))[1..] == bucket[i + 1..] + Flatten(buckets, d + 1);
            closest.Add(bucket[i]);
          }
          assert bucket[|bucket|..] + Flatten(buckets, d + 1) == Flatten(buckets, d + 1);
        } else {
          assert Flatten(buckets, d) == Flatten(buckets, d + 1);
        }
      }
      r := closest.nodes[..Min(K, |closest.nodes|)];
    }

    /** `to_owned_nodes`: everything the iterator yields. */
    method Nodes() returns (nodes: seq<Node>)
      ensures nodes == AllNodes(State())
    {
      hide AllNodes, Remaining;
      var it := new NodesIterator(Table(id, buckets));
      nodes := [];
      var next := it.Next();
      while next.Some?
        invariant it.Valid() && fresh(it)
        invariant AllNodes(State()) == nodes + (if next.Some? then [next.value] + it.Rest() else [])
        decreases if next.Some? then 1 + |it.Rest()| else 0
      {
        nodes := nodes + [next.value];
        next := it.Next();
      }
    }

    /** `is_empty`. */
    method IsEmpty() returns (empty: bool)
      ensures empty <==> AllNodes(State()) == []
    {
      empty := true;
      for d := 1 to 161
        invariant empty ==> AllNodes(State()) == Flatten(buckets, d)
        invariant !empty ==> AllNodes(State()) != []
      {
        if BucketAt(buckets, d) != [] && empty {
          empty := false;
        }
      }
    }

    /** `closest_secure`: feed every node the iterator yields to a fresh candidate set. */
    method ClosestSecureTo(target: Id, edk: nat, subnets: nat) returns (r: seq<Node>)
      ensures r == ClosestSecure(State(), target, edk, subnets)
    {
      hide Insert, StrictlySorted, AllNodes, TakeUntilSecure;
      var closest := new CandidateSet(target);
      var nodes := Nodes();
      assert nodes[0..] == nodes;
      for i := 0 to |nodes|
        invariant closest.Valid() && closest.target == target
        invariant AddAll(target, [], nodes) == AddAll(target, closest.nodes, nodes[i..])
      {
        assert nodes[i..][1..] == nodes[i + 1..];
        closest.Add(nodes[i]);
      }
      r := ComputeTakeUntilSecure(target, closest.nodes, edk, subnets);
    }

    /** `size`: the bucket lengths add up to the number of enumerated nodes. */
    method Size() returns (n: nat)
      requires Valid()
      ensures n == |AllNodes(State())|
    {
      n := 0;
      for d := 1 to 161
        invariant n + |Flatten(buckets, d)| == |AllNodes(State())|
      {
        n := n + |BucketAt(buckets, d)|;
      }
    }
  }

  lemma TakenIntro(buckets: Buckets, node: Node)
    ensures Taken(buckets, node) <==> exists d :: d in buckets && AlreadyExists(node, buckets[d])
  {
  }
}
