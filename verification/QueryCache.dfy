/** The `lru` crate's cache, as the repository uses it: least recently used entry first. */
module Lru {
  import opened Ids
  import opened Nodes

  type Entries<V> = seq<(Id, V)>

  predicate HasKey<V>(entries: Entries<V>, key: Id) {
    exists i :: 0 <= i < |entries| && entries[i].0 == key
  }

  function KeyIndex<V>(entries: Entries<V>, key: Id): (i: nat)
    requires HasKey(entries, key)
    ensures i < |entries| && entries[i].0 == key
  {
    if entries[0].0 == key then 0 else
      assert HasKey(entries[1..], key) by {
        var k :| 0 <= k < |entries| && entries[k].0 == key;
        assert entries[1..][k - 1].0 == key;
      }
      1 + KeyIndex(entries[1..], key)
  }

  /** The value stored under `key`. */
  function Peek<V>(entries: Entries<V>, key: Id): Option<V> {
    if HasKey(entries, key) then Some(entries[KeyIndex(entries, key)].1) else None
  }

  function Drop<V>(entries: Entries<V>, i: nat): Entries<V>
    requires i < |entries|
  {
    entries[..i] + entries[i + 1..]
  }

  /** `get` moves the entry it finds to the most recently used place. */
  function Promote<V>(entries: Entries<V>, key: Id): Entries<V> {
    if HasKey(entries, key) then
      var i := KeyIndex(entries, key);
      Drop(entries, i) + [entries[i]]
    else entries
  }

  /** `put`: replaces the value under the key, or evicts the oldest entry when full. */
  function Store<V>(entries: Entries<V>, capacity: nat, key: Id, value: V): Entries<V> {
    if HasKey(entries, key) then Drop(entries, KeyIndex(entries, key)) + [(key, value)]
    else if |entries| >= capacity && entries != [] then entries[1..] + [(key, value)]
    else entries + [(key, value)]
  }

  predicate DistinctKeys<V>(entries: Entries<V>) {
    forall i, j :: 0 <= i < j < |entries| ==> entries[i].0 != entries[j].0
  }

  lemma PeekByIndex<V>(entries: Entries<V>, i: nat)
    requires DistinctKeys(entries) && i < |entries|
    ensures Peek(entries, entries[i].0) == Some(entries[i].1)
  {
    assert HasKey(entries, entries[i].0);
  }

  lemma DropShifts<V>(entries: Entries<V>, i: nat, j: nat)
    requires i < |entries| && j < |entries| && j != i
    ensures HasKey(Drop(entries, i), entries[j].0)
  {
    assert Drop(entries, i)[if j < i then j else j - 1] == entries[j];
  }

  lemma DropPeek<V>(entries: Entries<V>, i: nat, key: Id)
    requires DistinctKeys(entries) && i < |entries|
    ensures DistinctKeys(Drop(entries, i))
    ensures Peek(Drop(entries, i), key) == if key == entries[i].0 then None else Peek(entries, key)
  {
    var d := Drop(entries, i);
    hide KeyIndex;
    if HasKey(d, key) {
      var j := KeyIndex(d, key);
      PeekByIndex(entries, if j < i then j else j + 1);
    } else if HasKey(entries, key) && key != entries[i].0 {
      DropShifts(entries, i, KeyIndex(entries, key));
    }
  }

  lemma AppendPeek<V>(entries: Entries<V>, e: (Id, V), key: Id)
    requires DistinctKeys(entries) && !HasKey(entries, e.0)
    ensures DistinctKeys(entries + [e])
    ensures Peek(entries + [e], key) == if key == e.0 then Some(e.1) else Peek(entries, key)
  {
    var a := entries + [e];
    assert DistinctKeys(a);
    if key == e.0 {
      PeekByIndex(a, |entries|);
    } else if HasKey(entries, key) {
      PeekByIndex(a, KeyIndex(entries, key));
    } else {
      assert !HasKey(a, key);
    }
  }

  /** Looking up moves an entry but changes no stored value. */
  lemma PromotePeek<V>(entries: Entries<V>, key: Id, k: Id)
    requires DistinctKeys(entries)
    ensures DistinctKeys(Promote(entries, key)) && |Promote(entries, key)| == |entries|
    ensures Peek(Promote(entries, key), k) == Peek(entries, k)
  {
    if HasKey(entries, key) {
      var i := KeyIndex(entries, key);
      DropPeek(entries, i, key);
      DropPeek(entries, i, k);
      AppendPeek(Drop(entries, i), entries[i], k);
      PeekByIndex(entries, i);
    }
  }

  /** Storing sets one key; any other key keeps its value or, only when the cache was
      full, may be the one evicted. */
  lemma StorePeek<V>(entries: Entries<V>, capacity: nat, key: Id, value: V, k: Id)
    requires DistinctKeys(entries) && |entries| <= capacity && capacity > 0
    ensures var r := Store(entries, capacity, key, value);
            && DistinctKeys(r) && |r| <= capacity
            && Peek(r, key) == Some(value)
            && (k != key ==> Peek(r, k) == Peek(entries, k) || (Peek(r, k) == None && |entries| == capacity))
  {
    if HasKey(entries, key) {
      var i := KeyIndex(entries, key);
      DropPeek(entries, i, key);
      DropPeek(entries, i, k);
      AppendPeek(Drop(entries, i), (key, value), key);
      AppendPeek(Drop(entries, i), (key, value), k);
    } else if |entries| >= capacity {
      assert Drop(entries, 0) == entries[1..];
      DropPeek(entries, 0, key);
      DropPeek(entries, 0, k);
      AppendPeek(entries[1..], (key, value), key);
      AppendPeek(entries[1..], (key, value), k);
    } else {
      AppendPeek(entries, (key, value), key);
      AppendPeek(entries, (key, value), k);
    }
  }
}

/**
  Finished lookups kept for later stores and size estimates, with the running sums
  over them (src/rpc.rs). Estimates are real numbers handed in by the caller.
 */
module QueryCache {
  import opened Ids
  import opened Nodes
  import opened Lru

  const MAX_CACHED: nat := 1000

  datatype Cached = Cached(nodes: seq<Node>, estimate: real, respondersEstimate: real, subnets: nat, isFindNode: bool)

  datatype Cache = Cache(entries: Entries<Cached>, estimatesSum: real, respondersSum: real,
                         respondersCount: int, subnetsSum: int)

  /** The sums of a new node: a cold start pretends a million nodes and twenty subnets. */
  const EMPTY_CACHE: Cache := Cache([], 0.0, 1000000.0, 0, 20)

  /** `decrement_cached_iterative_query_stats`. */
  function Decrement(c: Cache, q: Option<Cached>): Cache {
    match q
    case None => c
    case Some(e) =>
      c.(estimatesSum := c.estimatesSum - e.estimate,
         respondersSum := c.respondersSum - e.respondersEstimate,
         subnetsSum := c.subnetsSum - e.subnets,
         respondersCount := if e.isFindNode then c.respondersCount else c.respondersCount - 1)
  }

  /** The eviction at the head of `cache_iterative_query`. */
  function MakeRoom(c: Cache): Cache {
    if |c.entries| >= MAX_CACHED
    then Decrement(c.(entries := c.entries[1..]), Some(c.entries[0].1))
    else c
  }

  /** `cache_iterative_query` for a lookup whose candidates are `closest`. */
  function CacheQuery(c: Cache, target: Id, closest: seq<Node>, e: Cached): Cache {
    var c := MakeRoom(c);
    if closest == [] then c
    else
      var previous := Peek(c.entries, target);
      var c := Decrement(c.(entries := Store(c.entries, MAX_CACHED, target, e)), previous);
      c.(estimatesSum := c.estimatesSum + e.estimate,
         respondersSum := c.respondersSum + e.respondersEstimate,
         subnetsSum := c.subnetsSum + e.subnets,
         respondersCount := c.respondersCount + 1)
  }

  /** `average_subnets`; the sum is never negative in a balanced cache. */
  function AverageSubnets(c: Cache): nat {
    if c.subnetsSum < 0 then 0 else c.subnetsSum / (if |c.entries| == 0 then 1 else |c.entries|)
  }

  // --- the books ---

  datatype Totals = Totals(estimate: real, responders: real, subnets: int, lookups: int)

  function Plus(t: Totals, e: Cached): Totals {
    Totals(t.estimate + e.estimate, t.responders + e.respondersEstimate, t.subnets + e.subnets,
           t.lookups + if e.isFindNode then 0 else 1)
  }

  function Minus(t: Totals, e: Cached): Totals {
    Totals(t.estimate - e.estimate, t.responders - e.respondersEstimate, t.subnets - e.subnets,
           t.lookups - if e.isFindNode then 0 else 1)
  }

  /** The sums recomputed from the cached entries; `lookups` counts those that are not find_node. */
  function Sum(entries: Entries<Cached>): (t: Totals)
    ensures t.lookups >= 0 && t.subnets >= 0
  {
    if entries == [] then Totals(0.0, 0.0, 0, 0)
    else Plus(Sum(entries[..|entries| - 1]), entries[|entries| - 1].1)
  }

  lemma {:induction false} SumDrop(entries: Entries<Cached>, i: nat)
    requires i < |entries|
    ensures Sum(Drop(entries, i)) == Minus(Sum(entries), entries[i].1)
  {
    var init, last := entries[..|entries| - 1], entries[|entries| - 1];
    if i == |entries| - 1 {
      assert Drop(entries, i) == init;
    } else {
      SumDrop(init, i);
      var d := Drop(entries, i);
      assert d[..|d| - 1] == Drop(init, i) && d[|d| - 1] == last;
    }
  }

  lemma SumAppend(entries: Entries<Cached>, e: (Id, Cached))
    ensures Sum(entries + [e]) == Plus(Sum(entries), e.1)
  {
    assert (entries + [e])[..|entries|] == entries;
  }

  /** The running sums are the starting values plus the sums over the cached entries. The
      responder count also keeps one for every find_node lookup ever cached, `finds`. */
  predicate Balanced(c: Cache, finds: nat) {
    && DistinctKeys(c.entries) && |c.entries| <= MAX_CACHED
    && c.estimatesSum == Sum(c.entries).estimate
    && c.respondersSum == 1000000.0 + Sum(c.entries).responders
    && c.subnetsSum == 20 + Sum(c.entries).subnets
    && c.respondersCount == Sum(c.entries).lookups + finds
  }

  lemma MakeRoomBalanced(c: Cache, finds: nat)
    requires Balanced(c, finds)
    ensures Balanced(MakeRoom(c), finds) && |MakeRoom(c).entries| < MAX_CACHED
  {
    if |c.entries| >= MAX_CACHED {
      assert Drop(c.entries, 0) == c.entries[1..];
      SumDrop(c.entries, 0);
    }
  }

  /** The average is taken over the cached entries' subnets and the twenty of a cold start, divided
      by the number of entries, or by one without any. */
  lemma AverageIs(c: Cache, finds: nat)
    requires Balanced(c, finds)
    ensures AverageSubnets(c) == (20 + Sum(c.entries).subnets) / (if c.entries == [] then 1 else |c.entries|)
  {
    hide Sum;
  }

  /** An entry still counted in the sums can be taken out of them. */
  lemma EntryIsCounted(c: Cache, finds: nat, i: nat)
    requires Balanced(c, finds) && i < |c.entries|
    ensures c.subnetsSum >= 20 + c.entries[i].1.subnets
    ensures !c.entries[i].1.isFindNode ==> c.respondersCount >= 1
  {
    hide Sum;
    SumDrop(c.entries, i);
  }

  /** Caching keeps the books, stores the entry, never evicts silently (the room made first
      is enough) and never drives an unsigned sum below zero. */
  lemma CacheQueryBalanced(c: Cache, finds: nat, target: Id, closest: seq<Node>, e: Cached)
    requires Balanced(c, finds)
    ensures Balanced(CacheQuery(c, target, closest, e), finds + if closest != [] && e.isFindNode then 1 else 0)
    ensures closest != [] ==> Peek(CacheQuery(c, target, closest, e).entries, target) == Some(e)
  {
    hide Sum;
    var m := MakeRoom(c);
    MakeRoomBalanced(c, finds);
    if closest != [] {
      StorePeek(m.entries, MAX_CACHED, target, e, target);
      if HasKey(m.entries, target) {
        var i := KeyIndex(m.entries, target);
        SumDrop(m.entries, i);
        SumAppend(Drop(m.entries, i), (target, e));
      } else {
        SumAppend(m.entries, (target, e));
      }
    }
  }

  /** Caching keeps every other entry but, in a full cache, the one used longest ago; what is cached
      becomes the one used last, and a lookup that found nothing is not cached at all. */
  lemma OldestLeaves(c: Cache, finds: nat, target: Id, closest: seq<Node>, e: Cached, key: Id)
    requires Balanced(c, finds)
    ensures var c' := CacheQuery(c, target, closest, e);
            && (key != target || closest == [] ==>
                  Peek(c'.entries, key) == if |c.entries| == 1000 && c.entries[0].0 == key then None else Peek(c.entries, key))
            && (closest != [] ==> c'.entries != [] && c'.entries[|c'.entries| - 1] == (target, e))
  {
    hide Sum, Peek, Drop, DistinctKeys;
    var m := MakeRoom(c);
    MakeRoomBalanced(c, finds);
    if |c.entries| == 1000 {
      FirstDropped(c.entries);
      DropPeek(c.entries, 0, key);
    }
    if closest != [] && key != target {
      StorePeek(m.entries, MAX_CACHED, target, e, key);
    }
  }

  lemma FirstDropped(entries: Entries<Cached>)
    requires entries != []
    ensures Drop(entries, 0) == entries[1..]
  {
  }

  /** A lookup in the cache makes the entry it finds the one used last and keeps the order of the
      others. */
  lemma UsedIsNewest(entries: Entries<Cached>, key: Id)
    requires DistinctKeys(entries) && Peek(entries, key).Some?
    ensures exists i :: 0 <= i < |entries| && entries[i] == (key, Peek(entries, key).value) &&
                        Promote(entries, key) == entries[..i] + entries[i + 1..] + [entries[i]]
  {
    var i := KeyIndex(entries, key);
    assert entries[i] == (key, Peek(entries, key).value);
  }

  lemma PromoteBalanced(c: Cache, finds: nat, key: Id)
    requires Balanced(c, finds)
    ensures Balanced(c.(entries := Promote(c.entries, key)), finds)
  {
    hide Sum;
    PromotePeek(c.entries, key, key);
    if HasKey(c.entries, key) {
      var i := KeyIndex(c.entries, key);
      SumDrop(c.entries, i);
      SumAppend(Drop(c.entries, i), c.entries[i]);
    }
  }

  // --- any run ---

  datatype CacheOp = Finish(target: Id, closest: seq<Node>, e: Cached) | Lookup(key: Id)

  function RunCache(c: Cache, ops: seq<CacheOp>): Cache {
    if ops == [] then c
    else
      var c := RunCache(c, ops[..|ops| - 1]);
      match ops[|ops| - 1]
      case Finish(target, closest, e) => CacheQuery(c, target, closest, e)
      case Lookup(key) => c.(entries := Promote(c.entries, key))
  }

  /** find_node lookups that were ever cached. */
  function FindNodesCached(ops: seq<CacheOp>): nat {
    if ops == [] then 0
    else
      var last := ops[|ops| - 1];
      FindNodesCached(ops[..|ops| - 1]) +
      if last.Finish? && last.closest != [] && last.e.isFindNode then 1 else 0
  }

  lemma {:induction false} RunBalanced(ops: seq<CacheOp>)
    ensures Balanced(RunCache(EMPTY_CACHE, ops), FindNodesCached(ops))
  {
    hide Balanced, CacheQuery;
    if ops == [] {
      EmptyBalanced();
    } else {
      var init := ops[..|ops| - 1];
      RunBalanced(init);
      match ops[|ops| - 1]
      case Finish(target, closest, e) =>
        CacheQueryBalanced(RunCache(EMPTY_CACHE, init), FindNodesCached(init), target, closest, e);
      case Lookup(key) =>
        PromoteBalanced(RunCache(EMPTY_CACHE, init), FindNodesCached(init), key);
    }
  }

  lemma EmptyBalanced()
    ensures Balanced(EMPTY_CACHE, 0)
  {
    assert Sum([]) == Totals(0.0, 0.0, 0, 0);
  }

  /** The responder count is the number of cached lookups that are not find_node if and only
      if no find_node lookup was ever cached; it is never smaller. */
  lemma RespondersCountExact(ops: seq<CacheOp>)
    ensures var c := RunCache(EMPTY_CACHE, ops);
            && c.respondersCount >= Sum(c.entries).lookups >= 0
            && (c.respondersCount == Sum(c.entries).lookups <==> FindNodesCached(ops) == 0)
            && c.subnetsSum >= 20
  {
    hide Sum;
    RunBalanced(ops);
  }

  // --- the mutable object ---

  class LookupCache {
    var entries: Entries<Cached>
    var estimatesSum: real
    var respondersSum: real
    var respondersCount: nat
    var subnetsSum: nat

    ghost function State(): Cache
      reads this
    {
      Cache(entries, estimatesSum, respondersSum, respondersCount, subnetsSum)
    }

    ghost predicate Valid()
      reads this
    {
      exists finds: nat :: Balanced(State(), finds)
    }

    constructor ()
      ensures Valid() && State() == EMPTY_CACHE
    {
      entries, estimatesSum, respondersSum, respondersCount, subnetsSum := [], 0.0, 1000000.0, 0, 20;
      new;
      hide Balanced;
      assert State() == EMPTY_CACHE;
      EmptyBalanced();
    }

    /** The unsigned fields cannot underflow: the caller holds an entry still counted in them. */
    method DecrementStats(q: Option<Cached>)
      requires q.Some? ==> subnetsSum >= q.value.subnets && (!q.value.isFindNode ==> respondersCount >= 1)
      modifies this`estimatesSum, this`respondersSum, this`respondersCount, this`subnetsSum
      ensures State() == Decrement(old(State()), q)
    {
      if q.Some? {
        estimatesSum := estimatesSum - q.value.estimate;
        respondersSum := respondersSum - q.value.respondersEstimate;
        subnetsSum := subnetsSum - q.value.subnets;
        if !q.value.isFindNode {
          respondersCount := respondersCount - 1;
        }
      }
    }

    /** `get` of the LRU: what is cached for the key, now the most recently used entry. */
    method Lookup(key: Id) returns (found: Option<Cached>)
      requires Valid()
      modifies this`entries
      ensures Valid()
      ensures found == Peek(old(entries), key)
      ensures State() == old(State()).(entries := Promote(old(entries), key))
    {
      hide Balanced, Promote, Peek;
      ghost var finds: nat :| Balanced(State(), finds);
      PromoteBalanced(State(), finds, key);
      found := Peek(entries, key);
      entries := Promote(entries, key);
      assert State() == old(State()).(entries := Promote(old(entries), key));
      assert Balanced(State(), finds);
    }

    /** `average_subnets`. */
    method Subnets() returns (n: nat)
      ensures n == AverageSubnets(State())
    {
      n := subnetsSum / (if |entries| == 0 then 1 else |entries|);
    }

    method CacheFinished(target: Id, closest: seq<Node>, e: Cached)
      requires Valid()
      modifies this
      ensures Valid()
      ensures State() == CacheQuery(old(State()), target, closest, e)
    {
      hide Balanced, Store, KeyIndex, Sum, HasKey;
      ghost var c := State();
      ghost var finds: nat :| Balanced(c, finds);
      CacheQueryBalanced(c, finds, target, closest, e);
      MakeRoomBalanced(c, finds);
      if |entries| >= MAX_CACHED {
        EntryIsCounted(c, finds, 0);
        var q := entries[0].1;
        entries := entries[1..];
        DecrementStats(Some(q));
      }
      assert State() == MakeRoom(c);
      if closest == [] {
        return;
      }
      var previous := Peek(entries, target);
      if HasKey(entries, target) { EntryIsCounted(State(), finds, KeyIndex(entries, target)); }
      entries := Store(entries, MAX_CACHED, target, e);
      DecrementStats(previous);
      estimatesSum := estimatesSum + e.estimate;
      respondersSum := respondersSum + e.respondersEstimate;
      subnetsSum := subnetsSum + e.subnets;
      respondersCount := respondersCount + 1;
      assert State() == CacheQuery(c, target, closest, e);
    }
  }
}
