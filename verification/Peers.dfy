/**
  Announced peers by info hash (src/rpc/server/peers.rs). The chances of the random sample are
  `f32` arithmetic; which draws succeed is an input.
 */
module Peers {
  import opened Ids
  import opened Bep42
  import opened Nodes
  import opened Lru

  /** The peers of one info hash, by the identifier that announced them. */
  type Swarm = Entries<Address>

  const SAMPLE: nat := 10

  function SwarmOf(hashes: Entries<Swarm>, infoHash: Id): Swarm {
    var found := Peek(hashes, infoHash);
    if found.Some? then found.value else []
  }

  /** `add_peer`. */
  function AddPeer(hashes: Entries<Swarm>, maxHashes: nat, maxPeers: nat, infoHash: Id, peer: Id, address: Address): Entries<Swarm> {
    Store(hashes, maxHashes, infoHash, Store(SwarmOf(hashes, infoHash), maxPeers, peer, address))
  }

  /** The addresses in the order of iteration, most recently used first. */
  function Addresses(swarm: Swarm): (r: seq<Address>)
    ensures |r| == |swarm|
  {
    if swarm == [] then [] else [swarm[|swarm| - 1].1] + Addresses(swarm[..|swarm| - 1])
  }

  /** The sampling loop: a lucky draw takes the address, until there are ten. */
  function Draw(addresses: seq<Address>, lucky: seq<bool>, taken: seq<Address>): seq<Address>
    decreases |addresses|
  {
    if addresses == [] || |taken| >= SAMPLE then taken
    else
      Draw(addresses[1..], if lucky == [] then [] else lucky[1..],
           if lucky != [] && lucky[0] then taken + [addresses[0]] else taken)
  }

  /** `get_random_peers`. */
  function RandomPeers(hashes: Entries<Swarm>, infoHash: Id, lucky: seq<bool>): (r: (Entries<Swarm>, Option<seq<Address>>)) {
    var swarm, hashes' := SwarmOf(hashes, infoHash), Promote(hashes, infoHash);
    (hashes',
     if swarm == [] then None
     else if |swarm| < SAMPLE then Some(Addresses(swarm))
     else Some(Draw(Addresses(swarm), lucky, [])))
  }

  // --- what is kept ---

  ghost predicate PeersInv(hashes: Entries<Swarm>, maxHashes: nat, maxPeers: nat) {
    && maxHashes > 0 && maxPeers > 0
    && DistinctKeys(hashes) && |hashes| <= maxHashes
    && forall infoHash: Id :: DistinctKeys(SwarmOf(hashes, infoHash)) && |SwarmOf(hashes, infoHash)| <= maxPeers
  }

  lemma AddPeerKeeps(hashes: Entries<Swarm>, maxHashes: nat, maxPeers: nat, infoHash: Id, peer: Id, address: Address, other: Id)
    requires PeersInv(hashes, maxHashes, maxPeers)
    ensures var hashes' := AddPeer(hashes, maxHashes, maxPeers, infoHash, peer, address);
            && PeersInv(hashes', maxHashes, maxPeers)
            && Peek(SwarmOf(hashes', infoHash), peer) == Some(address)
            && (other != infoHash ==> SwarmOf(hashes', other) == SwarmOf(hashes, other) || SwarmOf(hashes', other) == [])
  {
    hide Store, Peek, DistinctKeys;
    EmptyKeys();
    var swarm := SwarmOf(hashes, infoHash);
    StorePeek(swarm, maxPeers, peer, address, peer);
    var swarm' := Store(swarm, maxPeers, peer, address);
    forall h: Id
      ensures var s := SwarmOf(Store(hashes, maxHashes, infoHash, swarm'), h);
              if h == infoHash then s == swarm' else s == SwarmOf(hashes, h) || s == []
    {
      StorePeek(hashes, maxHashes, infoHash, swarm', h);
    }
    StorePeek(hashes, maxHashes, infoHash, swarm', infoHash);
  }

  lemma EmptyKeys()
    ensures DistinctKeys<Address>([])
  {
  }

  lemma RandomPeersKeeps(hashes: Entries<Swarm>, maxHashes: nat, maxPeers: nat, infoHash: Id, lucky: seq<bool>, other: Id)
    requires PeersInv(hashes, maxHashes, maxPeers)
    ensures var hashes' := RandomPeers(hashes, infoHash, lucky).0;
            PeersInv(hashes', maxHashes, maxPeers) && SwarmOf(hashes', other) == SwarmOf(hashes, other)
  {
    hide Promote, Peek, DistinctKeys, Addresses, Draw;
    forall h: Id ensures SwarmOf(Promote(hashes, infoHash), h) == SwarmOf(hashes, h) {
      PromotePeek(hashes, infoHash, h);
    }
    PromotePeek(hashes, infoHash, infoHash);
  }

  // --- what is answered ---

  lemma {:induction false} AddressesAreStored(swarm: Swarm)
    ensures forall a :: a in Addresses(swarm) <==> exists i :: 0 <= i < |swarm| && swarm[i].1 == a
  {
    if swarm != [] {
      var init := swarm[..|swarm| - 1];
      AddressesAreStored(init);
      forall a ensures a in Addresses(swarm) <==> exists i :: 0 <= i < |swarm| && swarm[i].1 == a {
        if i :| 0 <= i < |swarm| && swarm[i].1 == a {
          assert i < |init| ==> init[i].1 == a;
        }
        if i :| 0 <= i < |init| && init[i].1 == a {
          assert swarm[i].1 == a;
        }
      }
    }
  }

  lemma {:induction false} DrawnAreGiven(addresses: seq<Address>, lucky: seq<bool>, taken: seq<Address>)
    requires |taken| <= SAMPLE
    ensures var drawn := Draw(addresses, lucky, taken);
            |drawn| <= SAMPLE && forall a :: a in drawn ==> a in taken || a in addresses
    decreases |addresses|
  {
    if addresses != [] && |taken| < SAMPLE {
      DrawnAreGiven(addresses[1..], if lucky == [] then [] else lucky[1..],
                    if lucky != [] && lucky[0] then taken + [addresses[0]] else taken);
    }
  }

  /** Whatever the draws, the answer lists only stored peers and at most ten; fewer than ten
      stored peers are all listed; and there is none exactly when nothing is stored. */
  lemma AnswerIsStored(hashes: Entries<Swarm>, infoHash: Id, lucky: seq<bool>)
    ensures var swarm, answer := SwarmOf(hashes, infoHash), RandomPeers(hashes, infoHash, lucky).1;
            && (answer.None? <==> swarm == [])
            && (answer.Some? ==> |answer.value| <= SAMPLE &&
                                 forall a :: a in answer.value ==> exists i :: 0 <= i < |swarm| && swarm[i].1 == a)
            && (0 < |swarm| < SAMPLE ==>
                  forall i :: 0 <= i < |swarm| ==> swarm[i].1 in answer.value)
  {
    hide SwarmOf, Draw, Addresses;
    var swarm := SwarmOf(hashes, infoHash);
    AddressesAreStored(swarm);
    DrawnAreGiven(Addresses(swarm), lucky, []);
  }

  /** The addresses whose draw is lucky, in order. */
  function LuckyOnes(addresses: seq<Address>, lucky: seq<bool>): seq<Address>
    decreases |addresses|
  {
    if addresses == [] || lucky == [] then []
    else (if lucky[0] then [addresses[0]] else []) + LuckyOnes(addresses[1..], lucky[1..])
  }

  function FirstOf(s: seq<Address>, n: nat): seq<Address> {
    if |s| <= n then s else s[..n]
  }

  lemma {:induction false} DrawTakesLucky(addresses: seq<Address>, lucky: seq<bool>, taken: seq<Address>)
    requires |taken| <= SAMPLE
    ensures Draw(addresses, lucky, taken) == FirstOf(taken + LuckyOnes(addresses, lucky), 10)
    decreases |addresses|
  {
    if addresses == [] || |taken| == SAMPLE {
      assert FirstOf(taken + LuckyOnes(addresses, lucky), 10) == taken;
    } else if lucky == [] {
      DrawTakesLucky(addresses[1..], [], taken);
    } else {
      var more := if lucky[0] then taken + [addresses[0]] else taken;
      DrawTakesLucky(addresses[1..], lucky[1..], more);
      assert taken + LuckyOnes(addresses, lucky) == more + LuckyOnes(addresses[1..], lucky[1..]);
    }
  }

  lemma {:induction false} AddressesBackwards(swarm: Swarm, i: nat)
    requires i < |swarm|
    ensures Addresses(swarm)[i] == swarm[|swarm| - 1 - i].1
  {
    if i > 0 { AddressesBackwards(swarm[..|swarm| - 1], i - 1); }
  }

  /** The sample in full: the peers from the one used last to the one used longest ago, all of them
      when fewer than ten are stored, and otherwise the first ten whose draw is lucky. */
  lemma SampleIs(hashes: Entries<Swarm>, infoHash: Id, lucky: seq<bool>)
    ensures var swarm, answer := SwarmOf(hashes, infoHash), RandomPeers(hashes, infoHash, lucky).1;
            var backwards := seq(|swarm|, i requires 0 <= i < |swarm| => swarm[|swarm| - 1 - i].1);
            && (0 < |swarm| < 10 ==> answer == Some(backwards))
            && (|swarm| >= 10 ==> answer == Some(FirstOf(LuckyOnes(backwards, lucky), 10)))
  {
    hide SwarmOf, Draw, Addresses, LuckyOnes;
    var swarm := SwarmOf(hashes, infoHash);
    var backwards := seq(|swarm|, i requires 0 <= i < |swarm| => swarm[|swarm| - 1 - i].1);
    forall i | 0 <= i < |swarm| ensures Addresses(swarm)[i] == backwards[i] {
      AddressesBackwards(swarm, i);
    }
    assert Addresses(swarm) == backwards;
    DrawTakesLucky(backwards, lucky, []);
    assert [] + LuckyOnes(backwards, lucky) == LuckyOnes(backwards, lucky);
  }

  // --- runs ---

  datatype PeerOp =
    | Announced(infoHash: Id, peer: Id, address: Address)
    | Asked(infoHash: Id, lucky: seq<bool>)

  function RunPeers(maxHashes: nat, maxPeers: nat, ops: seq<PeerOp>): Entries<Swarm> {
    if ops == [] then []
    else
      var hashes := RunPeers(maxHashes, maxPeers, ops[..|ops| - 1]);
      match ops[|ops| - 1]
      case Announced(infoHash, peer, address) => AddPeer(hashes, maxHashes, maxPeers, infoHash, peer, address)
      case Asked(infoHash, lucky) => RandomPeers(hashes, infoHash, lucky).0
  }

  /** Over every run the bounds hold, and everything stored under an info hash was announced for it. */
  lemma {:induction false} StoredWasAnnounced(maxHashes: nat, maxPeers: nat, ops: seq<PeerOp>, infoHash: Id, peer: Id)
    requires maxHashes > 0 && maxPeers > 0
    ensures var hashes := RunPeers(maxHashes, maxPeers, ops);
            && PeersInv(hashes, maxHashes, maxPeers)
            && (Peek(SwarmOf(hashes, infoHash), peer).Some? ==>
                  Announced(infoHash, peer, Peek(SwarmOf(hashes, infoHash), peer).value) in ops)
  {
    hide PeersInv, AddPeer, RandomPeers, SwarmOf, Peek;
    if ops == [] {
      NothingStored(maxHashes, maxPeers, infoHash, peer);
    } else {
      var init := ops[..|ops| - 1];
      var hashes := RunPeers(maxHashes, maxPeers, init);
      StoredWasAnnounced(maxHashes, maxPeers, init, infoHash, peer);
      match ops[|ops| - 1]
      case Announced(h, p, address) =>
        AddPeerKeeps(hashes, maxHashes, maxPeers, h, p, address, infoHash);
        AddedOrKept(hashes, maxHashes, maxPeers, h, p, address, infoHash, peer);
      case Asked(h, lucky) =>
        RandomPeersKeeps(hashes, maxHashes, maxPeers, h, lucky, infoHash);
    }
  }

  lemma NothingStored(maxHashes: nat, maxPeers: nat, infoHash: Id, peer: Id)
    requires maxHashes > 0 && maxPeers > 0
    ensures PeersInv([], maxHashes, maxPeers) && Peek(SwarmOf([], infoHash), peer).None?
  {
  }

  lemma AddedOrKept(hashes: Entries<Swarm>, maxHashes: nat, maxPeers: nat, h: Id, p: Id, address: Address, infoHash: Id, peer: Id)
    requires PeersInv(hashes, maxHashes, maxPeers)
    ensures var after := Peek(SwarmOf(AddPeer(hashes, maxHashes, maxPeers, h, p, address), infoHash), peer);
            && after.Some? ==>
              || after == Peek(SwarmOf(hashes, infoHash), peer)
              || (h == infoHash && p == peer && after.value == address)
  {
    hide Store, Peek, DistinctKeys;
    var swarm := SwarmOf(hashes, h);
    var swarm' := Store(swarm, maxPeers, p, address);
    StorePeek(swarm, maxPeers, p, address, peer);
    StorePeek(hashes, maxHashes, h, swarm', infoHash);
    EmptyPeek(peer);
  }

  lemma EmptyPeek(peer: Id)
    ensures Peek<Address>([], peer).None?
  {
  }

  // --- the mutable object ---

  class PeersStore {
    var infoHashes: Entries<Swarm>
    const maxHashes: nat
    const maxPeers: nat

    constructor (maxHashes: nat, maxPeers: nat)
      ensures infoHashes == [] && this.maxHashes == maxHashes && this.maxPeers == maxPeers
    {
      infoHashes, this.maxHashes, this.maxPeers := [], maxHashes, maxPeers;
    }

    method Announce(infoHash: Id, peer: Id, address: Address)
      modifies this
      ensures infoHashes == AddPeer(old(infoHashes), maxHashes, maxPeers, infoHash, peer, address)
    {
      hide Store;
      var found := Peek(infoHashes, infoHash);
      if found.Some? {
        infoHashes := Store(infoHashes, maxHashes, infoHash, Store(found.value, maxPeers, peer, address));
      } else {
        infoHashes := Store(infoHashes, maxHashes, infoHash, Store([], maxPeers, peer, address));
      }
    }

    /** The addresses of a swarm are walked from the most recently used one. */
    method Sample(infoHash: Id, lucky: seq<bool>) returns (peers: Option<seq<Address>>)
      modifies this
      ensures (infoHashes, peers) == RandomPeers(old(infoHashes), infoHash, lucky)
    {
      hide Promote, Peek;
      var found := Peek(infoHashes, infoHash);
      infoHashes := Promote(infoHashes, infoHash);
      if found.None? || found.value == [] {
        return None;
      }
      var addresses := Addresses(found.value);
      if |found.value| < SAMPLE {
        return Some(addresses);
      }
      var results := [];
      assert addresses[0..] == addresses;
      for index := 0 to |addresses|
        invariant Draw(addresses, lucky, []) ==
                  Draw(addresses[index..], if index <= |lucky| then lucky[index..] else [], results)
        invariant |results| < SAMPLE
      {
        assert addresses[index..][1..] == addresses[index + 1..];
        if index < |lucky| && lucky[index] {
          results := results + [addresses[index]];
          if |results| == SAMPLE {
            break;
          }
        }
      }
      return Some(results);
    }
  }
}
