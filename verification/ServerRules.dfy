/**
  The rules of the storage server (src/rpc/server.rs) as a client sees them: which writes are
  refused and with what code, what a read answers, and that nothing is stored without a token
  of its sender's IP.
 */
module ServerRules {
  import opened Ids
  import opened Bep42
  import opened Nodes
  import opened Lru
  import opened MutableItems
  import opened Tokens
  import opened TokenBinding
  import opened Peers
  import opened Server

  /** The secrets after the lazy rotation: five minutes after the last one, the current secret
      becomes the previous one and a fresh one takes its place. */
  function Rotated(t: Secrets, secret: Bytes, now: int): Secrets {
    if now - t.lastUpdated > 300_000 then Secrets(t.curr, secret, now) else t
  }

  /** `token` is what an IP is given under one of the two secrets. */
  predicate IsTokenOf(t: Secrets, ip: bv32, token: Bytes) {
    token in {TokenFor(ip, t.curr), TokenFor(ip, t.prev)}
  }

  // --- writes ---

  /** Without a token of the sender's IP under one of the two secrets, every write is answered
      203 and stores nothing, whichever of the three kinds it is. */
  lemma BadTokenIsRefused(c: Crypto, s: Storage, from: Address, token: Bytes, a: PutArguments, luck: Luck, now: int)
    requires !IsTokenOf(Rotated(s.tokens, luck.secret, now), from.ip, token)
    ensures var (s', reply) := Handle(c, s, from, Put(token, a), luck, now);
            && reply == Error(203)
            && s'.peers == s.peers && s'.immutables == s.immutables && s'.mutables == s.mutables
            && s' == s.(tokens := Rotated(s.tokens, luck.secret, now))
  {
    hide TokenFor, AddPeer, PutImmutable, PutMutable;
  }

  /** With a token, an announcement is accepted and stored for the sender's address, or its IP with
      the given port; an immutable value is refused exactly when it is too big or its target is
      not the hash of its bencoding, and stored otherwise. Other values stay or are evicted. */
  lemma PlainWrites(c: Crypto, s: Storage, from: Address, token: Bytes, a: PutArguments, luck: Luck, now: int, t: Id)
    requires StorageInv(c, s) && IsTokenOf(Rotated(s.tokens, luck.secret, now), from.ip, token)
    ensures var (s', reply) := Handle(c, s, from, Put(token, a), luck, now);
            && (a.Announce? ==>
                  && reply == Pong && s'.immutables == s.immutables && s'.mutables == s.mutables
                  && Peek(SwarmOf(s'.peers, a.infoHash), a.peer) == Some(if a.implied == Some(true) then from else Address(from.ip, a.port)))
            && (a.StoreImmutable? ==>
                  && (reply == Error(205) <==> |a.v| > 1000)
                  && (reply == Error(203) <==> |a.v| <= 1000 && c.sha1(Sized(a.v)) != a.target)
                  && (reply == Pong <==> |a.v| <= 1000 && c.sha1(Sized(a.v)) == a.target)
                  && s'.peers == s.peers && s'.mutables == s.mutables
                  && (reply != Pong ==> s'.immutables == s.immutables)
                  && (reply == Pong ==> Peek(s'.immutables, a.target) == Some(a.v))
                  && (t != a.target ==> Peek(s'.immutables, t) == Peek(s.immutables, t) || Peek(s'.immutables, t) == None))
  {
    hide TokenFor, AddPeer, PutMutable, Store, Peek, Sized, Verified, ValidateImmutable, DistinctKeys;
    match a
    case Announce(infoHash, peer, port, implied) =>
      AddPeerKeeps(s.peers, s.maxHashes, s.maxPeers, infoHash, peer, PeerAddress(from, port, implied), infoHash);
    case StoreImmutable(target, v) =>
      HashMeans(c, v, target);
      StorePeek(s.immutables, s.maxImmutables, target, v, t);
    case StoreMutable(_, _, _, _, _, _, _) =>
  }

  lemma HashMeans(c: Crypto, v: Bytes, target: Id)
    ensures ValidateImmutable(c, v, target) <==> c.sha1(Sized(v)) == target
  {
    hide Sized;
  }

  /** With a token, a mutable put is answered by the first of these that applies: 205 for a value
      over 1000 bytes, 207 for a salt over 64, 301 when `cas` is not the stored sequence number,
      302 when that is higher than the one given, 206 when the item does not verify; and is
      accepted otherwise. */
  lemma MutableWrites(c: Crypto, s: Storage, from: Address, token: Bytes, a: PutArguments, luck: Luck, now: int)
    requires a.StoreMutable? && IsTokenOf(Rotated(s.tokens, luck.secret, now), from.ip, token)
    ensures var reply := Handle(c, s, from, Put(token, a), luck, now).1;
            var stored := Peek(s.mutables, a.target);
            var big, salty := |a.v| > 1000, a.salt.Some? && |a.salt.value| > 64;
            var raced := stored.Some? && a.cas.Some? && a.cas.value != stored.value.seqNo;
            var older := stored.Some? && a.seqNo < stored.value.seqNo;
            var genuine := && |a.k| == 32 && c.isKey(a.k) && |a.sig| == 64
                           && c.verify(a.k, EncodeSignable(a.seqNo, a.v, a.salt), a.sig)
                           && c.sha1(if a.salt.Some? then a.k + a.salt.value else a.k) == a.target;
            reply == (if big then Error(205) else if salty then Error(207) else if raced then Error(301)
                      else if older then Error(302) else if !genuine then Error(206) else Pong)
  {
    hide TokenFor, Store, Peek, Promote, EncodeSignable, Verified;
  }

  // --- reads ---

  /** A plain read answers the immutable value of the target if there is one, and else the mutable
      item; a read that names a sequence number looks only for a newer mutable item. Every
      answer carries the token of the asker's IP, and reading changes no stored value. */
  lemma Reads(c: Crypto, s: Storage, from: Address, target: Id, seqNo: Option<int>, luck: Luck, now: int, t: Id)
    requires StorageInv(c, s)
    ensures var (s', reply) := Handle(c, s, from, GetValue(target, seqNo), luck, now);
            var token := TokenFor(from.ip, Rotated(s.tokens, luck.secret, now).curr);
            var plain, item := Peek(s.immutables, target), Peek(s.mutables, target);
            && (seqNo.None? && plain.Some? ==> reply == ImmutableValue(token, plain.value))
            && (seqNo.None? && plain.None? && item.Some? ==> reply == MutableValue(token, item.value))
            && (seqNo.Some? && item.Some? && item.value.seqNo > seqNo.value ==> reply == MutableValue(token, item.value))
            && (seqNo.Some? && item.Some? && item.value.seqNo <= seqNo.value ==> reply == NoMoreRecent(token, item.value.seqNo))
            && (item.None? && (seqNo.Some? || plain.None?) ==> reply == NoValues(token))
            && Peek(s'.immutables, t) == Peek(s.immutables, t) && Peek(s'.mutables, t) == Peek(s.mutables, t) && s'.peers == s.peers
  {
    hide TokenFor, KeyIndex, Promote, Verified, ValidateImmutable, PeersInv, DistinctKeys;
    PromotePeek(s.immutables, target, t);
    PromotePeek(s.mutables, target, t);
  }

  /** A question for peers carries the token too, and is answered without one exactly when no
      peer is stored. */
  lemma PeersAnswerHasToken(c: Crypto, s: Storage, from: Address, infoHash: Id, luck: Luck, now: int)
    ensures var reply := Handle(c, s, from, GetPeers(infoHash), luck, now).1;
            var token := TokenFor(from.ip, Rotated(s.tokens, luck.secret, now).curr);
            && (SwarmOf(s.peers, infoHash) == [] ==> reply == NoValues(token))
            && (SwarmOf(s.peers, infoHash) != [] ==> reply.PeerValues? && reply.token == token)
  {
    hide TokenFor, Promote, Draw, Addresses, SwarmOf;
  }

  /** A node that took its token within the last five minutes is written to with success as far as
      the token goes, whatever the server served in between. */
  lemma FreshTokenIsAccepted(t: Secrets, visits: seq<Visit>, n: Node, ip: bv32, now: int)
    requires n.token == Some(TokenFor(ip, t.curr)) && ValidToken(n, now)
    requires VisitsInOrder(visits, n.lastSeen) && visits != [] && visits[|visits| - 1].now == now
    ensures IsTokenOf(Serve(t, visits), ip, n.token.value)
  {
    hide TokenFor;
    LastIsLatest(visits, n.lastSeen);
    TokenLifetime(t, n.lastSeen, visits, ip);
  }

  lemma {:induction false} LastIsLatest(visits: seq<Visit>, from: int)
    requires VisitsInOrder(visits, from) && visits != []
    ensures Until(visits, visits[|visits| - 1].now)
    decreases |visits|
  {
    if |visits| > 1 {
      LastIsLatest(visits[1..], visits[0].now);
      assert visits == [visits[0]] + visits[1..];
      assert visits[1] in visits[1..];
    }
  }

  lemma CrcOfFirst()
    ensures CrcBytes(0xffffffff, [0x31, 0x32, 0x33]) == 0xef84d04d
  {
    assert CrcBits(0xffffffce, 8) == 0x6f0a661c;
    assert CrcBits(0x6f0a662e, 8) == 0x8caa3b9f;
    assert CrcBits(0x8caa3bac, 8) == 0xef84d04d;
  }

  lemma CrcOfSecond()
    ensures CrcBytes(0xef84d04d, [0x34, 0x35, 0x36]) == 0xbeca8e79
  {
    assert CrcBits(0xef84d079, 8) == 0x09c50b11;
    assert CrcBits(0x09c50b24, 8) == 0xe72edcca;
    assert CrcBits(0xe72edcfc, 8) == 0xbeca8e79;
  }

  lemma CrcOfThird()
    ensures CrcBytes(0xbeca8e79, [0x37, 0x38, 0x39]) == 0x1cf96d7c
  {
    assert CrcBits(0xbeca8e4e, 8) == 0xedbd6815;
    assert CrcBits(0xedbd682d, 8) == 0x9f787f65;
    assert CrcBits(0x9f787f5c, 8) == 0x1cf96d7c;
  }

  /** The standard check value of CRC-32C, for the nine bytes "123456789", as the token of 49.50.51.52
      under the secret "56789". */
  lemma TokenVector()
    ensures TokenFor(0x31323334, [0x35, 0x36, 0x37, 0x38, 0x39]) == [0xe3, 0x06, 0x92, 0x83]
  {
    hide CrcBytes;
    CrcOfFirst();
    CrcOfSecond();
    CrcOfThird();
    var first, second, third: Bytes := [0x31, 0x32, 0x33], [0x34, 0x35, 0x36], [0x37, 0x38, 0x39];
    BytesSplit(0xffffffff, first, second);
    BytesSplit(0xffffffff, first + second, third);
    assert first + second + third == [0x31, 0x32, 0x33, 0x34] + [0x35, 0x36, 0x37, 0x38, 0x39];
    assert BigEndian(0x31323334) == [0x31, 0x32, 0x33, 0x34];
    assert BigEndian(0xe3069283) == [0xe3, 0x06, 0x92, 0x83];
  }

  // --- nothing is stored without a token ---

  function Before(c: Crypto, s: Storage, arrivals: seq<Arrival>, k: nat): Storage
    requires k <= |arrivals|
  {
    RunServer(c, s, arrivals[..k])
  }

  /** Arrival `k` is a write with a token of its sender's IP. */
  predicate Entitled(c: Crypto, s: Storage, arrivals: seq<Arrival>, k: nat)
    requires k < |arrivals|
  {
    var x := arrivals[k];
    x.request.Put? && IsTokenOf(Rotated(Before(c, s, arrivals, k).tokens, x.luck.secret, x.now), x.from.ip, x.request.token)
  }

  lemma EntitledLater(c: Crypto, s: Storage, arrivals: seq<Arrival>, k: nat)
    requires 0 < k < |arrivals|
    requires var x := arrivals[0];
             Entitled(c, Handle(c, s, x.from, x.request, x.luck, x.now).0, arrivals[1..], k - 1)
    ensures Entitled(c, s, arrivals, k)
  {
    hide Handle, IsTokenOf;
    assert arrivals[..k][1..] == arrivals[1..][..k - 1];
    assert arrivals[..k][0] == arrivals[0];
  }

  /** One arrival: a value that appears was written by it, with a token of its sender's IP. */
  lemma ArrivalWrites(c: Crypto, s: Storage, x: Arrival, t: Id, peer: Id)
    requires StorageInv(c, s)
    ensures var s' := Handle(c, s, x.from, x.request, x.luck, x.now).0;
            var entitled := x.request.Put? && IsTokenOf(Rotated(s.tokens, x.luck.secret, x.now), x.from.ip, x.request.token);
            && (Peek(s'.immutables, t).Some? && Peek(s'.immutables, t) != Peek(s.immutables, t) ==>
                  entitled && x.request.arguments == StoreImmutable(t, Peek(s'.immutables, t).value))
            && (Peek(s'.mutables, t).Some? && Peek(s'.mutables, t) != Peek(s.mutables, t) ==>
                  entitled && x.request.arguments.StoreMutable? && x.request.arguments.target == t &&
                  Peek(s'.mutables, t) == Some(ItemOf(x.request.arguments)))
            && (Peek(SwarmOf(s'.peers, t), peer).Some? && Peek(SwarmOf(s'.peers, t), peer) != Peek(SwarmOf(s.peers, t), peer) ==>
                  entitled && x.request.arguments.Announce? && x.request.arguments.infoHash == t && x.request.arguments.peer == peer &&
                  Peek(SwarmOf(s'.peers, t), peer).value.ip == x.from.ip)
  {
    hide TokenFor, Peek, Promote, Store, AddPeer, RandomPeers, SwarmOf, Verified, ValidateImmutable, PutMutable, FromDhtMessage, DistinctKeys;
    match x.request
    case Ping =>
    case FindNode(_) =>
    case GetPeers(infoHash) => RandomPeersKeeps(s.peers, s.maxHashes, s.maxPeers, infoHash, x.luck.draws, t);
    case GetValue(target, seqNo) => Reads(c, s, x.from, target, seqNo, x.luck, x.now, t);
    case Put(token, a) =>
      if !IsTokenOf(Rotated(s.tokens, x.luck.secret, x.now), x.from.ip, token) {
        BadTokenIsRefused(c, s, x.from, token, a, x.luck, x.now);
      } else {
        EntitledWrites(c, s, x.from, token, a, x.luck, x.now, t, peer);
      }
  }

  function ItemOf(a: PutArguments): MutableItem
    requires a.StoreMutable?
  {
    MutableItem(a.target, a.k, a.seqNo, a.v, a.sig, a.salt)
  }

  lemma EntitledWrites(c: Crypto, s: Storage, from: Address, token: Bytes, a: PutArguments, luck: Luck, now: int, t: Id, peer: Id)
    requires StorageInv(c, s) && IsTokenOf(Rotated(s.tokens, luck.secret, now), from.ip, token)
    ensures var s' := Handle(c, s, from, Put(token, a), luck, now).0;
            && (Peek(s'.immutables, t).Some? && Peek(s'.immutables, t) != Peek(s.immutables, t) ==>
                  a == StoreImmutable(t, Peek(s'.immutables, t).value))
            && (Peek(s'.mutables, t).Some? && Peek(s'.mutables, t) != Peek(s.mutables, t) ==>
                  a.StoreMutable? && a.target == t && Peek(s'.mutables, t) == Some(ItemOf(a)))
            && (Peek(SwarmOf(s'.peers, t), peer).Some? && Peek(SwarmOf(s'.peers, t), peer) != Peek(SwarmOf(s.peers, t), peer) ==>
                  a.Announce? && a.infoHash == t && a.peer == peer && Peek(SwarmOf(s'.peers, t), peer).value.ip == from.ip)
  {
    hide TokenFor, Peek, Promote, Store, AddPeer, SwarmOf, Verified, ValidateImmutable, PutMutable, PutImmutable, FromDhtMessage, DistinctKeys;
    var s1 := s.(tokens := Refresh(s.tokens, luck.secret, now));
    match a
    case Announce(infoHash, p, port, implied) =>
      var address := PeerAddress(from, port, implied);
      AddedOrKept(s.peers, s.maxHashes, s.maxPeers, infoHash, p, address, t, peer);
    case StoreImmutable(target, v) => PlainWrites(c, s, from, token, a, luck, now, t);
      PutImmutableKeeps(c, s1, target, v);
    case StoreMutable(target, _, _, _, _, _, _) =>
      PutMutableKeeps(c, s1, a, t);
      PutMutableStores(c, s1, a, t);
      PutMutableFrame(c, s1, a);
  }

  lemma PutMutableStores(c: Crypto, s: Storage, a: PutArguments, t: Id)
    requires StorageInv(c, s) && a.StoreMutable?
    ensures var s' := PutMutable(c, s, a).0;
            && s'.peers == s.peers
            && (Peek(s'.mutables, t).Some? && Peek(s'.mutables, t) != Peek(s.mutables, t) ==>
                  t == a.target && Peek(s'.mutables, t) == Some(ItemOf(a)))
  {
    hide ValidateImmutable, Verified, Promote, Store, Peek, PeersInv, DistinctKeys;
    PromoteKeeps(c, s, a.target);
    PromoteFits(s.mutables, a.target);
    StorePeek(Promote(s.mutables, a.target), s.maxMutables, a.target, ItemOf(a), t);
    StorePeek(Promote(s.mutables, a.target), s.maxMutables, a.target, ItemOf(a), a.target);
  }

  lemma PromoteFits<V>(entries: Entries<V>, key: Id)
    requires DistinctKeys(entries)
    ensures DistinctKeys(Promote(entries, key)) && |Promote(entries, key)| == |entries|
  {
    PromotePeek(entries, key, key);
  }

  /** What is in storage at the end of a run and was not there at its start, under the same key and
      with the same contents, was written in some arrival whose sender held a token of its IP:
      immutable values and mutable items as given, peers at the sender's IP. */
  lemma {:induction false} StoredCameWithToken(c: Crypto, s: Storage, arrivals: seq<Arrival>, t: Id, peer: Id)
    requires StorageInv(c, s)
    ensures var plain := Peek(RunServer(c, s, arrivals).immutables, t);
            plain.Some? && plain != Peek(s.immutables, t) ==>
              exists k :: 0 <= k < |arrivals| && Entitled(c, s, arrivals, k) && arrivals[k].request.arguments == StoreImmutable(t, plain.value)
    ensures var item := Peek(RunServer(c, s, arrivals).mutables, t);
            item.Some? && item != Peek(s.mutables, t) ==>
              exists k :: 0 <= k < |arrivals| && Entitled(c, s, arrivals, k) &&
                          arrivals[k].request.arguments.StoreMutable? && ItemOf(arrivals[k].request.arguments) == item.value
    ensures var address := Peek(SwarmOf(RunServer(c, s, arrivals).peers, t), peer);
            address.Some? && address != Peek(SwarmOf(s.peers, t), peer) ==>
              exists k :: 0 <= k < |arrivals| && Entitled(c, s, arrivals, k) &&
                          arrivals[k].request.arguments.Announce? && arrivals[k].request.arguments.infoHash == t &&
                          arrivals[k].request.arguments.peer == peer && address.value.ip == arrivals[k].from.ip
    decreases |arrivals|
  {
    hide StorageInv, Handle, Peek, SwarmOf, IsTokenOf, Entitled;
    if arrivals != [] {
      var x := arrivals[0];
      var s' := Handle(c, s, x.from, x.request, x.luck, x.now).0;
      HandleKeeps(c, s, x.from, x.request, x.luck, x.now, t);
      ArrivalWrites(c, s, x, t, peer);
      FirstEntitled(c, s, arrivals);
      StoredCameWithToken(c, s', arrivals[1..], t, peer);
      forall k | 0 <= k < |arrivals[1..]| && Entitled(c, s', arrivals[1..], k) ensures Entitled(c, s, arrivals, k + 1) && arrivals[k + 1] == arrivals[1..][k] {
        EntitledLater(c, s, arrivals, k + 1);
      }
    }
  }

  lemma FirstEntitled(c: Crypto, s: Storage, arrivals: seq<Arrival>)
    requires arrivals != []
    ensures var x := arrivals[0];
            x.request.Put? && IsTokenOf(Rotated(s.tokens, x.luck.secret, x.now), x.from.ip, x.request.token) ==> Entitled(c, s, arrivals, 0)
  {
    hide IsTokenOf;
    assert arrivals[..0] == [];
  }
}
