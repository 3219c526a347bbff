/** Write tokens handed to clients (src/rpc/server/tokens.rs). */
module Tokens {
  import opened Ids
  import opened Bep42
  import opened Nodes

  datatype Secrets = Secrets(prev: Bytes, curr: Bytes, lastUpdated: int)

  predicate ShouldUpdate(t: Secrets, now: int) {
    now - t.lastUpdated > TOKEN_ROTATE_INTERVAL
  }

  function Rotate(t: Secrets, secret: Bytes, now: int): Secrets {
    Secrets(t.curr, secret, now)
  }

  /** The lazy rotation before every request that passed the filter. */
  function Refresh(t: Secrets, secret: Bytes, now: int): Secrets {
    if ShouldUpdate(t, now) then Rotate(t, secret, now) else t
  }

  /** A token binds the IP, not the port, to a secret. */
  function TokenFor(ip: bv32, secret: Bytes): Bytes {
    BigEndian(Crc32c(BigEndian(ip) + secret))
  }

  predicate Validate(t: Secrets, ip: bv32, token: Bytes) {
    token == TokenFor(ip, t.curr) || token == TokenFor(ip, t.prev)
  }

  /** A request that reached the token code: its time and the randomness a rotation would use. */
  datatype Visit = Visit(now: int, secret: Bytes)

  function Serve(t: Secrets, visits: seq<Visit>): Secrets
    decreases |visits|
  {
    if visits == [] then t else Serve(Refresh(t, visits[0].secret, visits[0].now), visits[1..])
  }

  function Rotations(t: Secrets, visits: seq<Visit>): nat
    decreases |visits|
  {
    if visits == [] then 0
    else (if ShouldUpdate(t, visits[0].now) then 1 else 0) +
         Rotations(Refresh(t, visits[0].secret, visits[0].now), visits[1..])
  }

  predicate VisitsInOrder(visits: seq<Visit>, from: int) {
    visits != [] ==> from <= visits[0].now && VisitsInOrder(visits[1..], visits[0].now)
  }

  predicate Until(visits: seq<Visit>, deadline: int) {
    forall v :: v in visits ==> v.now <= deadline
  }

  /** A secret that is current, or was current until `issued` or later, survives to the deadline. */
  lemma {:induction false} SecretSurvives(t: Secrets, visits: seq<Visit>, from: int, issued: int, secret: Bytes)
    requires issued <= from && VisitsInOrder(visits, from) && Until(visits, issued + TOKEN_ROTATE_INTERVAL)
    requires t.curr == secret || (t.prev == secret && t.lastUpdated >= issued)
    ensures Serve(t, visits).curr == secret || Serve(t, visits).prev == secret
    decreases |visits|
  {
    if visits != [] {
      var v := visits[0];
      SecretSurvives(Refresh(t, v.secret, v.now), visits[1..], v.now, issued, secret);
    }
  }

  /** A token issued at `issued` is accepted from the same IP by every request up to five
      minutes later, whatever requests and rotations happen in between. */
  lemma TokenLifetime(t: Secrets, issued: int, visits: seq<Visit>, ip: bv32)
    requires VisitsInOrder(visits, issued) && Until(visits, issued + TOKEN_ROTATE_INTERVAL)
    ensures Validate(Serve(t, visits), ip, TokenFor(ip, t.curr))
  {
    hide TokenFor;
    SecretSurvives(t, visits, issued, issued, t.curr);
  }

  /** Without two rotations a token never expires: a server that stays idle accepts a token
      of any age, so five minutes is a lower bound and there is no upper one. */
  lemma IdleServerAcceptsAnyAge(t: Secrets, now: int, secret: Bytes, ip: bv32)
    ensures Validate(Serve(t, [Visit(now, secret)]), ip, TokenFor(ip, t.curr))
  {
    hide TokenFor;
    var v := Visit(now, secret);
    assert [v][1..] == [];
    assert Serve(t, [v]) == Serve(Refresh(t, secret, now), []);
  }

  function SecretsOf(visits: seq<Visit>): set<Bytes> {
    set v | v in visits :: v.secret
  }

  /** One rotation moves the secret back, two replace it. */
  lemma {:induction false} SecretAfterRotations(t: Secrets, visits: seq<Visit>)
    ensures var t' := Serve(t, visits);
            && (Rotations(t, visits) == 0 ==> t' == t)
            && (Rotations(t, visits) == 1 ==> t'.prev == t.curr)
            && (Rotations(t, visits) >= 1 ==> t'.curr in SecretsOf(visits))
            && (Rotations(t, visits) >= 2 ==> t'.prev in SecretsOf(visits))
    decreases |visits|
  {
    if visits != [] {
      var v := visits[0];
      SecretAfterRotations(Refresh(t, v.secret, v.now), visits[1..]);
      assert visits == [v] + visits[1..];
      assert SecretsOf(visits) == {v.secret} + SecretsOf(visits[1..]);
    }
  }

  /** When no later secret happens to give the same token, a token is accepted if and only
      if at most one rotation has happened since it was issued. */
  lemma AcceptedIffFewRotations(t: Secrets, visits: seq<Visit>, ip: bv32)
    requires forall secret :: secret in SecretsOf(visits) ==> TokenFor(ip, secret) != TokenFor(ip, t.curr)
    ensures Validate(Serve(t, visits), ip, TokenFor(ip, t.curr)) <==> Rotations(t, visits) <= 1
  {
    hide TokenFor;
    SecretAfterRotations(t, visits);
  }

  class TokenStore {
    var prevSecret: Bytes
    var currSecret: Bytes
    var lastUpdated: int

    ghost function State(): Secrets
      reads this
    {
      Secrets(prevSecret, currSecret, lastUpdated)
    }

    constructor (prev: Bytes, curr: Bytes, now: int)
      ensures State() == Secrets(prev, curr, now)
    {
      prevSecret, currSecret, lastUpdated := prev, curr, now;
    }

    method RotateSecrets(secret: Bytes, now: int)
      modifies this
      ensures State() == Rotate(old(State()), secret, now)
    {
      prevSecret := currSecret;
      currSecret := secret;
      lastUpdated := now;
    }
  }
}

/**
  The storage server (src/rpc/server.rs): immutable and mutable items behind write
  tokens, with the sequence-number and compare-and-swap rules of BEP 44.
 */
module Server {
  import opened Ids
  import opened Bep42
  import opened Nodes
  import opened Lru
  import opened MutableItems
  import opened Tokens
  import opened Peers

  datatype Storage = Storage(tokens: Secrets, peers: Entries<Swarm>, immutables: Entries<Bytes>,
                             mutables: Entries<MutableItem>, maxHashes: nat, maxPeers: nat, maxImmutables: nat,
                             maxMutables: nat)

  /** The random bytes one request can draw: a new secret, and the outcome of each sampling draw. */
  datatype Luck = Luck(secret: Bytes, draws: seq<bool>)

  datatype PutArguments =
    | Announce(infoHash: Id, peer: Id, port: nat, implied: Option<bool>)
    | StoreImmutable(target: Id, v: Bytes)
    | StoreMutable(target: Id, v: Bytes, k: Bytes, seqNo: int, sig: Bytes, salt: Option<Bytes>, cas: Option<int>)

  datatype Request =
    | Ping
    | FindNode(target: Id)
    | GetPeers(target: Id)
    | GetValue(target: Id, seqNo: Option<int>)
    | Put(token: Bytes, arguments: PutArguments)

  /** What the server answers; the nodes it always adds come from the routing table. */
  datatype Reply =
    | Pong
    | Nodes
    | PeerValues(token: Bytes, values: seq<Address>)
    | NoValues(token: Bytes)
    | ImmutableValue(token: Bytes, v: Bytes)
    | MutableValue(token: Bytes, item: MutableItem)
    | NoMoreRecent(token: Bytes, seqNo: int)
    | Error(code: int)

  /** `handle_get_mutable`. */
  function GetMutable(s: Storage, token: Bytes, target: Id, seqNo: Option<int>): (r: (Storage, Reply)) {
    var s' := s.(mutables := Promote(s.mutables, target));
    match Peek(s.mutables, target)
    case None => (s', NoValues(token))
    case Some(item) =>
      if seqNo.Some? && item.seqNo <= seqNo.value then (s', NoMoreRecent(token, item.seqNo))
      else (s', MutableValue(token, item))
  }

  function PutImmutable(c: Crypto, s: Storage, target: Id, v: Bytes): (r: (Storage, Reply)) {
    if |v| > 1000 then (s, Error(205))
    else if !ValidateImmutable(c, v, target) then (s, Error(203))
    else (s.(immutables := Store(s.immutables, s.maxImmutables, target, v)), Pong)
  }

  /** The checks on a mutable put against what is stored: none, or the error code. */
  function Conflict(previous: Option<MutableItem>, seqNo: int, cas: Option<int>): Option<int> {
    if previous.None? then None
    else if cas.Some? && previous.value.seqNo != cas.value then Some(301)
    else if seqNo < previous.value.seqNo then Some(302)
    else None
  }

  function PutMutable(c: Crypto, s: Storage, a: PutArguments): (r: (Storage, Reply))
    requires a.StoreMutable?
  {
    if |a.v| > 1000 then (s, Error(205))
    else if a.salt.Some? && |a.salt.value| > 64 then (s, Error(207))
    else
      var s' := s.(mutables := Promote(s.mutables, a.target));
      var conflict := Conflict(Peek(s.mutables, a.target), a.seqNo, a.cas);
      if conflict.Some? then (s', Error(conflict.value))
      else match FromDhtMessage(c, a.target, a.k, a.v, a.seqNo, a.sig, a.salt)
        case ItemOk(item) => (s'.(mutables := Store(s'.mutables, s.maxMutables, a.target, item)), Pong)
        case ItemErr(_) => (s', Error(206))
  }

  /** The address an announcement is for: the sender's, or its IP with the given port. */
  function PeerAddress(from: Address, port: nat, implied: Option<bool>): Address {
    if implied == Some(true) then from else Address(from.ip, port)
  }

  /** `handle_request` for a request the filter let through. */
  function Handle(c: Crypto, s: Storage, from: Address, request: Request, luck: Luck, now: int): (r: (Storage, Reply)) {
    var s := s.(tokens := Refresh(s.tokens, luck.secret, now));
    var token := TokenFor(from.ip, s.tokens.curr);
    match request
    case Ping => (s, Pong)
    case FindNode(_) => (s, Nodes)
    case GetPeers(infoHash) =>
      var (peers, answer) := RandomPeers(s.peers, infoHash, luck.draws);
      (s.(peers := peers), if answer.Some? then PeerValues(token, answer.value) else NoValues(token))
    case GetValue(target, seqNo) =>
      if seqNo.None? && HasKey(s.immutables, target) then
        (s.(immutables := Promote(s.immutables, target)), ImmutableValue(token, Peek(s.immutables, target).value))
      else GetMutable(s, token, target, seqNo)
    case Put(given, arguments) =>
      if !Validate(s.tokens, from.ip, given) then (s, Error(203))
      else match arguments {
        case Announce(infoHash, peer, port, implied) =>
          (s.(peers := AddPeer(s.peers, s.maxHashes, s.maxPeers, infoHash, peer, PeerAddress(from, port, implied))), Pong)
        case StoreImmutable(target, v) => PutImmutable(c, s, target, v)
        case StoreMutable(_, _, _, _, _, _, _) => PutMutable(c, s, arguments)
      }
  }

  // --- what is stored was checked ---

  ghost predicate StorageInv(c: Crypto, s: Storage) {
    && s.maxImmutables > 0 && s.maxMutables > 0 && PeersInv(s.peers, s.maxHashes, s.maxPeers)
    && DistinctKeys(s.immutables) && |s.immutables| <= s.maxImmutables
    && DistinctKeys(s.mutables) && |s.mutables| <= s.maxMutables
    && (forall t: Id :: Peek(s.immutables, t).Some? ==>
          ValidateImmutable(c, Peek(s.immutables, t).value, t) && |Peek(s.immutables, t).value| <= 1000)
    && (forall t: Id :: Peek(s.mutables, t).Some? ==>
          Verified(c, Peek(s.mutables, t).value) && Peek(s.mutables, t).value.target == t)
  }

  /** How one stored mutable item may change: kept, evicted, or replaced by a verified item
      of the same target that is not older. */
  predicate Succeeds(old': Option<MutableItem>, new': Option<MutableItem>) {
    old'.Some? && new'.Some? ==> new'.value.seqNo >= old'.value.seqNo
  }

  lemma PutImmutableKeeps(c: Crypto, s: Storage, target: Id, v: Bytes)
    requires StorageInv(c, s)
    ensures StorageInv(c, PutImmutable(c, s, target, v).0)
    ensures PutImmutable(c, s, target, v).0.mutables == s.mutables
  {
    hide ValidateImmutable, Verified, Store, Peek, PeersInv;
    if |v| <= 1000 && ValidateImmutable(c, v, target) {
      StorePeek(s.immutables, s.maxImmutables, target, v, target);
      forall t: Id ensures var r := Peek(Store(s.immutables, s.maxImmutables, target, v), t);
                       r == Peek(s.immutables, t) || r == None || (t == target && r == Some(v)) {
        StorePeek(s.immutables, s.maxImmutables, target, v, t);
      }
    }
  }

  lemma PromoteKeeps(c: Crypto, s: Storage, target: Id)
    requires StorageInv(c, s)
    ensures StorageInv(c, s.(mutables := Promote(s.mutables, target)))
    ensures StorageInv(c, s.(immutables := Promote(s.immutables, target)))
    ensures forall t: Id :: Peek(Promote(s.mutables, target), t) == Peek(s.mutables, t)
  {
    hide ValidateImmutable, Verified, Promote, Peek, PeersInv;
    PromotePeek(s.mutables, target, target);
    PromotePeek(s.immutables, target, target);
    forall t: Id
      ensures Peek(Promote(s.mutables, target), t) == Peek(s.mutables, t)
      ensures Peek(Promote(s.immutables, target), t) == Peek(s.immutables, t)
    {
      PromotePeek(s.mutables, target, t);
      PromotePeek(s.immutables, target, t);
    }
  }

  /** A mutable put keeps the invariant, never lowers a stored sequence number, and when it
      is accepted over a stored item its `cas`, if any, named exactly that item's number. */
  lemma PutMutableKeeps(c: Crypto, s: Storage, a: PutArguments, t: Id)
    requires StorageInv(c, s) && a.StoreMutable?
    ensures StorageInv(c, PutMutable(c, s, a).0)
    ensures Succeeds(Peek(s.mutables, t), Peek(PutMutable(c, s, a).0.mutables, t))
    ensures PutMutable(c, s, a).1 == Pong ==>
              && Peek(PutMutable(c, s, a).0.mutables, a.target) ==
                 Some(MutableItem(a.target, a.k, a.seqNo, a.v, a.sig, a.salt))
              && (var previous := Peek(s.mutables, a.target);
                  previous.Some? ==> a.seqNo >= previous.value.seqNo &&
                                     (a.cas.Some? ==> a.cas.value == previous.value.seqNo))
    ensures PutMutable(c, s, a).1 != Pong ==>
              Peek(PutMutable(c, s, a).0.mutables, t) == Peek(s.mutables, t)
  {
    hide ValidateImmutable, Verified, Promote, Store, Peek;
    PromoteKeeps(c, s, a.target);
    var s' := s.(mutables := Promote(s.mutables, a.target));
    if PutMutable(c, s, a).1 == Pong {
      var item := MutableItem(a.target, a.k, a.seqNo, a.v, a.sig, a.salt);
      StorePeek(s'.mutables, s.maxMutables, a.target, item, a.target);
      forall u: Id ensures var r := Peek(Store(s'.mutables, s.maxMutables, a.target, item), u);
                       r == Peek(s.mutables, u) || r == None || (u == a.target && r == Some(item)) {
        StorePeek(s'.mutables, s.maxMutables, a.target, item, u);
      }
    }
  }

  lemma HandleKeeps(c: Crypto, s: Storage, from: Address, request: Request, luck: Luck, now: int, t: Id)
    requires StorageInv(c, s)
    ensures StorageInv(c, Handle(c, s, from, request, luck, now).0)
    ensures Succeeds(Peek(s.mutables, t), Peek(Handle(c, s, from, request, luck, now).0.mutables, t))
  {
    hide ValidateImmutable, Verified, Promote, Store, Peek, Validate, TokenFor, Refresh, PutMutable, PutImmutable, FromDhtMessage,
         PeersInv, AddPeer, RandomPeers;
    var s1 := s.(tokens := Refresh(s.tokens, luck.secret, now));
    assert StorageInv(c, s1);
    match request
    case Ping =>
    case FindNode(_) =>
    case GetPeers(infoHash) => RandomPeersKeeps(s1.peers, s1.maxHashes, s1.maxPeers, infoHash, luck.draws, infoHash);
    case GetValue(target, seqNo) => PromoteKeeps(c, s1, target);
    case Put(given, arguments) =>
      match arguments
      case Announce(infoHash, peer, port, implied) =>
        AddPeerKeeps(s1.peers, s1.maxHashes, s1.maxPeers, infoHash, peer, PeerAddress(from, port, implied), infoHash);
      case StoreImmutable(target, v) => PutImmutableKeeps(c, s1, target, v);
      case StoreMutable(_, _, _, _, _, _, _) => PutMutableKeeps(c, s1, arguments, t);
  }

  // --- any run ---

  datatype Arrival = Arrival(from: Address, request: Request, luck: Luck, now: int)

  function RunServer(c: Crypto, s: Storage, arrivals: seq<Arrival>): Storage
    decreases |arrivals|
  {
    if arrivals == [] then s
    else
      var a := arrivals[0];
      RunServer(c, Handle(c, s, a.from, a.request, a.luck, a.now).0, arrivals[1..])
  }

  predicate StaysStored(c: Crypto, s: Storage, arrivals: seq<Arrival>, t: Id)
    decreases |arrivals|
  {
    Peek(s.mutables, t).Some? &&
    (arrivals != [] ==>
      var a := arrivals[0];
      StaysStored(c, Handle(c, s, a.from, a.request, a.luck, a.now).0, arrivals[1..], t))
  }

  /** Over every run, everything stored was verified, and while a target stays stored its
      sequence number never decreases. */
  lemma {:induction false} SequenceNeverDecreases(c: Crypto, s: Storage, arrivals: seq<Arrival>, t: Id)
    requires StorageInv(c, s)
    ensures StorageInv(c, RunServer(c, s, arrivals))
    ensures StaysStored(c, s, arrivals, t) ==>
              && Peek(RunServer(c, s, arrivals).mutables, t).Some?
              && Peek(RunServer(c, s, arrivals).mutables, t).value.seqNo >= Peek(s.mutables, t).value.seqNo
    decreases |arrivals|
  {
    hide StorageInv, Handle, Peek;
    if arrivals != [] {
      var a := arrivals[0];
      var s' := Handle(c, s, a.from, a.request, a.luck, a.now).0;
      HandleKeeps(c, s, a.from, a.request, a.luck, a.now, t);
      SequenceNeverDecreases(c, s', arrivals[1..], t);
    }
  }

  /** After an accepted mutable put, the next plain read of its target returns the item, to
      anyone, if and only if no immutable value is stored under that target; when one is, it
      is returned instead. */
  lemma WriteThenRead(c: Crypto, s: Storage, from: Address, token: Bytes, a: PutArguments, luck: Luck, now: int,
                      reader: Address, luck': Luck, now': int)
    requires StorageInv(c, s) && a.StoreMutable?
    requires Handle(c, s, from, Put(token, a), luck, now).1 == Pong
    ensures var s' := Handle(c, s, from, Put(token, a), luck, now).0;
            var reply := Handle(c, s', reader, GetValue(a.target, None), luck', now').1;
            && ((reply.MutableValue? && reply.item == MutableItem(a.target, a.k, a.seqNo, a.v, a.sig, a.salt)) <==>
                !HasKey(s.immutables, a.target))
            && (HasKey(s.immutables, a.target) ==>
                  reply.ImmutableValue? && Some(reply.v) == Peek(s.immutables, a.target))
  {
    hide ValidateImmutable, Verified, Promote, Store, Peek, Validate, TokenFor, Refresh, PutMutable, HasKey, PeersInv;
    var s1 := s.(tokens := Refresh(s.tokens, luck.secret, now));
    assert StorageInv(c, s1);
    PutMutableKeeps(c, s1, a, a.target);
    PutMutableFrame(c, s1, a);
    if HasKey(s.immutables, a.target) { PeekSome(s.immutables, a.target); }
  }

  /** After an accepted announcement, the next get_peers of that info hash, from anyone, answers
      with at most ten stored peers, and with the announced address among them whenever fewer
      than ten are stored. */
  lemma AnnounceThenAsk(c: Crypto, s: Storage, from: Address, token: Bytes, a: PutArguments, luck: Luck, now: int,
                        reader: Address, luck': Luck, now': int)
    requires StorageInv(c, s) && a.Announce?
    requires Handle(c, s, from, Put(token, a), luck, now).1 == Pong
    ensures var s' := Handle(c, s, from, Put(token, a), luck, now).0;
            var swarm := SwarmOf(s'.peers, a.infoHash);
            var reply := Handle(c, s', reader, GetPeers(a.infoHash), luck', now').1;
            && reply.PeerValues? && |reply.values| <= SAMPLE
            && (forall x :: x in reply.values ==> exists i :: 0 <= i < |swarm| && swarm[i].1 == x)
            && (|swarm| < SAMPLE ==> PeerAddress(from, a.port, a.implied) in reply.values)
  {
    hide ValidateImmutable, Verified, Validate, TokenFor, Refresh, PeersInv, AddPeer, RandomPeers, SwarmOf, Peek, DistinctKeys;
    var address := PeerAddress(from, a.port, a.implied);
    AddPeerKeeps(s.peers, s.maxHashes, s.maxPeers, a.infoHash, a.peer, address, a.infoHash);
    var s' := Handle(c, s, from, Put(token, a), luck, now).0;
    AnswerIsStored(s'.peers, a.infoHash, luck'.draws);
    StoredAt(SwarmOf(s'.peers, a.infoHash), a.peer, address);
  }

  lemma StoredAt(swarm: Swarm, peer: Id, address: Address)
    requires Peek(swarm, peer) == Some(address)
    ensures exists i :: 0 <= i < |swarm| && swarm[i].1 == address
  {
    assert swarm[KeyIndex(swarm, peer)].1 == address;
  }

  /** A refused announcement leaves the peers alone, and only an announcement or a question
      touches them at all. */
  lemma OnlyAnnouncementsAdd(c: Crypto, s: Storage, from: Address, request: Request, luck: Luck, now: int, infoHash: Id)
    requires StorageInv(c, s)
    ensures var (s', reply) := Handle(c, s, from, request, luck, now);
            SwarmOf(s'.peers, infoHash) == SwarmOf(s.peers, infoHash) ||
            (request.Put? && request.arguments.Announce? && reply == Pong)
  {
    hide ValidateImmutable, Verified, Promote, Store, Peek, Validate, TokenFor, Refresh, PeersInv, AddPeer, RandomPeers, SwarmOf,
         FromDhtMessage;
    match request
    case GetPeers(target) => RandomPeersKeeps(s.peers, s.maxHashes, s.maxPeers, target, luck.draws, infoHash);
    case Ping =>
    case FindNode(_) =>
    case GetValue(_, _) =>
    case Put(_, _) =>
  }

  lemma PutMutableFrame(c: Crypto, s: Storage, a: PutArguments)
    requires a.StoreMutable?
    ensures PutMutable(c, s, a).0.immutables == s.immutables
  {
  }

  // --- the mutable object ---

  class StorageServer {
    const crypto: Crypto
    const tokens: TokenStore
    const peers: PeersStore
    var immutables: Entries<Bytes>
    var mutables: Entries<MutableItem>
    const maxImmutables: nat
    const maxMutables: nat

    ghost function State(): Storage
      reads this, tokens, peers
    {
      Storage(tokens.State(), peers.infoHashes, immutables, mutables, peers.maxHashes, peers.maxPeers, maxImmutables, maxMutables)
    }

    constructor (crypto: Crypto, tokens: TokenStore, peers: PeersStore, maxImmutables: nat, maxMutables: nat)
      ensures this.crypto == crypto && this.tokens == tokens && this.peers == peers
      ensures State() == Storage(tokens.State(), peers.infoHashes, [], [], peers.maxHashes, peers.maxPeers, maxImmutables, maxMutables)
    {
      this.crypto, this.tokens, this.peers := crypto, tokens, peers;
      this.maxImmutables, this.maxMutables := maxImmutables, maxMutables;
      immutables, mutables := [], [];
    }

    /** A request the filter refuses is not answered and changes nothing; any other one is
        handled after the lazy rotation. */
    method HandleRequest(allowed: bool, from: Address, request: Request, luck: Luck, now: int)
      returns (reply: Option<Reply>)
      modifies this`immutables, this`mutables, tokens, peers
      ensures !allowed ==> reply.None? && State() == old(State())
      ensures allowed ==> reply.Some? && (State(), reply.value) == Handle(crypto, old(State()), from, request, luck, now)
      ensures allowed ==>
                tokens.State() == if now - old(tokens.lastUpdated) > 300_000 then Secrets(old(tokens.currSecret), luck.secret, now)
                                  else old(tokens.State())
      ensures allowed && request.Put? &&
              request.token != TokenFor(from.ip, tokens.currSecret) && request.token != TokenFor(from.ip, tokens.prevSecret) ==>
                reply == Some(Error(203)) && State() == old(State()).(tokens := tokens.State())
    {
      hide TokenFor, Promote, Store, Peek, HasKey, AddPeer, RandomPeers;
      if !allowed {
        return None;
      }
      if now - tokens.lastUpdated > TOKEN_ROTATE_INTERVAL {
        tokens.RotateSecrets(luck.secret, now);
      }
      var token := TokenFor(from.ip, tokens.currSecret);
      match request
      case Ping => return Some(Pong);
      case FindNode(_) => return Some(Nodes);
      case GetPeers(infoHash) =>
        var values := peers.Sample(infoHash, luck.draws);
        return Some(if values.Some? then PeerValues(token, values.value) else NoValues(token));
      case GetValue(target, seqNo) =>
        if seqNo.None? && HasKey(immutables, target) {
          PeekSome(immutables, target);
          var v := Peek(immutables, target).value;
          immutables := Promote(immutables, target);
          return Some(ImmutableValue(token, v));
        }
        var r := HandleGetMutable(token, target, seqNo);
        return Some(r);
      case Put(given, arguments) =>
        if given != TokenFor(from.ip, tokens.currSecret) && given != TokenFor(from.ip, tokens.prevSecret) {
          return Some(Error(203));
        }
        match arguments
        case Announce(infoHash, peer, port, implied) =>
          var address := if implied == Some(true) then from else Address(from.ip, port);
          peers.Announce(infoHash, peer, address);
          return Some(Pong);
        case StoreImmutable(target, v) =>
          if |v| > 1000 {
            return Some(Error(205));
          }
          if !ValidateImmutable(crypto, v, target) {
            return Some(Error(203));
          }
          immutables := Store(immutables, maxImmutables, target, v);
          return Some(Pong);
        case StoreMutable(_, _, _, _, _, _, _) =>
          var r := HandlePutMutable(arguments);
          return Some(r);
    }

    method HandleGetMutable(token: Bytes, target: Id, seqNo: Option<int>) returns (reply: Reply)
      modifies this`mutables
      ensures (State(), reply) == GetMutable(old(State()), token, target, seqNo)
    {
      var found := Peek(mutables, target);
      mutables := Promote(mutables, target);
      match found
      case None => return NoValues(token);
      case Some(item) =>
        if seqNo.Some? && item.seqNo <= seqNo.value {
          return NoMoreRecent(token, item.seqNo);
        }
        return MutableValue(token, item);
    }

    method HandlePutMutable(a: PutArguments) returns (reply: Reply)
      requires a.StoreMutable?
      modifies this`mutables
      ensures (State(), reply) == PutMutable(crypto, old(State()), a)
    {
      if |a.v| > 1000 {
        return Error(205);
      }
      if a.salt.Some? && |a.salt.value| > 64 {
        return Error(207);
      }
      var previous := Peek(mutables, a.target);
      mutables := Promote(mutables, a.target);
      if previous.Some? {
        if a.cas.Some? {
          if previous.value.seqNo != a.cas.value {
            return Error(301);
          }
        }
        if a.seqNo < previous.value.seqNo {
          return Error(302);
        }
      }
      match FromDhtMessage(crypto, a.target, a.k, a.v, a.seqNo, a.sig, a.salt)
      case ItemOk(item) =>
        mutables := Store(mutables, maxMutables, a.target, item);
        return Pong;
      case ItemErr(_) => return Error(206);
    }
  }

  lemma PeekSome<V>(entries: Entries<V>, key: Id)
    requires HasKey(entries, key)
    ensures Peek(entries, key).Some?
  {
  }
}
