/**
  A write token names one IP (src/rpc/server/tokens.rs): the checksum behind it loses nothing of
  the four octets it starts from, whatever secret follows.
 */
module TokenBinding {
  import opened Ids
  import opened Bep42
  import opened Tokens

  function CrcStep(x: bv32): bv32 {
    if x & 1 == 1 then (x >> 1) ^ 0x82f63b78 else x >> 1
  }

  lemma StepInjective(x: bv32, y: bv32)
    requires CrcStep(x) == CrcStep(y)
    ensures x == y
  {
  }

  /** Bits that are not yet at the low end only move. */
  lemma StepShifts(x: bv32, z: bv32)
    requires z & 0x80000000 == 0
    ensures CrcStep(x ^ (z << 1)) == CrcStep(x) ^ z
  {
  }

  lemma {:induction false} BitsInjective(x: bv32, y: bv32, n: nat)
    requires CrcBits(x, n) == CrcBits(y, n)
    ensures x == y
    decreases n
  {
    if n > 0 {
      assert CrcBits(x, n) == CrcBits(CrcStep(x), n - 1) && CrcBits(y, n) == CrcBits(CrcStep(y), n - 1);
      BitsInjective(CrcStep(x), CrcStep(y), n - 1);
      StepInjective(x, y);
    }
  }

  // Exclusive or and shifts under names of their own, so that the solver need not look inside.

  function Mix(x: bv32, y: bv32): bv32 {
    x ^ y
  }

  function Wide(b: bv8): bv32 {
    b as bv32
  }

  function Up4(z: bv32): bv32 {
    z << 4
  }

  function Up8(z: bv32): bv32 {
    Up4(Up4(z))
  }

  /** The four highest bits are clear. */
  predicate Clear4(z: bv32) {
    z & 0xf0000000 == 0
  }

  lemma MixCancels(x: bv32, y: bv32, b: bv32)
    requires Mix(x, b) == Mix(y, b)
    ensures x == y
  {
    assert x == (x ^ b) ^ b && y == (y ^ b) ^ b;
  }

  /** One byte of `CrcBytes`. */
  function Feed(x: bv32, b: bv8): bv32 {
    CrcBits(Mix(x, Wide(b)), 8)
  }

  lemma FeedInjective(x: bv32, y: bv32, b: bv8)
    requires Feed(x, b) == Feed(y, b)
    ensures x == y
  {
    hide CrcBits, Mix, Wide;
    BitsInjective(Mix(x, Wide(b)), Mix(y, Wide(b)), 8);
    MixCancels(x, y, Wide(b));
  }

  lemma BytesUnfold(x: bv32, s: Bytes)
    requires s != []
    ensures CrcBytes(x, s) == CrcBytes(Feed(x, s[0]), s[1..])
  {
    hide CrcBits;
  }

  lemma {:induction false} BytesInjective(x: bv32, y: bv32, s: Bytes)
    requires CrcBytes(x, s) == CrcBytes(y, s)
    ensures x == y
    decreases |s|
  {
    if s == [] {
      assert CrcBytes(x, s) == x && CrcBytes(y, s) == y;
    } else {
      hide CrcBytes, Feed;
      BytesUnfold(x, s);
      BytesUnfold(y, s);
      BytesInjective(Feed(x, s[0]), Feed(y, s[0]), s[1..]);
      FeedInjective(x, y, s[0]);
    }
  }

  // --- what waits behind a byte ---

  lemma BitsUnfold(x: bv32, n: nat)
    ensures CrcBits(x, n + 1) == CrcBits(CrcStep(x), n)
  {
  }

  lemma HighBitsMove(x: bv32, z: bv32, n: nat)
    requires z & 0x80000000 == 0
    ensures CrcBits(x ^ (z << 1), n + 1) == CrcBits(CrcStep(x) ^ z, n)
  {
    hide CrcBits, CrcStep;
    BitsUnfold(x ^ (z << 1), n);
    StepShifts(x, z);
  }

  function TwoSteps(x: bv32): bv32 {
    CrcStep(CrcStep(x))
  }

  function FourSteps(x: bv32): bv32 {
    TwoSteps(TwoSteps(x))
  }

  lemma HighBitsMoveTwo(x: bv32, z: bv32, n: nat)
    requires z & 0xc0000000 == 0
    ensures CrcBits(x ^ (z << 2), n + 2) == CrcBits(TwoSteps(x) ^ z, n)
  {
    hide CrcBits, CrcStep;
    HighBitsMove(x, z << 1, n + 1);
    HighBitsMove(CrcStep(x), z, n);
    assert (z << 1) << 1 == z << 2 && (z << 1) & 0x80000000 == 0;
  }

  lemma HighBitsMoveFour(x: bv32, z: bv32, n: nat)
    requires Clear4(z)
    ensures CrcBits(Mix(x, Up4(z)), n + 4) == CrcBits(Mix(FourSteps(x), z), n)
  {
    hide CrcBits, TwoSteps;
    HighBitsMoveTwo(x, z << 2, n + 2);
    HighBitsMoveTwo(TwoSteps(x), z, n);
    assert (z << 2) << 2 == z << 4 && (z << 2) & 0xc0000000 == 0;
  }

  /** Three bytes that wait behind one come through its eight steps unchanged. */
  lemma ByteShifts(x: bv32, z: bv32)
    requires Clear4(z) && Clear4(Up4(z))
    ensures CrcBits(Mix(x, Up8(z)), 8) == Mix(CrcBits(x, 8), z)
  {
    hide CrcBits, FourSteps, Mix, Up4, Clear4;
    HighBitsMoveFour(x, Up4(z), 4);
    HighBitsMoveFour(FourSteps(x), z, 0);
    EightSteps(x);
    NoSteps(Mix(FourSteps(FourSteps(x)), z));
  }

  lemma NoSteps(x: bv32)
    ensures CrcBits(x, 0) == x
  {
  }

  lemma {:induction false} BitsSplit(x: bv32, m: nat, n: nat)
    ensures CrcBits(x, m + n) == CrcBits(CrcBits(x, m), n)
    decreases m
  {
    if m == 0 {
      NoSteps(x);
    } else {
      hide CrcBits, CrcStep;
      BitsUnfold(x, m - 1 + n);
      BitsUnfold(x, m - 1);
      BitsSplit(CrcStep(x), m - 1, n);
    }
  }

  lemma TwoIs(x: bv32)
    ensures CrcBits(x, 2) == TwoSteps(x)
  {
    hide CrcBits, CrcStep;
    BitsUnfold(x, 1);
    BitsUnfold(CrcStep(x), 0);
    NoSteps(TwoSteps(x));
  }

  lemma FourIs(x: bv32)
    ensures CrcBits(x, 4) == FourSteps(x)
  {
    hide CrcBits, TwoSteps;
    TwoIs(x);
    TwoIs(TwoSteps(x));
    BitsSplit(x, 2, 2);
  }

  lemma EightSteps(x: bv32)
    ensures CrcBits(x, 8) == FourSteps(FourSteps(x))
  {
    hide CrcBits, FourSteps;
    FourIs(x);
    FourIs(FourSteps(x));
    BitsSplit(x, 4, 4);
  }

  // --- four octets ---

  /** The octets in the order in which they are consumed, the first one lowest. */
  function Packed(s: Bytes): bv32
    decreases |s|
  {
    if s == [] then 0 else Mix(Wide(s[0]), Up8(Packed(s[1..])))
  }

  lemma MixLaws(x: bv32, y: bv32, z: bv32)
    ensures Mix(x, Mix(y, z)) == Mix(Mix(x, y), z) && Mix(x, 0) == x && Up8(0) == 0
  {
  }

  lemma MixFits(b: bv8, z: bv32)
    ensures z == 0 ==> Mix(Wide(b), Up8(z)) & 0xffffff00 == 0
    ensures z & 0xffffff00 == 0 ==> Mix(Wide(b), Up8(z)) & 0xffff0000 == 0
    ensures z & 0xffff0000 == 0 ==> Mix(Wide(b), Up8(z)) & 0xff000000 == 0
    ensures z & 0xffffff00 == 0 ==> z & 0xffff0000 == 0
    ensures z & 0xffff0000 == 0 ==> z & 0xff000000 == 0
    ensures z & 0xff000000 == 0 ==> Clear4(z) && Clear4(Up4(z))
  {
  }

  lemma PackedFits(s: Bytes)
    requires |s| <= 3
    ensures Clear4(Packed(s)) && Clear4(Up4(Packed(s)))
  {
    hide Mix, Up4, Wide, Clear4;
    MixFits(0, 0);
    if s != [] {
      var t := s[1..];
      if t != [] {
        var u := t[1..];
        if u != [] {
          assert u[1..] == [];
          MixFits(u[0], 0);
        }
        MixFits(t[0], Packed(u));
      }
      MixFits(s[0], Packed(t));
      MixFits(0, Packed(s));
    }
  }

  /** Up to four bytes can be fed all at once. */
  lemma {:induction false} FedAtOnce(x: bv32, s: Bytes)
    requires |s| <= 4
    ensures CrcBits(Mix(x, Packed(s)), 8 * |s|) == CrcBytes(x, s)
    decreases |s|
  {
    if s == [] {
      MixLaws(x, 0, 0);
      NoSteps(x);
    } else {
      hide CrcBits, CrcBytes, Mix, Wide, Up8, Clear4, Up4;
      var t := s[1..];
      var y := Mix(x, Wide(s[0]));
      MixLaws(x, Wide(s[0]), Up8(Packed(t)));
      BitsSplit(Mix(y, Up8(Packed(t))), 8, 8 * |t|);
      PackedFits(t);
      ByteShifts(y, Packed(t));
      BytesUnfold(x, s);
      FedAtOnce(Feed(x, s[0]), t);
    }
  }

  lemma BigEndianInjective(a: bv32, b: bv32)
    requires BigEndian(a) == BigEndian(b)
    ensures a == b
  {
    var s, t := BigEndian(a), BigEndian(b);
    assert s[0] == t[0] && s[1] == t[1] && s[2] == t[2] && s[3] == t[3];
  }

  lemma MixSplits(b: bv8, z: bv32, c: bv8, w: bv32)
    requires Clear4(z) && Clear4(Up4(z)) && Clear4(w) && Clear4(Up4(w))
    requires Mix(Wide(b), Up8(z)) == Mix(Wide(c), Up8(w))
    ensures b == c && z == w
  {
  }

  lemma {:induction false} PackedInjective(s: Bytes, t: Bytes)
    requires |s| == |t| <= 4 && Packed(s) == Packed(t)
    ensures s == t
    decreases |s|
  {
    hide Mix, Wide, Up8, Up4, Clear4;
    if s != [] {
      PackedFits(s[1..]);
      PackedFits(t[1..]);
      MixSplits(s[0], Packed(s[1..]), t[0], Packed(t[1..]));
      PackedInjective(s[1..], t[1..]);
      assert s == [s[0]] + s[1..] && t == [t[0]] + t[1..];
    }
  }

  lemma OctetsInjective(x: bv32, a: bv32, b: bv32)
    requires CrcBytes(x, BigEndian(a)) == CrcBytes(x, BigEndian(b))
    ensures a == b
  {
    hide CrcBytes, CrcBits, Packed, Mix;
    FedAtOnce(x, BigEndian(a));
    FedAtOnce(x, BigEndian(b));
    BitsInjective(Mix(x, Packed(BigEndian(a))), Mix(x, Packed(BigEndian(b))), 32);
    MixCancelsLeft(x, Packed(BigEndian(a)), Packed(BigEndian(b)));
    PackedInjective(BigEndian(a), BigEndian(b));
    BigEndianInjective(a, b);
  }

  lemma ChecksumInjective(s: Bytes, t: Bytes)
    requires BigEndian(Crc32c(s)) == BigEndian(Crc32c(t))
    ensures CrcBytes(0xffffffff, s) == CrcBytes(0xffffffff, t)
  {
    hide CrcBytes, BigEndian, Crc32c, Mix;
    BigEndianInjective(Crc32c(s), Crc32c(t));
    CrcIsMix(s);
    CrcIsMix(t);
    MixCancels(CrcBytes(0xffffffff, s), CrcBytes(0xffffffff, t), 0xffffffff);
  }

  lemma CrcIsMix(s: Bytes)
    ensures Crc32c(s) == Mix(CrcBytes(0xffffffff, s), 0xffffffff)
  {
    hide CrcBytes;
  }

  /** Under one secret, different IPs are given different tokens: a token is accepted under the
      secret it was made with from no IP but the one it was given to. */
  lemma TokensTellIpsApart(a: bv32, b: bv32, secret: Bytes)
    requires TokenFor(a, secret) == TokenFor(b, secret)
    ensures a == b
  {
    hide Crc32c, CrcBytes, BigEndian;
    ChecksumInjective(BigEndian(a) + secret, BigEndian(b) + secret);
    BytesSplit(0xffffffff, BigEndian(a), secret);
    BytesSplit(0xffffffff, BigEndian(b), secret);
    BytesInjective(CrcBytes(0xffffffff, BigEndian(a)), CrcBytes(0xffffffff, BigEndian(b)), secret);
    OctetsInjective(0xffffffff, a, b);
  }

  lemma MixCancelsLeft(x: bv32, y: bv32, z: bv32)
    requires Mix(x, y) == Mix(x, z)
    ensures y == z
  {
    assert y == x ^ (x ^ y) && z == x ^ (x ^ z);
  }

  lemma {:induction false} BytesSplit(crc: bv32, a: Bytes, b: Bytes)
    ensures CrcBytes(crc, a + b) == CrcBytes(CrcBytes(crc, a), b)
    decreases |a|
  {
    hide CrcBits;
    if a == [] {
      assert a + b == b;
    } else {
      BytesSplit(CrcBits(crc ^ (a[0] as bv32), 8), a[1..], b);
      assert (a + b)[1..] == a[1..] + b;
    }
  }
}
