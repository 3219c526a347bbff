/**
  Node identifiers, XOR distance and the order on distances
  (src/common/id.rs and mainline-next/src/distance.rs).

  An identifier is twenty bytes, read as one 160-bit big-endian integer. Both
  crates compute the same bucket number by different code; the lemmas below tie
  that number to the integer value of the XOR.
 */
module Ids {
  const ID_SIZE: nat := 20
  const MAX_DISTANCE: nat := 160

  type Bytes = seq<bv8>
  type Id = s: Bytes | |s| == 20 witness seq(20, _ => 0)

  // --- integers behind byte strings ---

  function Pow2(n: nat): nat {
    if n == 0 then 1 else 2 * Pow2(n - 1)
  }

  /** The big-endian integer a byte string denotes. */
  function Value(s: Bytes): nat {
    if s == [] then 0 else (s[0] as nat) * Pow2(8 * (|s| - 1)) + Value(s[1..])
  }

  lemma {:induction false} Pow2Add(m: nat, n: nat)
    ensures Pow2(m + n) == Pow2(m) * Pow2(n)
  {
    if m > 0 {
      Pow2Add(m - 1, n);
      assert Pow2(m + n) == 2 * Pow2(m - 1 + n);
    }
  }

  lemma {:induction false} Pow2Positive(n: nat)
    ensures Pow2(n) > 0
  {
    if n > 0 { Pow2Positive(n - 1); }
  }

  lemma {:induction false} Pow2Monotone(m: nat, n: nat)
    requires m <= n
    ensures Pow2(m) <= Pow2(n)
    decreases n
  {
    if m < n { Pow2Monotone(m, n - 1); }
  }

  lemma Pow2Small()
    ensures Pow2(1) == 2 && Pow2(2) == 4 && Pow2(3) == 8 && Pow2(4) == 16
    ensures Pow2(5) == 32 && Pow2(6) == 64 && Pow2(7) == 128 && Pow2(8) == 256
  {
    assert Pow2(4) == 16;
    assert Pow2(6) == 64;
  }

  lemma {:induction false} ValueBound(s: Bytes)
    ensures Value(s) < Pow2(8 * |s|)
  {
    if s != [] {
      ValueBound(s[1..]);
      Pow2Small();
      Pow2Add(8, 8 * (|s| - 1));
      var p := Pow2(8 * (|s| - 1));
      Scale(s[0] as nat, 255, p);
    }
  }

  lemma Scale(a: nat, b: nat, p: nat)
    requires a <= b
    ensures a * p <= b * p
  {
  }

  // --- order: bytes compared left to right is the order of the integers ---

  /** The derived `Ord` of a byte array: the first differing byte decides. */
  predicate LexLess(a: Bytes, b: Bytes)
    requires |a| == |b|
  {
    a != [] && (a[0] < b[0] || (a[0] == b[0] && LexLess(a[1..], b[1..])))
  }

  lemma DigitDecides(x: nat, y: nat, p: nat, u: nat, v: nat)
    requires x < y && u < p
    ensures x * p + u < y * p + v
  {
    Scale(x + 1, y, p);
    assert (x + 1) * p == x * p + p;
  }

  lemma {:induction false} HeadDecides(a: Bytes, b: Bytes)
    requires |a| == |b| > 0 && a[0] < b[0]
    ensures Value(a) < Value(b)
  {
    ValueBound(a[1..]);
    DigitDecides(a[0] as nat, b[0] as nat, Pow2(8 * (|a| - 1)), Value(a[1..]), Value(b[1..]));
  }

  lemma TailDecides(a: Bytes, b: Bytes)
    requires |a| == |b| > 0 && a[0] == b[0]
    ensures Value(a) - Value(b) == Value(a[1..]) - Value(b[1..])
  {
  }

  lemma {:induction false} LexLessIsIntegerOrder(a: Bytes, b: Bytes)
    requires |a| == |b|
    ensures LexLess(a, b) <==> Value(a) < Value(b)
    ensures a == b <==> Value(a) == Value(b)
  {
    hide Pow2, Value;
    if a != [] {
      if a[0] < b[0] {
        HeadDecides(a, b);
      } else if b[0] < a[0] {
        HeadDecides(b, a);
      } else {
        TailDecides(a, b);
        LexLessIsIntegerOrder(a[1..], b[1..]);
        assert a == [a[0]] + a[1..] && b == [b[0]] + b[1..];
      }
    }
  }

  // --- XOR and distance ---

  function XorByte(x: bv8, y: bv8): bv8 {
    x ^ y
  }

  function Xor(a: Id, b: Id): (r: Id)
  {
    seq(20, i requires 0 <= i < 20 => XorByte(a[i], b[i]))
  }

  /** Bits needed to write a byte: eight minus its leading zeros. */
  function ByteLength(b: bv8): (n: nat)
    ensures n <= 8
    ensures n == 0 <==> b == 0
  {
    if b >= 128 then 8 else if b >= 64 then 7 else if b >= 32 then 6 else if b >= 16 then 5
    else if b >= 8 then 4 else if b >= 4 then 3 else if b >= 2 then 2 else if b >= 1 then 1 else 0
  }

  /** `bucket_distance` of mainline-next: scan both identifiers for the first differing byte. */
  function DistanceFrom(a: Id, b: Id, i: nat): (d: nat)
    requires i <= 20
    ensures d <= MAX_DISTANCE - 8 * i
    decreases 20 - i
  {
    if i == 20 then 0
    else if XorByte(a[i], b[i]) != 0 then MAX_DISTANCE - 8 * i - (8 - ByteLength(XorByte(a[i], b[i])))
    else DistanceFrom(a, b, i + 1)
  }

  function Distance(a: Id, b: Id): (d: nat)
    ensures d <= MAX_DISTANCE
  {
    DistanceFrom(a, b, 0)
  }

  /** `n` is the bit length of `v`: the least number of bits that can hold it. */
  ghost predicate IsBitLength(v: nat, n: nat) {
    v < Pow2(n) && (n > 0 ==> Pow2(n - 1) <= v)
  }

  lemma BitLengthUnique(v: nat, m: nat, n: nat)
    requires IsBitLength(v, m) && IsBitLength(v, n)
    ensures m == n
  {
    if m < n {
      Pow2Monotone(m, n - 1);
    } else if n < m {
      Pow2Monotone(n, m - 1);
    }
  }

  lemma ByteBitLength(b: bv8)
    ensures IsBitLength(b as nat, ByteLength(b))
  {
    Pow2Small();
    assert Pow2(0) == 1;
  }

  lemma DigitBitLength(digit: nat, n: nat, rest: nat, k: nat)
    requires n > 0 && IsBitLength(digit, n) && rest < Pow2(k)
    ensures IsBitLength(digit * Pow2(k) + rest, n + k)
  {
    Pow2Add(n, k);
    Pow2Add(n - 1, k);
    Scale(Pow2(n - 1), digit, Pow2(k));
    DigitDecides(digit, Pow2(n), Pow2(k), rest, 0);
  }

  /** A leading byte of bit length `n` above `k` lower bytes gives bit length `n + 8k`. */
  lemma {:induction false} LeadingByteBitLength(s: Bytes)
    requires s != [] && s[0] != 0
    ensures IsBitLength(Value(s), ByteLength(s[0]) + 8 * (|s| - 1))
  {
    ByteBitLength(s[0]);
    ValueBound(s[1..]);
    DigitBitLength(s[0] as nat, ByteLength(s[0]), Value(s[1..]), 8 * (|s| - 1));
  }

  lemma {:induction false} DistanceFromIsBitLength(a: Id, b: Id, i: nat)
    requires i <= 20
    ensures IsBitLength(Value(Xor(a, b)[i..]), DistanceFrom(a, b, i))
    decreases 20 - i
  {
    var x := Xor(a, b);
    if i < 20 {
      assert x[i..][0] == XorByte(a[i], b[i]) && x[i..][1..] == x[i + 1..];
      if XorByte(a[i], b[i]) != 0 {
        LeadingByteBitLength(x[i..]);
      } else {
        DistanceFromIsBitLength(a, b, i + 1);
      }
    }
  }

  /** The distance is the bit length of the XOR read as a 160-bit integer. */
  lemma DistanceIsBitLength(a: Id, b: Id)
    ensures IsBitLength(Value(Xor(a, b)), Distance(a, b))
  {
    DistanceFromIsBitLength(a, b, 0);
    assert Xor(a, b)[0..] == Xor(a, b);
  }

  lemma {:induction false} DistanceFromZero(a: Id, b: Id, i: nat)
    requires i <= 20
    ensures DistanceFrom(a, b, i) == 0 <==> a[i..] == b[i..]
    decreases 20 - i
  {
    if i < 20 {
      DistanceFromZero(a, b, i + 1);
      assert a[i..] == [a[i]] + a[i + 1..] && b[i..] == [b[i]] + b[i + 1..];
      XorZero(a[i], b[i]);
    }
  }

  lemma XorZero(x: bv8, y: bv8)
    ensures XorByte(x, y) == 0 <==> x == y
    ensures XorByte(x, y) == XorByte(y, x)
  {
  }

  lemma XorTriangle(x: bv8, y: bv8, z: bv8)
    ensures XorByte(x, z) == XorByte(XorByte(x, y), XorByte(y, z))
    ensures var d := ByteLength(XorByte(x, z)); d <= ByteLength(XorByte(x, y)) || d <= ByteLength(XorByte(y, z))
  {
  }

  lemma {:induction false} DistanceFromSymmetric(a: Id, b: Id, i: nat)
    requires i <= 20
    ensures DistanceFrom(a, b, i) == DistanceFrom(b, a, i)
    decreases 20 - i
  {
    hide ByteLength, XorByte;
    if i < 20 {
      XorZero(a[i], b[i]);
      DistanceFromSymmetric(a, b, i + 1);
    }
  }

  lemma {:induction false} DistanceFromTriangle(a: Id, b: Id, c: Id, i: nat)
    requires i <= 20
    ensures DistanceFrom(a, c, i) <= DistanceFrom(a, b, i) || DistanceFrom(a, c, i) <= DistanceFrom(b, c, i)
    decreases 20 - i
  {
    hide ByteLength, XorByte;
    if i < 20 {
      XorTriangle(a[i], b[i], c[i]);
      if XorByte(a[i], b[i]) == 0 && XorByte(b[i], c[i]) == 0 {
        DistanceFromTriangle(a, b, c, i + 1);
      }
    }
  }

  /** Distance is an ultrametric: zero only on equal identifiers, symmetric, and
      bounded by the larger of the distances through any third identifier. */
  lemma DistanceIsUltrametric(a: Id, b: Id, c: Id)
    ensures Distance(a, b) == 0 <==> a == b
    ensures Distance(a, b) == Distance(b, a)
    ensures Distance(a, c) <= Distance(a, b) || Distance(a, c) <= Distance(b, c)
  {
    DistanceFromZero(a, b, 0);
    assert a[0..] == a && b[0..] == b;
    DistanceFromSymmetric(a, b, 0);
    DistanceFromTriangle(a, b, c, 0);
  }

  /** XOR against a fixed target never confuses two identifiers. */
  lemma XorInjective(a: Id, b: Id, t: Id)
    requires Xor(a, t) == Xor(b, t)
    ensures a == b
  {
    hide XorByte;
    forall i | 0 <= i < 20 ensures a[i] == b[i] {
      var x, y := Xor(a, t)[i], Xor(b, t)[i];
      assert x == XorByte(a[i], t[i]) && y == XorByte(b[i], t[i]);
      XorCancel(a[i], b[i], t[i], x);
    }
  }

  lemma XorCancel(x: bv8, y: bv8, t: bv8, z: bv8)
    requires z == XorByte(x, t) && z == XorByte(y, t)
    ensures x == y
  {
  }

  // --- the imperative forms of src/common/id.rs ---

  /** `Id::xor`: fill a zeroed array byte by byte. */
  method ComputeXor(a: Id, b: Id) returns (r: Id)
    ensures r == Xor(a, b)
  {
    var result := seq(20, _ => 0 as bv8);
    for i := 0 to 20
      invariant |result| == 20
      invariant forall j :: 0 <= j < i ==> result[j] == XorByte(a[j], b[j])
    {
      result := result[i := XorByte(a[i], b[i])];
    }
    r := result;
  }

  /** `Id::leading_zeros`: stop at the first non-zero byte. */
  method LeadingZeros(x: Id) returns (n: nat)
    ensures n <= MAX_DISTANCE
    ensures IsBitLength(Value(x), MAX_DISTANCE - n)
  {
    assert x[0..] == x;
    for i := 0 to 20
      invariant Value(x) == Value(x[i..])
    {
      assert x[i..][1..] == x[i + 1..];
      if x[i] != 0 {
        LeadingByteBitLength(x[i..]);
        return i * 8 + (8 - ByteLength(x[i]));
      }
    }
    return MAX_DISTANCE;
  }

  /** `Id::distance` of the first crate returns the bucket number of the second. */
  method ComputeDistance(a: Id, b: Id) returns (d: nat)
    ensures d == Distance(a, b)
  {
    var x := ComputeXor(a, b);
    var zeros := LeadingZeros(x);
    d := MAX_DISTANCE - zeros;
    DistanceIsBitLength(a, b);
    BitLengthUnique(Value(x), d, Distance(a, b));
  }
}
