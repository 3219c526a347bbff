/**
  BEP 44 items (src/common/mutable.rs and src/common/immutable.rs): the byte string
  that is signed, the checks on a received item, and the choice of the most recent one.
  SHA-1 and Ed25519 are given as functions; every statement holds for all of them.
 */
module MutableItems {
  import opened Ids
  import opened Nodes

  /** `sha1`, the acceptance of 32 bytes as a verifying key, and signature verification. */
  datatype Crypto = Crypto(sha1: Bytes -> Id, isKey: Bytes -> bool, verify: (Bytes, Bytes, Bytes) -> bool)

  // --- decimal numbers ---

  const COLON: bv8 := 58
  const MINUS: bv8 := 45
  const LETTER_E: bv8 := 101

  function Digit(d: nat): bv8
    requires d < 10
  {
    (48 + d) as bv8
  }

  function Decimal(n: nat): (s: Bytes)
    ensures s != []
    ensures forall b :: b in s ==> 48 <= b <= 57
  {
    if n < 10 then [Digit(n)] else Decimal(n / 10) + [Digit(n % 10)]
  }

  function DecimalInt(i: int): (s: Bytes)
    ensures forall b :: b in s ==> b == MINUS || 48 <= b <= 57
  {
    if i < 0 then [MINUS] + Decimal(-i) else Decimal(i)
  }

  lemma DigitInjective(c: nat, d: nat)
    requires c < 10 && d < 10 && Digit(c) == Digit(d)
    ensures c == d
  {
  }

  lemma {:induction false} DecimalInjective(m: nat, n: nat)
    requires Decimal(m) == Decimal(n)
    ensures m == n
  {
    hide Digit;
    var s, t := Decimal(m), Decimal(n);
    assert s[|s| - 1] == Digit(m % 10) && t[|t| - 1] == Digit(n % 10);
    DigitInjective(m % 10, n % 10);
    if m >= 10 && n >= 10 {
      assert s[..|s| - 1] == Decimal(m / 10) && t[..|t| - 1] == Decimal(n / 10);
      DecimalInjective(m / 10, n / 10);
    }
  }

  lemma DecimalIntInjective(i: int, j: int)
    requires DecimalInt(i) == DecimalInt(j)
    ensures i == j
  {
    hide Decimal;
    var s, t := DecimalInt(i), DecimalInt(j);
    assert s[0] in s && t[0] in t;
    if i < 0 && j < 0 {
      assert s[1..] == Decimal(-i) && t[1..] == Decimal(-j);
      DecimalInjective(-i, -j);
    } else if i >= 0 && j >= 0 {
      DecimalInjective(i, j);
    } else {
      MinusIsNoDigit(i, j);
    }
  }

  lemma MinusIsNoDigit(i: int, j: int)
    requires (i < 0) != (j < 0)
    ensures DecimalInt(i) != DecimalInt(j)
  {
    assert Decimal(if i < 0 then j else i)[0] in Decimal(if i < 0 then j else i);
  }

  // --- the signed byte string ---

  const SALT_PREFIX: Bytes := [52, 58, 115, 97, 108, 116]       // 4:salt
  const SEQ_PREFIX: Bytes := [51, 58, 115, 101, 113, 105]       // 3:seqi
  const VALUE_PREFIX: Bytes := [101, 49, 58, 118]               // e1:v

  /** A bencoded byte string: length, colon, bytes. */
  function Sized(v: Bytes): Bytes {
    Decimal(|v|) + [COLON] + v
  }

  function EncodeSignable(seqNo: int, value: Bytes, salt: Option<Bytes>): Bytes {
    (if salt.Some? then SALT_PREFIX + Sized(salt.value) else [])
    + (SEQ_PREFIX + DecimalInt(seqNo) + VALUE_PREFIX + Sized(value))
  }

  /** `encode_signable`, extending its buffer. */
  method ComputeSignable(seqNo: int, value: Bytes, salt: Option<Bytes>) returns (signable: Bytes)
    ensures signable == EncodeSignable(seqNo, value, salt)
  {
    signable := [];
    if salt.Some? {
      signable := signable + (SALT_PREFIX + Decimal(|salt.value|) + [COLON]);
      signable := signable + salt.value;
      assert signable == SALT_PREFIX + Sized(salt.value);
    }
    ghost var head := signable;
    signable := signable + (SEQ_PREFIX + DecimalInt(seqNo) + VALUE_PREFIX + Decimal(|value|) + [COLON]);
    signable := signable + value;
    assert signable == head + (SEQ_PREFIX + DecimalInt(seqNo) + VALUE_PREFIX + Sized(value));
  }

  /** A separator that occurs in neither head splits equal strings at the same place. */
  lemma SplitAtSeparator(a: Bytes, x: Bytes, b: Bytes, y: Bytes, sep: bv8)
    requires sep !in a && sep !in b && a + [sep] + x == b + [sep] + y
    ensures a == b && x == y
  {
    var s := a + [sep] + x;
    assert s[|a|] == sep && s[|b|] == sep;
    assert |a| == |b|;
    assert a == s[..|a|] && b == s[..|b|];
    assert x == s[|a| + 1..] && y == s[|b| + 1..];
  }

  /** A sized string followed by anything can be read back in one way only. */
  lemma SizedPrefixFree(v: Bytes, x: Bytes, w: Bytes, y: Bytes)
    requires Sized(v) + x == Sized(w) + y
    ensures v == w && x == y
  {
    hide Decimal;
    var s := Sized(v) + x;
    assert s == Decimal(|v|) + [COLON] + (v + x);
    assert s == Decimal(|w|) + [COLON] + (w + y);
    SplitAtSeparator(Decimal(|v|), v + x, Decimal(|w|), w + y, COLON);
    DecimalInjective(|v|, |w|);
    assert v == (v + x)[..|v|] && w == (w + y)[..|v|];
    assert x == (v + x)[|v|..] && y == (w + y)[|v|..];
  }

  lemma DropPrefix(p: Bytes, x: Bytes, y: Bytes)
    requires p + x == p + y
    ensures x == y
  {
    assert x == (p + x)[|p|..] && y == (p + y)[|p|..];
  }

  lemma BodyInjective(seqNo: int, value: Bytes, seqNo': int, value': Bytes)
    requires SEQ_PREFIX + DecimalInt(seqNo) + VALUE_PREFIX + Sized(value) ==
             SEQ_PREFIX + DecimalInt(seqNo') + VALUE_PREFIX + Sized(value')
    ensures seqNo == seqNo' && value == value'
  {
    hide DecimalInt, Sized;
    var tail := VALUE_PREFIX[1..];
    var d, d' := DecimalInt(seqNo), DecimalInt(seqNo');
    assert SEQ_PREFIX + d + VALUE_PREFIX + Sized(value) == SEQ_PREFIX + (d + [LETTER_E] + (tail + Sized(value)));
    assert SEQ_PREFIX + d' + VALUE_PREFIX + Sized(value') == SEQ_PREFIX + (d' + [LETTER_E] + (tail + Sized(value')));
    DropPrefix(SEQ_PREFIX, d + [LETTER_E] + (tail + Sized(value)), d' + [LETTER_E] + (tail + Sized(value')));
    SplitAtSeparator(d, tail + Sized(value), d', tail + Sized(value'), LETTER_E);
    DecimalIntInjective(seqNo, seqNo');
    DropPrefix(tail, Sized(value), Sized(value'));
    assert Sized(value) + [] == Sized(value) && Sized(value') + [] == Sized(value');
    SizedPrefixFree(value, [], value', []);
  }

  /** One signed byte string denotes one item: sequence number, value and salt are all
      recovered, an absent salt differs from an empty one, and negative numbers are safe. */
  lemma EncodeSignableInjective(seqNo: int, value: Bytes, salt: Option<Bytes>,
                                seqNo': int, value': Bytes, salt': Option<Bytes>)
    requires EncodeSignable(seqNo, value, salt) == EncodeSignable(seqNo', value', salt')
    ensures seqNo == seqNo' && value == value' && salt == salt'
  {
    hide DecimalInt, Sized;
    var body := SEQ_PREFIX + DecimalInt(seqNo) + VALUE_PREFIX + Sized(value);
    var body' := SEQ_PREFIX + DecimalInt(seqNo') + VALUE_PREFIX + Sized(value');
    var e, e' := EncodeSignable(seqNo, value, salt), EncodeSignable(seqNo', value', salt');
    assert salt.None? ==> e == body;
    assert salt'.None? ==> e' == body';
    assert e[0] == (if salt.Some? then 52 else 51) && e'[0] == (if salt'.Some? then 52 else 51);
    if salt.Some? && salt'.Some? {
      assert e == SALT_PREFIX + (Sized(salt.value) + body);
      assert e' == SALT_PREFIX + (Sized(salt'.value) + body');
      DropPrefix(SALT_PREFIX, Sized(salt.value) + body, Sized(salt'.value) + body');
      SizedPrefixFree(salt.value, body, salt'.value, body');
    }
    BodyInjective(seqNo, value, seqNo', value');
  }

  // --- items ---

  datatype MutableItem = MutableItem(target: Id, key: Bytes, seqNo: int, value: Bytes, signature: Bytes,
                                     salt: Option<Bytes>)

  datatype MutableError = InvalidSignature | InvalidPublicKey | InvalidTarget

  datatype ItemResult = ItemOk(item: MutableItem) | ItemErr(error: MutableError)

  function TargetFromKey(c: Crypto, key: Bytes, salt: Option<Bytes>): Id {
    c.sha1(key + (if salt.Some? then salt.value else []))
  }

  /** What holding an item means: its signature covers it and its key and salt name its target. */
  predicate Verified(c: Crypto, item: MutableItem) {
    && |item.key| == 32 && c.isKey(item.key) && |item.signature| == 64
    && c.verify(item.key, EncodeSignable(item.seqNo, item.value, item.salt), item.signature)
    && TargetFromKey(c, item.key, item.salt) == item.target
  }

  /** `from_dht_message`: succeeds exactly on a verified item and returns it unchanged. */
  function FromDhtMessage(c: Crypto, target: Id, key: Bytes, v: Bytes, seqNo: int, signature: Bytes,
                          salt: Option<Bytes>): (r: ItemResult)
    ensures r.ItemOk? <==>
              && |key| == 32 && c.isKey(key) && |signature| == 64
              && c.verify(key, EncodeSignable(seqNo, v, salt), signature)
              && c.sha1(if salt.Some? then key + salt.value else key) == target
    ensures r.ItemOk? <==> Verified(c, MutableItem(target, key, seqNo, v, signature, salt))
    ensures r.ItemOk? ==> r.item == MutableItem(target, key, seqNo, v, signature, salt)
  {
    assert key + [] == key;
    if |key| != 32 || !c.isKey(key) then ItemErr(InvalidPublicKey)
    else if |signature| != 64 then ItemErr(InvalidSignature)
    else if !c.verify(key, EncodeSignable(seqNo, v, salt), signature) then ItemErr(InvalidSignature)
    else if TargetFromKey(c, key, salt) != target then ItemErr(InvalidTarget)
    else ItemOk(MutableItem(target, key, seqNo, v, signature, salt))
  }

  /** `validate_immutable`. */
  predicate ValidateImmutable(c: Crypto, v: Bytes, target: Id) {
    c.sha1(Sized(v)) == target
  }

  const HELLO_WORLD: Bytes := [72, 101, 108, 108, 111, 32, 119, 111, 114, 108, 100, 33]

  /** Two encodings written out: sequence number 4 and "Hello world!", without a salt and with
      the salt "foobar"; and the head of one with a negative number. */
  lemma SignableExamples()
    ensures EncodeSignable(4, HELLO_WORLD, None) ==
            [51, 58, 115, 101, 113, 105, 52, 101, 49, 58, 118, 49, 50, 58] + HELLO_WORLD
    ensures EncodeSignable(4, HELLO_WORLD, Some([102, 111, 111, 98, 97, 114])) ==
            [52, 58, 115, 97, 108, 116, 54, 58, 102, 111, 111, 98, 97, 114] + EncodeSignable(4, HELLO_WORLD, None)
    ensures EncodeSignable(-1, [], None) == [51, 58, 115, 101, 113, 105, 45, 49, 101, 49, 58, 118, 48, 58]
  {
    assert Digit(0) == 48 && Digit(1) == 49 && Digit(2) == 50 && Digit(4) == 52 && Digit(6) == 54;
    assert Decimal(12) == Decimal(1) + [Digit(2)];
  }

  /** An immutable value is addressed by the hash of its bencoding: "2:hi" for "hi". */
  lemma ImmutableExample(c: Crypto, target: Id)
    ensures ValidateImmutable(c, [104, 105], target) <==> c.sha1([50, 58, 104, 105]) == target
  {
    assert Digit(2) == 50;
    assert Sized([104, 105]) == [50, 58, 104, 105];
  }

  // --- the most recent item ---

  /** Slice order: lexicographic, a proper prefix being smaller. */
  predicate AtLeast(a: Bytes, b: Bytes) {
    b == [] || (a != [] && (a[0] > b[0] || (a[0] == b[0] && AtLeast(a[1..], b[1..]))))
  }

  /** `a` is kept in favour of `b`. */
  predicate NotOlder(a: MutableItem, b: MutableItem) {
    a.seqNo > b.seqNo || (a.seqNo == b.seqNo && AtLeast(a.value, b.value))
  }

  function MostRecent(current: Option<MutableItem>, item: MutableItem): Option<MutableItem> {
    if current.Some? && NotOlder(current.value, item) then current else Some(item)
  }

  function FoldMostRecent(items: seq<MutableItem>): Option<MutableItem> {
    if items == [] then None else MostRecent(FoldMostRecent(items[..|items| - 1]), items[|items| - 1])
  }

  lemma {:induction false} AtLeastIsTotalOrder(a: Bytes, b: Bytes, c: Bytes)
    ensures AtLeast(a, b) || AtLeast(b, a)
    ensures AtLeast(a, b) && AtLeast(b, c) ==> AtLeast(a, c)
    ensures AtLeast(a, b) && AtLeast(b, a) ==> a == b
  {
    if a != [] && b != [] {
      if c != [] { AtLeastIsTotalOrder(a[1..], b[1..], c[1..]); }
      else { AtLeastIsTotalOrder(a[1..], b[1..], []); }
      assert a == [a[0]] + a[1..] && b == [b[0]] + b[1..];
    }
  }

  lemma NotOlderIsTotal(a: MutableItem, b: MutableItem, c: MutableItem)
    ensures NotOlder(a, b) || NotOlder(b, a)
    ensures NotOlder(a, b) && NotOlder(b, c) ==> NotOlder(a, c)
  {
    hide AtLeast;
    AtLeastIsTotalOrder(a.value, b.value, c.value);
  }

  /** The fold returns one of the items, and none of them is newer. */
  lemma {:induction false} FoldIsMaximum(items: seq<MutableItem>)
    requires items != []
    ensures FoldMostRecent(items).Some? && FoldMostRecent(items).value in items
    ensures forall i :: i in items ==> NotOlder(FoldMostRecent(items).value, i)
  {
    hide NotOlder;
    var init, last := items[..|items| - 1], items[|items| - 1];
    assert items == init + [last];
    NotOlderIsTotal(last, last, last);
    if init != [] {
      FoldIsMaximum(init);
      var best := FoldMostRecent(init).value;
      forall i | i in init ensures NotOlder(FoldMostRecent(items).value, i) {
        NotOlderIsTotal(last, best, i);
      }
    }
  }

  lemma {:induction false} AtLeastMeans(a: Bytes, b: Bytes)
    requires AtLeast(a, b)
    ensures b <= a || exists k :: 0 <= k < |a| && k < |b| && a[..k] == b[..k] && a[k] > b[k]
  {
    if b != [] {
      if a[0] > b[0] {
        assert a[..0] == b[..0];
      } else {
        AtLeastMeans(a[1..], b[1..]);
        assert a == [a[0]] + a[1..] && b == [b[0]] + b[1..];
        if k :| 0 <= k < |a| - 1 && k < |b| - 1 && a[1..][..k] == b[1..][..k] && a[1..][k] > b[1..][k] {
          assert a[..k + 1] == [a[0]] + a[1..][..k] && b[..k + 1] == [b[0]] + b[1..][..k];
          assert a[k + 1] > b[k + 1];
        }
      }
    }
  }

  /** The chosen item has the highest sequence number; among those, no value is larger than its
      own: each is a prefix of it, or smaller at the first byte that differs. */
  lemma ChosenIsMostRecent(items: seq<MutableItem>)
    requires items != []
    ensures FoldMostRecent(items).Some? && FoldMostRecent(items).value in items
    ensures var best := FoldMostRecent(items).value;
            forall i :: i in items ==>
              && best.seqNo >= i.seqNo
              && (best.seqNo == i.seqNo ==>
                    || i.value <= best.value
                    || exists k :: 0 <= k < |best.value| && k < |i.value|
                                   && best.value[..k] == i.value[..k] && best.value[k] > i.value[k])
  {
    hide FoldMostRecent, AtLeast;
    FoldIsMaximum(items);
    var best := FoldMostRecent(items).value;
    forall i | i in items && best.seqNo == i.seqNo
      ensures || i.value <= best.value
              || exists k :: 0 <= k < |best.value| && k < |i.value|
                             && best.value[..k] == i.value[..k] && best.value[k] > i.value[k]
    {
      assert NotOlder(best, i);
      AtLeastMeans(best.value, i.value);
    }
    forall i | i in items ensures best.seqNo >= i.seqNo {
      assert NotOlder(best, i);
    }
  }

  /** The order in which responses arrive does not change what is chosen. */
  lemma FoldIgnoresOrder(items: seq<MutableItem>, others: seq<MutableItem>)
    requires items != [] && multiset(items) == multiset(others)
    ensures others != []
    ensures FoldMostRecent(items).Some? && FoldMostRecent(others).Some?
    ensures FoldMostRecent(items).value.seqNo == FoldMostRecent(others).value.seqNo
    ensures FoldMostRecent(items).value.value == FoldMostRecent(others).value.value
  {
    assert items[0] in multiset(others);
    FoldIsMaximum(items);
    FoldIsMaximum(others);
    var a, b := FoldMostRecent(items).value, FoldMostRecent(others).value;
    assert a in multiset(items) && b in multiset(others);
    assert a in others && b in items;
    assert NotOlder(a, b) && NotOlder(b, a);
    AtLeastIsTotalOrder(a.value, b.value, a.value);
  }
}
