/**
  BEP 42 identifiers: the 21-bit prefix an IPv4 address allows, generation and
  validation, as both crates write them (src/common/id.rs and
  mainline-next/src/bep42.rs).
 */
module Bep42 {
  import opened Ids

  /** A socket address. The IP is the 32-bit integer of its four octets. */
  datatype Address = Address(ip: bv32, port: nat)

  const IPV4_MASK: bv32 := 0x030f3fff

  // --- CRC-32C (Castagnoli, reflected) ---

  function CrcBits(crc: bv32, n: nat): bv32
    decreases n
  {
    if n == 0 then crc
    else CrcBits(if crc & 1 == 1 then (crc >> 1) ^ 0x82f63b78 else crc >> 1, n - 1)
  }

  function CrcBytes(crc: bv32, s: Bytes): bv32
    decreases |s|
  {
    if s == [] then crc else CrcBytes(CrcBits(crc ^ (s[0] as bv32), 8), s[1..])
  }

  function Crc32c(s: Bytes): bv32 {
    CrcBytes(0xffffffff, s) ^ 0xffffffff
  }

  function BigEndian(w: bv32): (s: Bytes)
    ensures |s| == 4
  {
    [((w >> 24) & 0xff) as bv8, ((w >> 16) & 0xff) as bv8, ((w >> 8) & 0xff) as bv8, (w & 0xff) as bv8]
  }

  // --- address classes ---

  predicate IsPrivate(ip: bv32) {
    ip >> 24 == 10 || ip >> 20 == 0xac1 || ip >> 16 == 0xc0a8
  }

  /** Private, link-local and loopback addresses may use any identifier. */
  predicate IsExempt(ip: bv32) {
    IsPrivate(ip) || ip >> 16 == 0xa9fe || ip >> 24 == 127
  }

  /** The exempt ranges by their octets: 10/8, 127/8, 172.16/12, 192.168/16 and 169.254/16. */
  lemma ExemptOctets(ip: bv32)
    ensures var a, b := (ip >> 24) as nat, ((ip >> 16) & 0xff) as nat;
            IsExempt(ip) <==> a == 10 || a == 127 || (a == 172 && 16 <= b < 32) || (a == 192 && b == 168) || (a == 169 && b == 254)
  {
  }

  // --- src/common/id.rs ---

  function First21Bits(bytes: Bytes): (p: Bytes)
    requires |bytes| >= 3
  {
    [bytes[0], bytes[1], bytes[2] & 0xf8]
  }

  /** The CRC input: the masked address with the low three bits of `r` on top. */
  function MaskedIp(ip: bv32, r: bv8): bv32 {
    (ip & IPV4_MASK) | ((r as bv32) << 29)
  }

  function IdPrefix(ip: bv32, r: bv8): (p: Bytes)
    ensures |p| == 3
  {
    BigEndian(Crc32c(BigEndian(MaskedIp(ip, r))))[..3]
  }

  predicate IsValidForIp(id: Id, ip: bv32) {
    IsExempt(ip) || First21Bits(id) == First21Bits(IdPrefix(ip, id[19]))
  }

  /** The generated identifier: prefix in the first 21 bits, `r` last, the rest random. */
  function SecureId(bytes: Id, ip: bv32, r: bv8): (id: Id) {
    var prefix := IdPrefix(ip, r);
    bytes[0 := prefix[0]][1 := prefix[1]][2 := (prefix[2] & 0xf8) | (bytes[2] & 0x7)][19 := r]
  }

  lemma MergeBits(p: bv8, b: bv8)
    ensures ((p & 0xf8) | (b & 0x7)) & 0xf8 == p & 0xf8
    ensures ((p & 0xf8) | (b & 0x7)) & 0x7 == b & 0x7
  {
  }

  /** Every generated identifier validates for the address it was generated for. */
  lemma SecureIdIsValid(bytes: Id, ip: bv32, r: bv8)
    ensures IsValidForIp(SecureId(bytes, ip, r), ip)
    ensures SecureId(bytes, ip, r)[3..19] == bytes[3..19]
  {
    hide IdPrefix, IsExempt;
    var prefix := IdPrefix(ip, r);
    MergeBits(prefix[2], bytes[2]);
  }

  /** `from_ipv4_and_r`, overwriting its copy of the random bytes. */
  method FromIpv4AndR(random: Id, ip: bv32, r: bv8) returns (id: Id)
    ensures IsValidForIp(id, ip)
    ensures id[3..19] == random[3..19] && id[19] == r && id[2] & 0x7 == random[2] & 0x7
    ensures id == SecureId(random, ip, r)
  {
    var bytes := random;
    var prefix := IdPrefix(ip, r);
    bytes := bytes[0 := prefix[0]];
    bytes := bytes[1 := prefix[1]];
    bytes := bytes[2 := (prefix[2] & 0xf8) | (bytes[2] & 0x7)];
    bytes := bytes[19 := r];
    id := bytes;
    SecureIdIsValid(random, ip, r);
    MergeBits(prefix[2], random[2]);
  }

  // --- mainline-next/src/bep42.rs ---

  function NextIdPrefix(ip: bv32, random: bv8): (p: Bytes)
    ensures |p| == 3
  {
    var input := (ip & IPV4_MASK) | (((random & 0x7) as bv32) << (32 - 3));
    var bytes := BigEndian(Crc32c(BigEndian(input)));
    [bytes[0], bytes[1], bytes[2] & 0xf8]
  }

  /** `Bep42NodeContact::try_from` succeeds. */
  predicate NextAccepts(id: Id, ip: bv32) {
    IsExempt(ip) ||
    var prefix := NextIdPrefix(ip, id[19]);
    id[0] == prefix[0] && id[1] == prefix[1] && id[2] & 0xf8 == prefix[2]
  }

  /** `Bep42NodeContact::from_random_bytes`, which takes `r` from the last random byte. */
  method FromRandomBytes(ip: bv32, random: Id) returns (id: Id)
    ensures NextAccepts(id, ip)
    ensures id == SecureId(random, ip, random[19])
  {
    hide NextIdPrefix, IdPrefix, IsExempt, IsValidForIp, NextAccepts;
    var prefix := NextIdPrefix(ip, random[19]);
    var bytes := random;
    bytes := bytes[0 := prefix[0]];
    bytes := bytes[1 := prefix[1]];
    bytes := bytes[2 := prefix[2] | (bytes[2] & 0x7)];
    id := bytes;
    PrefixesAgree(ip, random[19]);
    assert id == SecureId(random, ip, random[19]);
    SecureIdIsValid(random, ip, random[19]);
    ValidityTestsCoincide(id, ip);
  }

  lemma TopBits(r: bv8)
    ensures (r as bv32) << 29 == ((r & 0x7) as bv32) << 29
  {
  }

  lemma PrefixesAgree(ip: bv32, r: bv8)
    ensures First21Bits(IdPrefix(ip, r)) == NextIdPrefix(ip, r)
  {
    hide Crc32c, BigEndian, MaskedIp;
    MaskedIpsAgree(ip, r);
  }

  lemma MaskedIpsAgree(ip: bv32, r: bv8)
    ensures MaskedIp(ip, r) == (ip & IPV4_MASK) | (((r & 0x7) as bv32) << (32 - 3))
  {
    TopBits(r);
  }

  /** The two crates accept exactly the same identifiers for every address. */
  lemma ValidityTestsCoincide(id: Id, ip: bv32)
    ensures IsValidForIp(id, ip) <==> NextAccepts(id, ip)
  {
    hide IdPrefix, NextIdPrefix, IsExempt;
    PrefixesAgree(ip, id[19]);
    var p := NextIdPrefix(ip, id[19]);
    assert First21Bits(id) == p <==> id[0] == p[0] && id[1] == p[1] && id[2] & 0xf8 == p[2];
  }

  // --- how many prefixes an address allows ---

  /** The random part of an identifier that BEP 42 reads: three bits. */
  function RandomBits(id: Id): (n: nat)
    ensures n < 8
  {
    (id[19] & 0x7) as nat
  }

  /** For a non-exempt address the three random bits determine the 21-bit prefix. */
  lemma RandomBitsFixPrefix(a: Id, b: Id, ip: bv32)
    requires !IsExempt(ip) && IsValidForIp(a, ip) && IsValidForIp(b, ip)
    requires RandomBits(a) == RandomBits(b)
    ensures First21Bits(a) == First21Bits(b)
  {
    hide Crc32c, BigEndian, IsExempt;
    TopBits(a[19]);
    TopBits(b[19]);
  }

  /** The first test vector published with BEP 42: 124.31.75.21. */
  lemma PublishedVector(id: Id)
    requires id[..3] == [0x5f, 0xbf, 0xbf] && id[19] == 0x01
    ensures IsValidForIp(id, 0x7c1f4b15)
  {
    var m := MaskedIp(0x7c1f4b15, 1);
    assert m == 0x200f0b15;
    assert BigEndian(m) == [0x20, 0x0f, 0x0b, 0x15];
    assert CrcBits(0xffffffdf, 8) == 0x8d3f2270;
    assert CrcBits(0x8d3f227f, 8) == 0x2f06570b;
    assert CrcBits(0x2f065700, 8) == 0x002f0657;
    assert CrcBits(0x002f0642, 8) == 0xa040424d;
  }

  // The other four published vectors.

  /** 21.75.31.124 with the random byte 86. */
  lemma SecondVector(id: Id)
    requires id[..3] == [0x5a, 0x3c, 0xe9] && id[19] == 86
    ensures IsValidForIp(id, 0x154b1f7c)
  {
    var m := MaskedIp(0x154b1f7c, 86);
    assert m == 0xc10b1f7c;
    assert BigEndian(m) == [0xc1, 0x0b, 0x1f, 0x7c];
    assert CrcBits(0xffffff3e, 8) == 0x9c640969;
    assert CrcBits(0x9c640962, 8) == 0x8061879c;
    assert CrcBits(0x80618783, 8) == 0x9126a90b;
    assert CrcBits(0x9126a977, 8) == 0xa5c3164f;
  }

  /** 65.23.51.170 with the random byte 22. */
  lemma ThirdVector(id: Id)
    requires id[..3] == [0xa5, 0xd4, 0x32] && id[19] == 22
    ensures IsValidForIp(id, 0x411733aa)
  {
    var m := MaskedIp(0x411733aa, 22);
    assert m == 0xc10733aa;
    assert BigEndian(m) == [0xc1, 0x07, 0x33, 0xaa];
    assert CrcBits(0xffffff3e, 8) == 0x9c640969;
    assert CrcBits(0x9c64096e, 8) == 0xcd22484c;
    assert CrcBits(0xcd22487f, 8) == 0x2f464a61;
    assert CrcBits(0x2f464acb, 8) == 0x5a2bcbb5;
  }

  /** 84.124.73.14 with the random byte 65. */
  lemma FourthVector(id: Id)
    requires id[..3] == [0x1b, 0x03, 0x21] && id[19] == 65
    ensures IsValidForIp(id, 0x547c490e)
  {
    var m := MaskedIp(0x547c490e, 65);
    assert m == 0x200c090e;
    assert BigEndian(m) == [0x20, 0x0c, 0x09, 0x0e];
    assert CrcBits(0xffffffdf, 8) == 0x8d3f2270;
    assert CrcBits(0x8d3f227c, 8) == 0x3c56a4ff;
    assert CrcBits(0x3c56a4f6, 8) == 0xd5f3de39;
    assert CrcBits(0xd5f3de37, 8) == 0xe4fcde84;
  }

  /** 43.213.53.83 with the random byte 90. */
  lemma FifthVector(id: Id)
    requires id[..3] == [0xe5, 0x6f, 0x6c] && id[19] == 90
    ensures IsValidForIp(id, 0x2bd53553)
  {
    var m := MaskedIp(0x2bd53553, 90);
    assert m == 0x43053553;
    assert BigEndian(m) == [0x43, 0x05, 0x35, 0x53];
    assert CrcBits(0xffffffbc, 8) == 0xffa942e6;
    assert CrcBits(0xffa942e3, 8) == 0xf09ff2ac;
    assert CrcBits(0xf09ff299, 8) == 0xeaeab829;
    assert CrcBits(0xeaeab87a, 8) == 0x1a90968d;
  }
}
