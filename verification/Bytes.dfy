/** Octets and the little-endian integers that both wire formats are built from. */
module Bytes {

  type byte = x: int | 0 <= x < 256

  const U16_LIMIT: nat := 0x1_0000
  const U32_LIMIT: nat := 0x1_0000_0000
  const U64_LIMIT: nat := 0x1_0000_0000_0000_0000

  function U16(v: nat): (b: seq<byte>)
    requires v < U16_LIMIT
    ensures |b| == 2
  {
    [v % 256, v / 256]
  }

  function U32(v: nat): (b: seq<byte>)
    requires v < U32_LIMIT
    ensures |b| == 4
  {
    [v % 256, v / 256 % 256, v / 65536 % 256, v / 16777216]
  }

  function U64(v: nat): (b: seq<byte>)
    requires v < U64_LIMIT
    ensures |b| == 8
  {
    U32(v % U32_LIMIT) + U32(v / U32_LIMIT)
  }

  function ReadU16(s: seq<byte>, at: nat): (v: nat)
    requires at + 2 <= |s|
    ensures v < U16_LIMIT
  {
    s[at] as int + 256 * s[at + 1] as int
  }

  function ReadU32(s: seq<byte>, at: nat): (v: nat)
    requires at + 4 <= |s|
    ensures v < U32_LIMIT
  {
    s[at] as int + 256 * s[at + 1] as int + 65536 * s[at + 2] as int + 16777216 * s[at + 3] as int
  }

  function ReadU64(s: seq<byte>, at: nat): (v: nat)
    requires at + 8 <= |s|
    ensures v < U64_LIMIT
  {
    ReadU32(s, at) + U32_LIMIT * ReadU32(s, at + 4)
  }

  function Power256(k: nat): (p: nat)
    ensures p > 0
  {
    if k == 0 then 1 else 256 * Power256(k - 1)
  }

  /** Little-endian: the octet at place `k` has the weight 256 to the `k`. */
  lemma LittleEndian(v: nat, k: nat)
    ensures v < U16_LIMIT && k < 2 ==> U16(v)[k] == v / Power256(k) % 256
    ensures v < U32_LIMIT && k < 4 ==> U32(v)[k] == v / Power256(k) % 256
  {
    assert Power256(1) == 256 && Power256(2) == 65536 && Power256(3) == 16777216;
    hide Power256;
  }

  lemma LittleEndian64(v: nat, k: nat)
    requires v < U64_LIMIT && k < 8
    ensures U64(v)[k] == v / Power256(k) % 256
  {
    var low, high := v % U32_LIMIT, v / U32_LIMIT;
    if k < 4 {
      LittleEndian(low, k);
      LowOctets(v, k);
    } else {
      LittleEndian(high, k - 4);
      HighOctets(v, k - 4);
    }
    hide U32, Power256;
  }

  lemma LowOctets(v: nat, k: nat)
    requires k < 4
    ensures v % U32_LIMIT / Power256(k) % 256 == v / Power256(k) % 256
  {
    assert Power256(1) == 256 && Power256(2) == 65536 && Power256(3) == 16777216;
    hide Power256;
    var high, low := v / U32_LIMIT, v % U32_LIMIT;
    assert v == U32_LIMIT * high + low;
    match k {
      case 0 => SameOctet(16777216 * high, low);
      case 1 =>
        Over256(16777216 * high + low / 256, low % 256);
        SameOctet(65536 * high, low / 256);
      case 2 =>
        Over65536(65536 * high + low / 65536, low % 65536);
        SameOctet(256 * high, low / 65536);
      case 3 =>
        Over16777216(256 * high + low / 16777216, low % 16777216);
        SameOctet(high, low / 16777216);
    }
  }

  lemma SameOctet(y: nat, x: nat)
    ensures (256 * y + x) % 256 == x % 256
  {
  }

  lemma Over256(y: nat, r: nat)
    requires r < 256
    ensures (256 * y + r) / 256 == y
  {
  }

  lemma Over65536(y: nat, r: nat)
    requires r < 65536
    ensures (65536 * y + r) / 65536 == y
  {
  }

  lemma Over16777216(y: nat, r: nat)
    requires r < 16777216
    ensures (16777216 * y + r) / 16777216 == y
  {
  }

  lemma HighOctets(v: nat, k: nat)
    requires k < 4
    ensures v / U32_LIMIT / Power256(k) == v / Power256(k + 4)
  {
    assert Power256(1) == 256 && Power256(2) == 65536 && Power256(3) == 16777216 && Power256(4) == U32_LIMIT;
    assert Power256(5) == 256 * U32_LIMIT && Power256(6) == 65536 * U32_LIMIT && Power256(7) == 16777216 * U32_LIMIT;
    hide Power256;
  }

  lemma U16RoundTrip(v: nat)
    requires v < U16_LIMIT
    ensures ReadU16(U16(v), 0) == v
  {
  }

  lemma U32RoundTrip(v: nat)
    requires v < U32_LIMIT
    ensures ReadU32(U32(v), 0) == v
  {
    var a, b, c := v / 256, v / 65536, v / 16777216;
    assert v == 256 * a + v % 256;
    assert b == a / 256 && a == 256 * b + a % 256;
    assert c == b / 256 && b == 256 * c + b % 256;
  }

  /** Reading four octets and writing them again changes nothing: the encoding is canonical. */
  lemma U32Canonical(s: seq<byte>, at: nat)
    requires at + 4 <= |s|
    ensures U32(ReadU32(s, at)) == s[at..at + 4]
  {
    var v := ReadU32(s, at);
    assert v / 256 == s[at + 1] as int + 256 * s[at + 2] as int + 65536 * s[at + 3] as int;
    assert v / 65536 == s[at + 2] as int + 256 * s[at + 3] as int;
    assert v / 16777216 == s[at + 3];
  }

  lemma U16Canonical(s: seq<byte>, at: nat)
    requires at + 2 <= |s|
    ensures U16(ReadU16(s, at)) == s[at..at + 2]
  {
  }

  lemma U64RoundTrip(v: nat)
    requires v < U64_LIMIT
    ensures ReadU64(U64(v), 0) == v
  {
    var low, high := v % U32_LIMIT, v / U32_LIMIT;
    U32RoundTrip(low);
    U32RoundTrip(high);
    assert U64(v)[..4] == U32(low) && U64(v)[4..] == U32(high);
  }

  lemma U64Canonical(s: seq<byte>, at: nat)
    requires at + 8 <= |s|
    ensures U64(ReadU64(s, at)) == s[at..at + 8]
  {
    var low, high := ReadU32(s, at), ReadU32(s, at + 4);
    var v := ReadU64(s, at);
    assert v % U32_LIMIT == low && v / U32_LIMIT == high;
    U32Canonical(s, at);
    U32Canonical(s, at + 4);
  }

  /** A field read at an offset depends only on the octets stored there. */
  lemma ReadAt(s: seq<byte>, at: nat, field: seq<byte>)
    requires at + |field| <= |s| && s[at..at + |field|] == field
    ensures |field| == 2 ==> ReadU16(s, at) == ReadU16(field, 0)
    ensures |field| == 4 ==> ReadU32(s, at) == ReadU32(field, 0)
    ensures |field| == 8 ==> ReadU64(s, at) == ReadU64(field, 0)
  {
    assert forall k :: 0 <= k < |field| ==> s[at + k] == field[k];
  }

  lemma Field32(s: seq<byte>, at: nat, v: nat)
    requires v < U32_LIMIT && at + 4 <= |s| && s[at..at + 4] == U32(v)
    ensures ReadU32(s, at) == v
  {
    ReadAt(s, at, U32(v));
    U32RoundTrip(v);
  }

  lemma Field16(s: seq<byte>, at: nat, v: nat)
    requires v < U16_LIMIT && at + 2 <= |s| && s[at..at + 2] == U16(v)
    ensures ReadU16(s, at) == v
  {
    ReadAt(s, at, U16(v));
    U16RoundTrip(v);
  }
}
