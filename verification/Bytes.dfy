/** Bytes and the little-endian two's-complement integers that memcpy writes and reads. */
module Bytes {
  type Byte = x: int | 0 <= x < 256
  type Bytes = seq<Byte>

  const TWO31 := 0x8000_0000
  const TWO32 := 0x1_0000_0000
  const TWO63 := 0x8000_0000_0000_0000
  const TWO64 := 0x1_0000_0000_0000_0000

  type Int32 = x: int | -TWO31 <= x < TWO31
  type Int64 = x: int | -TWO63 <= x < TWO63

  const TWO128 := TWO64 * TWO64

  /** A UUID, as the number that its sixteen bytes spell; the null UUID is 0. */
  type Uuid = x: nat | x < TWO128

  /** The number of values of w bytes. */
  function Range(w: nat): (r: nat)
    ensures r > 0
  {
    if w == 0 then 1 else 256 * Range(w - 1)
  }

  lemma Ranges()
    ensures Range(4) == TWO32 && Range(8) == TWO64 && Range(16) == TWO128
  {
    assert Range(3) == 0x100_0000;
    assert Range(5) == 256 * TWO32;
    assert Range(7) == 0x1_0000 * Range(5);
    assert Range(10) == 0x1_0000 * TWO64;
    assert Range(12) == 0x1_0000_0000 * TWO64;
    assert Range(14) == 0x1_0000_0000_0000 * TWO64;
  }

  /** The w low bytes of v, least significant first. */
  function Little(v: nat, w: nat): (s: Bytes)
    ensures |s| == w
  {
    if w == 0 then [] else [v % 256] + Little(v / 256, w - 1)
  }

  function Value(s: Bytes): (v: nat)
    ensures v < Range(|s|)
  {
    if s == [] then 0 else s[0] + 256 * Value(s[1..])
  }

  lemma {:induction false} LittleValue(v: nat, w: nat)
    requires v < Range(w)
    ensures Value(Little(v, w)) == v
  {
    if w > 0 {
      LittleValue(v / 256, w - 1);
      assert Little(v, w)[1..] == Little(v / 256, w - 1);
    }
  }

  function PutU32(v: nat): (s: Bytes)
    ensures |s| == 4
  {
    Little(v, 4)
  }

  function GetU32(s: Bytes): (v: nat)
    requires |s| == 4
    ensures v < TWO32
  {
    Ranges();
    Value(s)
  }

  function PutU64(v: nat): (s: Bytes)
    ensures |s| == 8
  {
    Little(v, 8)
  }

  function GetU64(s: Bytes): (v: nat)
    requires |s| == 8
    ensures v < TWO64
  {
    Ranges();
    Value(s)
  }

  function PutUuid(u: Uuid): (s: Bytes)
    ensures |s| == 16
  {
    Little(u, 16)
  }

  function GetUuid(s: Bytes): Uuid
    requires |s| == 16
  {
    Ranges();
    Value(s)
  }

  function PutI32(v: Int32): (s: Bytes)
    ensures |s| == 4
  {
    Little(if v < 0 then v + TWO32 else v, 4)
  }

  function GetI32(s: Bytes): Int32
    requires |s| == 4
  {
    Ranges();
    var v := Value(s);
    if v < TWO31 then v else v - TWO32
  }

  function PutI64(v: Int64): (s: Bytes)
    ensures |s| == 8
  {
    Little(if v < 0 then v + TWO64 else v, 8)
  }

  function GetI64(s: Bytes): Int64
    requires |s| == 8
  {
    Ranges();
    var v := Value(s);
    if v < TWO63 then v else v - TWO64
  }

  lemma U32RoundTrip(v: nat)
    requires v < TWO32
    ensures GetU32(PutU32(v)) == v
  {
    Ranges();
    LittleValue(v, 4);
  }

  lemma U64RoundTrip(v: nat)
    requires v < TWO64
    ensures GetU64(PutU64(v)) == v
  {
    Ranges();
    LittleValue(v, 8);
  }

  lemma UuidRoundTrip(u: Uuid)
    ensures GetUuid(PutUuid(u)) == u
  {
    Ranges();
    LittleValue(u, 16);
  }

  lemma I32RoundTrip(v: Int32)
    ensures GetI32(PutI32(v)) == v
  {
    Ranges();
    LittleValue(if v < 0 then v + TWO32 else v, 4);
  }

  lemma I64RoundTrip(v: Int64)
    ensures GetI64(PutI64(v)) == v
  {
    Ranges();
    LittleValue(if v < 0 then v + TWO64 else v, 8);
  }

  /** The piece between pre and post. */
  lemma Between(pre: Bytes, mid: Bytes, post: Bytes)
    ensures (pre + mid + post)[|pre|..|pre| + |mid|] == mid
    ensures (pre + mid + post)[|pre| + |mid|..] == post
  {
  }
}
