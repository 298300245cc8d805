/** The integer, string, map, array and extension headers of the MessagePack
    specification (section "Formats"), as the `rmp` crate writes and reads them. */
module Rmp {
  import opened Bytes
  import opened Errors

  /** `write_uint`: the shortest unsigned form. */
  function WriteUint(v: nat): (b: seq<byte>)
    requires v < U64_LIMIT
    ensures 1 <= |b| <= 9
  {
    if v < 0x80 then [v]
    else if v < U8_LIMIT then [0xcc] + BigEndian(v, 1)
    else if v < U16_LIMIT then [0xcd] + BigEndian(v, 2)
    else if v < U32_LIMIT then [0xce] + BigEndian(v, 4)
    else [0xcf] + BigEndian(v, 8)
  }

  predicate IsI64(v: int) {
    -(U64_LIMIT as int) <= 2 * v < U64_LIMIT
  }

  /** `write_sint`: the shortest form, unsigned for non-negative values. */
  function WriteSint(v: int): (b: seq<byte>)
    requires IsI64(v)
    ensures 1 <= |b| <= 9
  {
    if v >= 0 then WriteUint(v)
    else if v >= -32 then [v + 256]
    else if v >= -0x80 then [0xd0] + BigEndian(Unsigned(v, U8_LIMIT), 1)
    else if v >= -0x8000 then [0xd1] + BigEndian(Unsigned(v, U16_LIMIT), 2)
    else if v >= -0x8000_0000 then [0xd2] + BigEndian(Unsigned(v, U32_LIMIT), 4)
    else [0xd3] + BigEndian(Unsigned(v, U64_LIMIT), 8)
  }

  /** Bytes after an integer marker; fixed integers carry none. */
  function IntWidth(marker: byte): nat {
    match marker
    case 0xcc | 0xd0 => 1
    case 0xcd | 0xd1 => 2
    case 0xce | 0xd2 => 4
    case 0xcf | 0xd3 => 8
    case _ => 0
  }

  predicate IsIntMarker(marker: byte) {
    marker < 0x80 || marker >= 0xe0 || 0xcc <= marker <= 0xd3
  }

  /** The integer at the front of `b`, of any marker and sign, and its length. */
  function ReadAnyInt(b: seq<byte>): (r: Option<(int, nat)>)
    ensures r.Some? ==> 1 <= r.value.1 <= |b| && r.value.1 <= 9
  {
    if |b| == 0 || !IsIntMarker(b[0]) then None
    else
      var width := IntWidth(b[0]);
      if b[0] < 0x80 then Some((b[0], 1))
      else if b[0] >= 0xe0 then Some((b[0] as int - 256, 1))
      else if |b| < 1 + width then None
      else
        var bits := FromBigEndian(b[1..1 + width]);
        Some((if b[0] <= 0xcf then bits else Signed(bits, Limit(width)), 1 + width))
  }

  /** `read_int::<u64>`: signed markers are fine as long as the value is not negative. */
  function ReadU64(b: seq<byte>): (r: Option<(nat, nat)>)
    ensures r.Some? ==> r.value.0 < U64_LIMIT && 1 <= r.value.1 <= |b|
  {
    match ReadAnyInt(b)
    case Some((v, n)) => if 0 <= v < U64_LIMIT then Some((v, n)) else None
    case None => None
  }

  /** `read_int::<i64>`: unsigned markers are fine as long as the value fits. */
  function ReadI64(b: seq<byte>): (r: Option<(int, nat)>)
    ensures r.Some? ==> IsI64(r.value.0) && 1 <= r.value.1 <= |b|
  {
    match ReadAnyInt(b)
    case Some((v, n)) => if IsI64(v) then Some((v, n)) else None
    case None => None
  }

  function WriteStrLen(n: nat): (b: seq<byte>)
    requires n < U32_LIMIT
  {
    if n < 32 then [0xa0 + n]
    else if n < U8_LIMIT then [0xd9] + BigEndian(n, 1)
    else if n < U16_LIMIT then [0xda] + BigEndian(n, 2)
    else [0xdb] + BigEndian(n, 4)
  }

  /** `write_str`: the length is cut to 32 bits, as `as u32` cuts it. */
  function WriteStr(s: seq<byte>): seq<byte> {
    WriteStrLen(|s| % U32_LIMIT) + s
  }

  /** `read_str_len`: the announced length and where the bytes start. */
  function ReadStrLen(b: seq<byte>): (r: Option<(nat, nat)>)
    ensures r.Some? ==> 1 <= r.value.1 <= |b|
  {
    if |b| == 0 then None
    else if 0xa0 <= b[0] < 0xc0 then Some((b[0] - 0xa0, 1))
    else
      var width := match b[0] case 0xd9 => 1 case 0xda => 2 case 0xdb => 4 case _ => 0;
      if width == 0 || |b| < 1 + width then None
      else Some((FromBigEndian(b[1..1 + width]), 1 + width))
  }

  function WriteArrayLen(n: nat): (b: seq<byte>)
    requires n < U32_LIMIT
  {
    if n < 16 then [0x90 + n]
    else if n < U16_LIMIT then [0xdc] + BigEndian(n, 2)
    else [0xdd] + BigEndian(n, 4)
  }

  function WriteMapLen(n: nat): (b: seq<byte>)
    requires n < U32_LIMIT
    ensures |b| > 0
  {
    if n < 16 then [0x80 + n]
    else if n < U16_LIMIT then [0xde] + BigEndian(n, 2)
    else [0xdf] + BigEndian(n, 4)
  }

  /** `write_ext_meta`; `tag` is the signed type byte's bit pattern. */
  function WriteExtMeta(n: nat, tag: byte): seq<byte>
    requires n < U32_LIMIT
  {
    if n == 1 then [0xd4, tag]
    else if n == 2 then [0xd5, tag]
    else if n == 4 then [0xd6, tag]
    else if n == 8 then [0xd7, tag]
    else if n == 16 then [0xd8, tag]
    else if n < U8_LIMIT then [0xc7] + BigEndian(n, 1) + [tag]
    else if n < U16_LIMIT then [0xc8] + BigEndian(n, 2) + [tag]
    else [0xc9] + BigEndian(n, 4) + [tag]
  }

  /** A marker and a fixed-width integer, read back from the front of any stream. */
  lemma ReadBits(marker: byte, bits: nat, width: nat, rest: seq<byte>)
    requires 0xcc <= marker <= 0xd3 && width == IntWidth(marker) && bits < Limit(width)
    ensures ReadAnyInt([marker] + BigEndian(bits, width) + rest)
         == Some((if marker <= 0xcf then bits else Signed(bits, Limit(width)), 1 + width))
  {
    var b := [marker] + BigEndian(bits, width) + rest;
    assert b[1..1 + width] == BigEndian(bits, width);
    BigEndianRoundTrip(bits, width);
  }

  lemma ReadBackUint(v: nat, rest: seq<byte>)
    requires v < U64_LIMIT
    ensures ReadU64(WriteUint(v) + rest) == Some((v, |WriteUint(v)|))
  {
    Limits();
    if v >= 0x80 {
      var width := if v < U8_LIMIT then 1 else if v < U16_LIMIT then 2 else if v < U32_LIMIT then 4 else 8;
      ReadBits(WriteUint(v)[0], v, width, rest);
    }
  }

  lemma ReadBackSint(v: int, rest: seq<byte>)
    requires IsI64(v)
    ensures ReadI64(WriteSint(v) + rest) == Some((v, |WriteSint(v)|))
  {
    Limits();
    if v >= 0 {
      ReadBackUint(v, rest);
    } else if v < -32 {
      var width := if v >= -0x80 then 1 else if v >= -0x8000 then 2 else if v >= -0x8000_0000 then 4 else 8;
      ReadBits(WriteSint(v)[0], Unsigned(v, Limit(width)), width, rest);
    }
  }

  // ---------------------------------------------------------------------
  // Every form, byte by byte
  // ---------------------------------------------------------------------

  /** The weight of each byte behind an integer marker. */
  function Bits(b: seq<byte>): (n: nat)
    requires |b| in {1, 2, 4, 8}
    ensures |b| == 1 ==> n < U8_LIMIT
    ensures |b| == 2 ==> n < U16_LIMIT
    ensures |b| == 4 ==> n < U32_LIMIT
    ensures |b| == 8 ==> n < U64_LIMIT
  {
    if |b| == 1 then b[0]
    else if |b| == 2 then b[0] as int * 0x100 + b[1]
    else if |b| == 4 then b[0] as int * 0x100_0000 + b[1] as int * 0x1_0000 + b[2] as int * 0x100 + b[3]
    else
      (b[0] as int * 0x100_0000_0000_0000 + b[1] as int * 0x1_0000_0000_0000 + b[2] as int * 0x100_0000_0000)
      + (b[3] as int * 0x1_0000_0000 + b[4] as int * 0x100_0000 + b[5] as int * 0x1_0000 + b[6] as int * 0x100 + b[7])
  }

  lemma {:induction false} TakeOne(b: seq<byte>, weight: nat)
    requires b != [] && weight == Limit(|b| - 1)
    ensures FromBigEndian(b) == b[0] * weight + FromBigEndian(b[1..])
  {
    FromBigEndianHead(b[0], b[1..]);
    assert [b[0]] + b[1..] == b;
  }

  lemma MoreLimits()
    ensures Limit(3) == 0x100_0000 && Limit(5) == 0x100_0000_0000
    ensures Limit(6) == 0x1_0000_0000_0000 && Limit(7) == 0x100_0000_0000_0000
  {
    Limits();
    assert Limit(4) == 256 * Limit(3);
    assert Limit(5) == 256 * Limit(4);
    assert Limit(6) == 256 * Limit(5);
    assert Limit(7) == 256 * Limit(6);
  }

  lemma ReadsFour(b: seq<byte>)
    requires |b| in {1, 2, 4}
    ensures FromBigEndian(b) == Bits(b)
  {
    Limits();
    MoreLimits();
    hide Limit, FromBigEndian;
    TakeOne(b, Limit(|b| - 1));
    if |b| > 1 {
      TakeOne(b[1..], Limit(|b| - 2));
    }
    if |b| == 4 {
      TakeOne(b[2..], 0x100);
      TakeOne(b[3..], 1);
      assert b[1..][1..] == b[2..] && b[2..][1..] == b[3..] && b[3..][1..] == [];
    } else {
      assert |b| == 2 ==> b[1..][1..] == [];
      assert |b| == 1 ==> b[1..] == [];
    }
  }

  lemma ReadsBits(b: seq<byte>)
    requires |b| in {1, 2, 4, 8}
    ensures FromBigEndian(b) == Bits(b)
  {
    if |b| < 8 {
      ReadsFour(b);
    } else {
      Limits();
      MoreLimits();
      hide Limit, FromBigEndian;
      TakeOne(b, Limit(7));
      TakeOne(b[1..], Limit(6));
      TakeOne(b[2..], Limit(5));
      TakeOne(b[3..], Limit(4));
      ReadsFour(b[4..]);
      assert b[1..][1..] == b[2..] && b[2..][1..] == b[3..] && b[3..][1..] == b[4..];
    }
  }

  /** What an integer is read as, whatever its marker: none is taken for another width
      or sign. */
  lemma IntegerForms(b: seq<byte>)
    requires b != []
    ensures b[0] < 0x80 ==> ReadAnyInt(b) == Some((b[0], 1))
    ensures b[0] >= 0xe0 ==> ReadAnyInt(b) == Some((b[0] as int - 0x100, 1))
    ensures b[0] == 0xcc && |b| >= 2 ==> ReadAnyInt(b) == Some((Bits(b[1..2]), 2))
    ensures b[0] == 0xcd && |b| >= 3 ==> ReadAnyInt(b) == Some((Bits(b[1..3]), 3))
    ensures b[0] == 0xce && |b| >= 5 ==> ReadAnyInt(b) == Some((Bits(b[1..5]), 5))
    ensures b[0] == 0xcf && |b| >= 9 ==> ReadAnyInt(b) == Some((Bits(b[1..9]), 9))
    ensures b[0] == 0xd0 && |b| >= 2 ==> ReadAnyInt(b) == Some((Signed(Bits(b[1..2]), U8_LIMIT), 2))
    ensures b[0] == 0xd1 && |b| >= 3 ==> ReadAnyInt(b) == Some((Signed(Bits(b[1..3]), U16_LIMIT), 3))
    ensures b[0] == 0xd2 && |b| >= 5 ==> ReadAnyInt(b) == Some((Signed(Bits(b[1..5]), U32_LIMIT), 5))
    ensures b[0] == 0xd3 && |b| >= 9 ==> ReadAnyInt(b) == Some((Signed(Bits(b[1..9]), U64_LIMIT), 9))
    ensures 0x80 <= b[0] < 0xcc || 0xd4 <= b[0] < 0xe0 ==> ReadAnyInt(b).None?
  {
    hide FromBigEndian, Limit, Bits, Signed;
    var width := IntWidth(b[0]);
    if width > 0 && |b| >= 1 + width {
      ReadsBits(b[1..1 + width]);
      Limits();
    }
  }

  lemma IntLength(b: seq<byte>)
    requires ReadAnyInt(b).Some?
    ensures var (v, n) := ReadAnyInt(b).value;
      n == 1 ==> -32 <= v < 0x80
    ensures var (v, n) := ReadAnyInt(b).value;
      n == 2 ==> -0x80 <= v < U8_LIMIT
  {
    Limits();
    hide FromBigEndian;
  }

  lemma LongerInt(b: seq<byte>)
    requires ReadAnyInt(b).Some?
    ensures var (v, n) := ReadAnyInt(b).value;
      n in {1, 2, 3, 5, 9} && (n == 3 ==> -0x8000 <= v < U16_LIMIT) && (n == 5 ==> -0x8000_0000 <= v < U32_LIMIT)
  {
    Limits();
    hide FromBigEndian;
  }

  /** No other way to spell an integer is shorter. */
  lemma ShortestForm(v: int, b: seq<byte>)
    requires ReadAnyInt(b) == Some((v, |b|))
    ensures IsI64(v) ==> |WriteSint(v)| <= |b|
    ensures 0 <= v < U64_LIMIT ==> |WriteUint(v)| <= |b|
  {
    IntLength(b);
    LongerInt(b);
    hide FromBigEndian, ReadAnyInt, BigEndian;
  }
}
