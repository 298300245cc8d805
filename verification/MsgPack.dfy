/** Measuring MessagePack values in place.

    `ValueLen` is an iterative worklist. It is proved against a recursive
    descent (`Skip`), which is proved against syntax trees (`Node`, `Encode`)
    that spell out the families of the specification's section "Formats". */
module MsgPack {
  import opened Bytes
  import opened Errors

  const USIZE_MAX := 0xFFFF_FFFF_FFFF_FFFF
  const ISIZE_MAX := 0x7FFF_FFFF_FFFF_FFFF  // no slice is longer

  const TRUNCATED := Protocol("MessagePack value is truncated")
  const RESERVED := Protocol("reserved MessagePack marker 0xc1")
  const NOT_A_MAP := Protocol("expected a MessagePack map")
  const NOT_UNSIGNED := Protocol("expected an unsigned integer")

  // ---------------------------------------------------------------------
  // The marker table
  // ---------------------------------------------------------------------

  /** What follows a marker and its length prefix: payload bytes, then child values. */
  datatype Shape = Shape(payload: nat, children: nat)

  /** The length in `buf[pos..pos + width]`, if the buffer holds it. */
  function Len(buf: seq<byte>, pos: nat, width: nat): Result<nat> {
    if pos + width <= |buf| then Ok(FromBigEndian(buf[pos..pos + width])) else Err(TRUNCATED)
  }

  function PrefixWidth(marker: byte): (w: nat)
    ensures w in {0, 1, 2, 4}
  {
    match marker
    case 0xc4 | 0xc7 | 0xd9 => 1
    case 0xc5 | 0xc8 | 0xda | 0xdc | 0xde => 2
    case 0xc6 | 0xc9 | 0xdb | 0xdd | 0xdf => 4
    case _ => 0
  }

  /** The shape announced by `marker`, whose length prefix (if any) starts at `pos`. */
  function ShapeOf(buf: seq<byte>, pos: nat, marker: byte): (r: Result<Shape>) {
    if marker < 0x80 || marker >= 0xe0 then Ok(Shape(0, 0))
    else if marker < 0x90 then Ok(Shape(0, 2 * (marker - 0x80)))
    else if marker < 0xa0 then Ok(Shape(0, marker - 0x90))
    else if marker < 0xc0 then Ok(Shape(marker - 0xa0, 0))
    else if PrefixWidth(marker) > 0 then
      var n :- Len(buf, pos, PrefixWidth(marker));
      Ok(Counted(marker, n))
    else match marker
      case 0xc0 | 0xc2 | 0xc3 => Ok(Shape(0, 0))
      case 0xc1 => Err(RESERVED)
      case 0xcc | 0xd0 => Ok(Shape(1, 0))
      case 0xcd | 0xd1 | 0xd4 => Ok(Shape(2, 0))
      case 0xd5 => Ok(Shape(3, 0))
      case 0xca | 0xce | 0xd2 => Ok(Shape(4, 0))
      case 0xd6 => Ok(Shape(5, 0))
      case 0xcb | 0xcf | 0xd3 => Ok(Shape(8, 0))
      case 0xd7 => Ok(Shape(9, 0))
      case _ => Ok(Shape(17, 0))
  }

  /** The shape of a value whose marker is followed by the length `n`. */
  function Counted(marker: byte, n: nat): Shape {
    match marker
    case 0xc7 | 0xc8 | 0xc9 => Shape(1 + n, 0)  // ext: a type byte, then the payload
    case 0xdc | 0xdd => Shape(0, n)
    case 0xde | 0xdf => Shape(0, 2 * n)
    case _ => Shape(n, 0)
  }

  // ---------------------------------------------------------------------
  // Recursive descent
  // ---------------------------------------------------------------------

  /** Where the children of the value at `pos` start, and how many there are. */
  function Open(buf: seq<byte>, pos: nat): (r: Option<(nat, nat)>)
    ensures r.Some? ==> pos < r.value.0 <= |buf|
  {
    if pos >= |buf| then None
    else match ShapeOf(buf, pos + 1, buf[pos])
      case Ok(s) =>
        var end := pos + 1 + PrefixWidth(buf[pos]) + s.payload;
        if end <= |buf| then Some((end, s.children)) else None
      case Err(_) => None
  }

  /** The offset just past the value at `pos`, if a complete one is there. */
  function Skip(buf: seq<byte>, pos: nat): (r: Option<nat>)
    ensures r.Some? ==> pos < r.value <= |buf|
    decreases |buf| - pos, 0, 0
  {
    match Open(buf, pos)
    case Some((start, children)) => SkipMany(buf, start, children)
    case None => None
  }

  /** The offset just past `k` consecutive values from `pos`. */
  function SkipMany(buf: seq<byte>, pos: nat, k: nat): (r: Option<nat>)
    requires pos <= |buf|
    ensures r.Some? ==> pos + k <= r.value <= |buf|
    decreases |buf| - pos, 1, k
  {
    if k == 0 then Some(pos)
    else match Skip(buf, pos)
      case Some(end) => SkipMany(buf, end, k - 1)
      case None => None
  }

  lemma {:induction false} SkipManySplit(buf: seq<byte>, pos: nat, a: nat, b: nat)
    requires pos <= |buf|
    ensures SkipMany(buf, pos, a + b)
         == match SkipMany(buf, pos, a)
            case Some(mid) => SkipMany(buf, mid, b)
            case None => None
    decreases a
  {
    if a > 0 && Skip(buf, pos).Some? {
      SkipManySplit(buf, Skip(buf, pos).value, a - 1, b);
    }
  }

  // ---------------------------------------------------------------------
  // The worklist
  // ---------------------------------------------------------------------

  method ReadLen(buf: seq<byte>, pos: nat, width: nat) returns (r: Result<nat>)
    requires |buf| <= ISIZE_MAX && width <= 8
    ensures r == Len(buf, pos, width)
    ensures r.Ok? ==> r.value <= USIZE_MAX
    ensures r.Ok? <==> pos + width <= |buf|
    ensures r.Ok? && width == 1 ==> r.value == buf[pos]
    ensures r.Ok? && width == 2 ==> r.value == buf[pos] as int * 0x100 + buf[pos + 1]
    ensures r.Ok? && width == 4 ==>
      r.value == buf[pos] as int * 0x100_0000 + buf[pos + 1] as int * 0x1_0000 + buf[pos + 2] as int * 0x100 + buf[pos + 3]
  {
    if pos + width > |buf| {
      return Err(TRUNCATED);
    }
    var bytes := buf[pos..pos + width];
    var n: nat := 0;
    for i := 0 to width
      invariant n == FromBigEndian(bytes[..i])
    {
      assert bytes[..i + 1][..i] == bytes[..i];
      n := 256 * n + bytes[i] as int;
    }
    assert bytes[..width] == bytes;
    LimitGrows(width, 8);
    Limits();
    Weights(bytes);
    return Ok(n);
  }

  /** The weight of each byte of a length prefix. */
  lemma Weights(b: seq<byte>)
    ensures |b| == 1 ==> FromBigEndian(b) == b[0]
    ensures |b| == 2 ==> FromBigEndian(b) == b[0] as int * 0x100 + b[1]
    ensures |b| == 4 ==>
      FromBigEndian(b) == b[0] as int * 0x100_0000 + b[1] as int * 0x1_0000 + b[2] as int * 0x100 + b[3]
  {
    if |b| == 1 || |b| == 2 || |b| == 4 {
      assert b[..1][..0] == [] && FromBigEndian(b[..1]) == b[0];
      assert |b| >= 2 ==> FromBigEndian(b[..2]) == 256 * FromBigEndian(b[..1]) + b[1] by {
        assert |b| >= 2 ==> b[..2][..1] == b[..1];
      }
      if |b| == 4 {
        assert b[..3][..2] == b[..2] && b[..4][..3] == b[..3] && b[..4] == b;
        assert FromBigEndian(b[..3]) == 256 * FromBigEndian(b[..2]) + b[2];
      } else {
        assert b[..|b|] == b;
      }
    }
  }

  lemma {:induction false} LimitGrows(a: nat, b: nat)
    requires a <= b
    ensures Limit(a) <= Limit(b)
    decreases b
  {
    if a < b {
      LimitGrows(a, b - 1);
    }
  }

  /** One row of the marker table, reading the length prefix where there is one. */
  method ReadShape(buf: seq<byte>, pos: nat, marker: byte) returns (r: Result<Shape>)
    requires |buf| <= ISIZE_MAX
    ensures r == ShapeOf(buf, pos, marker)
    ensures r.Ok? ==> r.value.payload <= U32_LIMIT && r.value.children <= 2 * U32_LIMIT
    ensures r.Err? ==> r.error == if marker == 0xc1 then RESERVED else TRUNCATED
  {
    Limits();
    var width := PrefixWidth(marker);
    if width == 0 {
      return ShapeOf(buf, pos, marker);
    }
    var n :- ReadLen(buf, pos, width);
    return Ok(Counted(marker, n));
  }

  /** The byte length of the value at the front of `buf`: exactly what recursive
      descent finds, at any nesting depth. Both overflow checks can fire only
      where descent fails too. */
  method ValueLen(buf: seq<byte>) returns (r: Result<nat>)
    requires |buf| <= ISIZE_MAX
    ensures Skip(buf, 0) == (if r.Ok? then Some(r.value) else None)
    ensures r.Err? ==> r.error == TRUNCATED || (r.error == RESERVED && 0xc1 in buf)
  {
    hide ShapeOf, PrefixWidth, Len, Counted;
    var pos := 0;
    var pending: nat := 1;
    while pending > 0
      invariant pos <= |buf| && pending <= USIZE_MAX
      invariant Skip(buf, 0) == SkipMany(buf, pos, pending)
      decreases |buf| - pos, pending
    {
      ghost var start, before := pos, pending;
      assert SkipMany(buf, start, before).Some? ==> Open(buf, start).Some?;
      pending := pending - 1;
      if pos >= |buf| {
        return Err(TRUNCATED);
      }
      var marker := buf[pos];
      pos := pos + 1;
      var shape :- ReadShape(buf, pos, marker);
      pos := pos + PrefixWidth(marker);
      if pos + shape.payload > USIZE_MAX {
        return Err(TRUNCATED);
      }
      pos := pos + shape.payload;
      if pos > |buf| {
        return Err(TRUNCATED);
      }
      SkipManySplit(buf, pos, shape.children, pending);
      if pending + shape.children > USIZE_MAX {
        assert SkipMany(buf, pos, shape.children + pending).None?;
        return Err(TRUNCATED);
      }
      pending := pending + shape.children;
    }
    return Ok(pos);
  }
}
