/** Decimals as the bytes of the `MP_DECIMAL` extension. */
module DecimalPayloads {
  import opened Bytes
  import E = Errors
  import Rmp
  import opened Digits
  import opened Decimals
  import opened Integers

  predicate AllNibbles(ns: seq<byte>) {
    forall i | 0 <= i < |ns| :: ns[i] < 16
  }

  /** Two nibbles a byte, the high one first. */
  function Packed(ns: seq<byte>): seq<byte>
    requires AllNibbles(ns) && |ns| % 2 == 0
  {
    if ns == [] then [] else [16 * ns[0] + ns[1]] + Packed(ns[2..])
  }

  function Unpacked(bs: seq<byte>): (ns: seq<byte>)
    ensures AllNibbles(ns) && |ns| == 2 * |bs|
  {
    if bs == [] then [] else [bs[0] / 16, bs[0] % 16] + Unpacked(bs[1..])
  }

  lemma {:induction false} PackedRoundTrip(ns: seq<byte>)
    requires AllNibbles(ns) && |ns| % 2 == 0
    ensures Unpacked(Packed(ns)) == ns
  {
    if ns != [] {
      PackedRoundTrip(ns[2..]);
      var bs := Packed(ns);
      assert bs[1..] == Packed(ns[2..]);
      assert ns == [ns[0], ns[1]] + ns[2..];
    }
  }

  lemma {:induction false} PackedAppend(ns: seq<byte>, high: byte, low: byte)
    requires AllNibbles(ns) && |ns| % 2 == 0 && high < 16 && low < 16
    ensures Packed(ns + [high, low]) == Packed(ns) + [16 * high + low]
    decreases |ns|
  {
    var all := ns + [high, low];
    if ns == [] {
      assert all == [high, low] && all[2..] == [];
    } else {
      assert all[2..] == ns[2..] + [high, low] && all[0] == ns[0] && all[1] == ns[1];
      PackedAppend(ns[2..], high, low);
      assert [16 * ns[0] + ns[1]] + (Packed(ns[2..]) + [16 * high + low])
          == ([16 * ns[0] + ns[1]] + Packed(ns[2..])) + [16 * high + low];
    }
  }

  lemma {:induction false} UnpackedAppend(bs: seq<byte>, b: byte)
    ensures Unpacked(bs + [b]) == Unpacked(bs) + [b / 16, b % 16]
    decreases |bs|
  {
    var all := bs + [b];
    if bs == [] {
      assert all == [b] && all[1..] == [];
    } else {
      assert all[1..] == bs[1..] + [b] && all[0] == bs[0];
      UnpackedAppend(bs[1..], b);
      assert [bs[0] / 16, bs[0] % 16] + (Unpacked(bs[1..]) + [b / 16, b % 16])
          == ([bs[0] / 16, bs[0] % 16] + Unpacked(bs[1..])) + [b / 16, b % 16];
    }
  }

  /** The nibbles written: a zero to fill the first byte, the digits, the sign. */
  function Nibbles(d: Decimal): (ns: seq<byte>)
    requires d.Valid()
    ensures AllNibbles(ns) && |ns| % 2 == 0
  {
    Zeros(if |d.digits| % 2 == 0 then 1 else 0) + d.digits + [if d.negative then 0x0d else 0x0c]
  }

  function Payload(d: Decimal): seq<byte>
    requires d.Valid()
  {
    Rmp.WriteSint(d.scale) + Packed(Nibbles(d))
  }

  method ToPayload(d: Decimal) returns (out: seq<byte>)
    requires d.Valid()
    ensures out == Payload(d)
  {
    hide Rmp.WriteSint, Packed, Decimal.Valid;
    out := Rmp.WriteSint(d.scale);
    var nibbles: seq<byte> := [];
    if |d.digits| % 2 == 0 {
      nibbles := [0];
    }
    nibbles := nibbles + d.digits + [if d.negative then 0x0d else 0x0c];
    assert nibbles == Nibbles(d);
    var bytes := Chunks(nibbles);
    out := out + bytes;
  }

  /** `chunks(2)`, each pair into one byte. */
  method Chunks(nibbles: seq<byte>) returns (out: seq<byte>)
    requires AllNibbles(nibbles) && |nibbles| % 2 == 0
    ensures out == Packed(nibbles)
  {
    hide Packed;
    out := [];
    PackedNothing();
    var i := 0;
    while i < |nibbles|
      invariant 0 <= i <= |nibbles| && i % 2 == 0
      invariant out == Packed(nibbles[..i])
    {
      PackedAppend(nibbles[..i], nibbles[i], nibbles[i + 1]);
      assert nibbles[..i + 2] == nibbles[..i] + [nibbles[i], nibbles[i + 1]];
      out := out + [16 * nibbles[i] + nibbles[i + 1]];
      i := i + 2;
    }
    assert nibbles[..i] == nibbles;
  }

  lemma PackedNothing()
    ensures Packed([]) == []
  {
  }

  predicate IsPlus(sign: byte) {
    sign == 0x0a || sign == 0x0c || sign == 0x0e || sign == 0x0f
  }

  predicate IsMinus(sign: byte) {
    sign == 0x0b || sign == 0x0d
  }

  function Decoded(payload: seq<byte>): Result {
    match Rmp.ReadI64(payload)
    case None => Err("payload does not start with a scale")
    case Some((scale, n)) =>
      if !(-0x8000_0000 <= scale < 0x8000_0000) then Err("scale out of range")
      else DecodedDigits(scale, Unpacked(payload[n..]))
  }

  function DecodedDigits(scale: i32, nibbles: seq<byte>): Result {
    if nibbles == [] then Err("payload has no sign nibble")
    else
      var sign, digits := nibbles[|nibbles| - 1], nibbles[..|nibbles| - 1];
      if !IsPlus(sign) && !IsMinus(sign) then Err("payload has no sign nibble")
      else if !AllDigits(digits) then Err("payload has a non-decimal digit")
      else Assembled(IsMinus(sign), scale, digits)
  }

  method FromPayload(payload: seq<byte>) returns (r: Result)
    ensures r == Decoded(payload)
  {
    hide Rmp.ReadI64, Assembled;
    var read := Rmp.ReadI64(payload);
    if read.None? {
      return Err("payload does not start with a scale");
    }
    var (scale, n) := read.value;
    if !(-0x8000_0000 <= scale < 0x8000_0000) {
      return Err("scale out of range");
    }
    var cursor, nibbles := payload[n..], [];
    for i := 0 to |cursor|
      invariant nibbles == Unpacked(cursor[..i])
    {
      UnpackedAppend(cursor[..i], cursor[i]);
      assert cursor[..i + 1] == cursor[..i] + [cursor[i]];
      nibbles := nibbles + [cursor[i] / 16, cursor[i] % 16];
    }
    assert cursor[..|cursor|] == cursor;
    if |nibbles| == 0 {
      return Err("payload has no sign nibble");
    }
    var sign := nibbles[|nibbles| - 1];
    nibbles := nibbles[..|nibbles| - 1];
    if !IsPlus(sign) && !IsMinus(sign) {
      return Err("payload has no sign nibble");
    }
    if exists i | 0 <= i < |nibbles| :: nibbles[i] > 9 {
      return Err("payload has a non-decimal digit");
    }
    r := Assemble(IsMinus(sign), scale, nibbles);
  }

  /** Any writer's payload decodes to the number it means, however many zero nibbles it
      pads with and whichever of the sign nibbles it uses. */
  lemma AnyPaddingDecodes(d: Decimal, pad: nat, sign: byte)
    requires d.Valid() && (pad + |d.digits|) % 2 == 1
    requires sign < 16 && if d.negative then IsMinus(sign) else IsPlus(sign)
    ensures Decoded(Rmp.WriteSint(d.scale) + Packed(Zeros(pad) + d.digits + [sign])) == Ok(d)
  {
    hide Rmp.WriteSint, Rmp.ReadI64, Assembled;
    var ns := Zeros(pad) + d.digits + [sign];
    var payload := Rmp.WriteSint(d.scale) + Packed(ns);
    Rmp.ReadBackSint(d.scale, Packed(ns));
    assert payload[|Rmp.WriteSint(d.scale)|..] == Packed(ns);
    PackedRoundTrip(ns);
    assert ns[..|ns| - 1] == Zeros(pad) + d.digits;
    AssembledAgain(d, pad);
  }

  /** `from_payload` undoes `to_payload`. */
  lemma PayloadRoundTrip(d: Decimal)
    requires d.Valid()
    ensures Decoded(Payload(d)) == Ok(d)
  {
    hide Decoded;
    AnyPaddingDecodes(d, if |d.digits| % 2 == 0 then 1 else 0, if d.negative then 0x0d else 0x0c);
  }

  /** Whatever the bytes, what decodes is a well-formed decimal. */
  lemma DecodedIsValid(payload: seq<byte>)
    ensures Decoded(payload).Ok? ==> Decoded(payload).value.Valid()
  {
    hide Rmp.ReadI64, Assembled;
    match Rmp.ReadI64(payload)
    case None =>
    case Some((scale, n)) =>
      var ns := Unpacked(payload[n..]);
      if -0x8000_0000 <= scale < 0x8000_0000 && ns != [] && AllDigits(ns[..|ns| - 1]) {
        AssembledIsExact(IsMinus(ns[|ns| - 1]), scale, ns[..|ns| - 1]);
      }
  }

  // ---------------------------------------------------------------------
  // The payload, nibble by nibble
  // ---------------------------------------------------------------------

  /** The nibble at place `k`: the high one of a byte comes first. */
  function Nibble(bs: seq<byte>, k: nat): (n: byte)
    requires k < 2 * |bs|
    ensures n < 16
  {
    if k % 2 == 0 then bs[k / 2] / 16 else bs[k / 2] % 16
  }

  lemma {:induction false} UnpackedAt(bs: seq<byte>, k: nat)
    requires k < 2 * |bs|
    ensures Unpacked(bs)[k] == Nibble(bs, k)
    decreases |bs|
  {
    if k >= 2 {
      UnpackedAt(bs[1..], k - 2);
      assert bs[1..][(k - 2) / 2] == bs[k / 2];
    }
  }

  lemma {:induction false} PackedLength(ns: seq<byte>)
    requires AllNibbles(ns) && |ns| % 2 == 0
    ensures 2 * |Packed(ns)| == |ns|
  {
    if ns != [] {
      PackedLength(ns[2..]);
    }
  }

  /** What is written: the scale, then a zero nibble if the digits are even in number, the
      digits, and the sign. */
  lemma PayloadLayout(d: Decimal)
    requires d.Valid()
    ensures var (p, head) := (Payload(d), |Rmp.WriteSint(d.scale)|);
      && |p| == head + |d.digits| / 2 + 1
      && Rmp.ReadI64(p) == E.Some((d.scale, head))
      && var pad := 1 - |d.digits| % 2;
      && (pad == 1 ==> Nibble(p[head..], 0) == 0)
      && (forall i | 0 <= i < |d.digits| :: Nibble(p[head..], pad + i) == d.digits[i])
      && Nibble(p[head..], pad + |d.digits|) == (if d.negative then 0x0d else 0x0c)
  {
    hide Rmp.WriteSint, Rmp.ReadI64, Packed, Nibble;
    var ns, pad := Nibbles(d), 1 - |d.digits| % 2;
    var head := Rmp.WriteSint(d.scale);
    PackedRoundTrip(ns);
    PackedLength(ns);
    Rmp.ReadBackSint(d.scale, Packed(ns));
    assert Payload(d)[|head|..] == Packed(ns);
    forall k | 0 <= k < |ns| ensures Nibble(Packed(ns), k) == ns[k] {
      UnpackedAt(Packed(ns), k);
    }
    assert |Zeros(if |d.digits| % 2 == 0 then 1 else 0)| == pad;
    assert ns[pad + |d.digits|] == if d.negative then 0x0d else 0x0c;
    assert forall i | 0 <= i < |d.digits| :: ns[pad + i] == d.digits[i];
  }

  /** All nibbles but the last. */
  function DigitNibbles(bs: seq<byte>): seq<byte>
    requires bs != []
  {
    seq(2 * |bs| - 1, k requires 0 <= k < 2 * |bs| - 1 => Nibble(bs, k))
  }

  /** Bytes that end in one of the six sign nibbles and hold decimal digits before it,
      which spell a number of at most 38. */
  ghost predicate Readable(bs: seq<byte>) {
    && bs != [] && bs[|bs| - 1] % 16 in {0x0a, 0x0b, 0x0c, 0x0d, 0x0e, 0x0f}
    && AllDigits(DigitNibbles(bs)) && Num(DigitNibbles(bs)) < Pow10(38)
  }

  lemma DigitNibblesUnpacked(bs: seq<byte>)
    requires bs != []
    ensures Unpacked(bs)[..2 * |bs| - 1] == DigitNibbles(bs)
    ensures Unpacked(bs)[2 * |bs| - 1] == bs[|bs| - 1] % 16
  {
    hide Nibble;
    forall k | 0 <= k < 2 * |bs| - 1 ensures Unpacked(bs)[k] == DigitNibbles(bs)[k] {
      UnpackedAt(bs, k);
    }
    UnpackedAt(bs, 2 * |bs| - 1);
    LastNibble(bs);
  }

  lemma LastNibble(bs: seq<byte>)
    requires bs != []
    ensures Nibble(bs, 2 * |bs| - 1) == bs[|bs| - 1] % 16
  {
  }

  /** A payload is accepted if and only if a 32-bit scale comes first and readable bytes
      behind it, and then it is the number they spell, under that sign and scale. */
  lemma DecodesExactly(payload: seq<byte>)
    ensures var read := Rmp.ReadI64(payload);
      Decoded(payload).Ok? <==>
        && read.Some? && -0x8000_0000 <= read.value.0 < 0x8000_0000 && Readable(payload[read.value.1..])
    ensures Decoded(payload).Ok? ==> Rmp.ReadI64(payload).Some? && Readable(payload[Rmp.ReadI64(payload).value.1..])
    ensures Decoded(payload).Ok? ==> (
      var (d, (scale, n)) := (Decoded(payload).value, Rmp.ReadI64(payload).value);
      var digits := DigitNibbles(payload[n..]);
      && Num(d.digits) == Num(digits)
      && (Num(digits) != 0 ==> d.scale == scale && (d.negative <==> payload[|payload| - 1] % 16 in {0x0b, 0x0d})))
  {
    hide Rmp.ReadI64, Assembled, Num, Pow10, Unpacked, DigitNibbles;
    match Rmp.ReadI64(payload)
    case None =>
    case Some((scale, n)) =>
      var bs := payload[n..];
      if bs != [] && -0x8000_0000 <= scale < 0x8000_0000 {
        DigitNibblesUnpacked(bs);
        assert bs[|bs| - 1] == payload[|payload| - 1];
        if AllDigits(DigitNibbles(bs)) {
          AssembledIsExact(IsMinus(bs[|bs| - 1] % 16), scale, DigitNibbles(bs));
        }
      }
  }
}
