/** Exact decimals: construction, the numeric order, and the mantissa. */
module Decimals {
  import opened Bytes
  import opened Digits
  import opened Integers

  const MAX_DIGITS := 38

  datatype Result = Ok(value: Decimal) | Err(reason: string)

  datatype Decimal = Decimal(negative: bool, scale: i32, digits: seq<byte>) {

    /** No leading zeros, at most 38 digits, and a single unsigned zero. */
    predicate Valid() {
      && AllDigits(digits)
      && 1 <= |digits| <= MAX_DIGITS
      && (digits[0] == 0 ==> this == Zero())
    }

    predicate IsZero() {
      digits == [0]
    }

    /** The one form that all decimals of a value share: no digits end in zero. */
    function Canonical(): (bool, i64, seq<byte>)
      requires Valid()
    {
      if IsZero() then (false, 0, digits)
      else (negative, scale - TrailingZeros(digits), digits[..|digits| - TrailingZeros(digits)])
    }

    predicate Eq(other: Decimal)
      requires Valid() && other.Valid()
    {
      Canonical() == other.Canonical()
    }

    /** The magnitude lies below ten to this power, and not below the next lower one. */
    function IntegerLen(): i64
      requires Valid()
    {
      |digits| - scale
    }

    function CmpMagnitude(other: Decimal): Ordering
      requires Valid() && other.Valid()
    {
      if IntegerLen() != other.IntegerLen() then Order(IntegerLen(), other.IntegerLen())
      else
        var width := if |digits| > |other.digits| then |digits| else |other.digits|;
        Lex(digits + Zeros(width - |digits|), other.digits + Zeros(width - |other.digits|))
    }

    function Cmp(other: Decimal): Ordering
      requires Valid() && other.Valid()
    {
      match (IsZero(), other.IsZero())
      case (true, true) => Equal
      case (true, false) => if other.negative then Greater else Less
      case (false, true) => if negative then Less else Greater
      case (false, false) =>
        match (negative, other.negative)
        case (false, true) => Greater
        case (true, false) => Less
        case (false, false) => CmpMagnitude(other)
        case (true, true) => other.CmpMagnitude(this)
    }

    function Mantissa(): i128
      requires Valid()
    {
      var magnitude := Fold(digits);
      if negative then -magnitude else magnitude
    }
  }

  function Zero(): Decimal {
    Decimal(false, 0, [0])
  }

  lemma Ten38()
    ensures Pow10(MAX_DIGITS) < I128_LIMIT
  {
    assert Pow10(10) == 10_000_000_000 && Pow10(9) == 1_000_000_000;
    Pow10Add(10, 9);
    Pow10Add(19, 19);
  }

  /** `acc * 10 + digit` over the digits: the result type shows that no step overflows. */
  function Fold(ds: seq<byte>): (acc: i128)
    requires AllDigits(ds) && |ds| <= MAX_DIGITS
    ensures acc == Num(ds)
  {
    if ds == [] then 0
    else
      NumBound(ds);
      Ten38();
      Pow10Grows(|ds|, MAX_DIGITS);
      Fold(ds[..|ds| - 1]) * 10 + ds[|ds| - 1]
  }

  // ---------------------------------------------------------------------
  // Construction
  // ---------------------------------------------------------------------

  function Assembled(negative: bool, scale: i32, digits: seq<byte>): Result {
    var kept := digits[LeadingZeros(digits)..];
    if kept == [] then Ok(Zero())
    else if |kept| > MAX_DIGITS then Err("more than 38 significant digits")
    else Ok(Decimal(negative, scale, kept))
  }

  method Assemble(negative: bool, scale: i32, digits: seq<byte>) returns (r: Result)
    ensures r == Assembled(negative, scale, digits)
  {
    var leading := 0;
    while leading < |digits| && digits[leading] == 0
      invariant 0 <= leading <= |digits|
      invariant LeadingZeros(digits) == leading + LeadingZeros(digits[leading..])
    {
      assert digits[leading..][1..] == digits[leading + 1..];
      leading := leading + 1;
    }
    var kept := digits[leading..];
    if kept == [] {
      return Ok(Zero());
    }
    if |kept| > MAX_DIGITS {
      return Err("more than 38 significant digits");
    }
    r := Ok(Decimal(negative, scale, kept));
  }

  /** What is kept spells the same number, without leading zeros. */
  lemma KeptDigits(digits: seq<byte>)
    requires AllDigits(digits)
    ensures var kept := digits[LeadingZeros(digits)..];
      AllDigits(kept) && Num(kept) == Num(digits) && (kept != [] ==> kept[0] != 0)
  {
    var n := LeadingZeros(digits);
    assert digits == Zeros(n) + digits[n..];
    NumPadded(n, digits[n..]);
  }

  /** `assemble` keeps the value, normalizes the digits, and fails exactly on numbers
      that need more than 38 digits. */
  lemma AssembledIsExact(negative: bool, scale: i32, digits: seq<byte>)
    requires AllDigits(digits)
    ensures var r := Assembled(negative, scale, digits);
      && (r.Err? <==> Num(digits) >= Pow10(MAX_DIGITS))
      && (r.Ok? ==> r.value.Valid() && Num(r.value.digits) == Num(digits))
      && (r.Ok? && Num(digits) != 0 ==> r.value.negative == negative && r.value.scale == scale)
  {
    hide Num, Pow10, LeadingZeros;
    var kept := digits[LeadingZeros(digits)..];
    KeptDigits(digits);
    NumOne(0);
    NumBound(kept);
    NumZeros(0);
    assert Zeros(0) == [];
    if kept != [] {
      NumFloor(kept);
      Pow10Grows(0, |kept| - 1);
      if |kept| > MAX_DIGITS {
        Pow10Grows(MAX_DIGITS, |kept| - 1);
      } else {
        Pow10Grows(|kept|, MAX_DIGITS);
      }
    }
  }

  /** A decimal's own digits, padded in front or not, assemble to it again. */
  lemma AssembledAgain(d: Decimal, pad: nat)
    requires d.Valid()
    ensures Assembled(d.negative, d.scale, Zeros(pad) + d.digits) == Ok(d)
  {
    var all := Zeros(pad) + d.digits;
    var n := LeadingZeros(all);
    if d.digits[0] == 0 {
      assert all[pad] == 0;
      assert n == |all|;
    } else {
      assert all[pad] != 0;
      assert n == pad;
      assert all[pad..] == d.digits;
    }
  }

  function Magnitude(m: i128): nat {
    if m < 0 then -(m as int) else m
  }

  function FromParts(mantissa: i128, scale: i32): Result {
    Assembled(mantissa < 0, scale, DigitsOf(Magnitude(mantissa)))
  }

  /** `from_parts` builds the number it is told to, or fails beyond 38 digits. */
  lemma FromPartsIsExact(mantissa: i128, scale: i32, s: int)
    requires s >= scale && s >= 0
    ensures var r := FromParts(mantissa, scale);
      && (r.Err? <==> Magnitude(mantissa) >= Pow10(MAX_DIGITS))
      && (r.Ok? ==> r.value.Valid() && s >= r.value.scale && Scaled(r.value, s) == mantissa * Pow10(s - scale))
  {
    hide Num, Pow10, DigitsOf, Assembled;
    DigitsOfSpell(Magnitude(mantissa));
    AssembledIsExact(mantissa < 0, scale, DigitsOf(Magnitude(mantissa)));
    var r := FromParts(mantissa, scale);
    if r.Ok? && mantissa == 0 && r.value.digits[0] != 0 {
      NumFloor(r.value.digits);
    }
  }

  /** Taken apart and put together, a decimal is itself. */
  lemma PartsRoundTrip(d: Decimal)
    requires d.Valid()
    ensures FromParts(d.Mantissa(), d.scale) == Ok(d)
  {
    hide Num, Assembled;
    var n := Magnitude(d.Mantissa());
    DigitsOfSpell(n);
    if d.IsZero() {
      assert Num(d.digits) == 0 by { NumOne(0); }
      assert DigitsOf(0) == [0];
    } else {
      NumFloor(d.digits);
      SpelledOnce(DigitsOf(n), d.digits);
    }
    AssembledAgain(d, 0);
    assert Zeros(0) + d.digits == d.digits;
  }

  // ---------------------------------------------------------------------
  // The order
  // ---------------------------------------------------------------------

  /** The value times `10^s`, an integer whenever `s` is at least the scale. */
  function Scaled(d: Decimal, s: int): int
    requires s >= d.scale
  {
    var magnitude := Num(d.digits) * Pow10(s - d.scale);
    if d.negative then -magnitude else magnitude
  }

  /** More integer digits is more. */
  lemma LongerIsMore(a: Decimal, b: Decimal, s: int)
    requires a.Valid() && b.Valid() && b.digits[0] != 0 && a.IntegerLen() < b.IntegerLen()
    requires s >= a.scale && s >= b.scale
    ensures Num(a.digits) * Pow10(s - a.scale) < Num(b.digits) * Pow10(s - b.scale)
  {
    hide Num, Pow10;
    var la, lb := |a.digits|, |b.digits|;
    NumBound(a.digits);
    NumFloor(b.digits);
    LessScales(Num(a.digits), Pow10(la), Pow10(s - a.scale));
    Pow10Add(la, s - a.scale);
    Pow10Grows(la + (s - a.scale), lb - 1 + (s - b.scale));
    Pow10Add(lb - 1, s - b.scale);
    MulMonotone(Pow10(lb - 1), Num(b.digits), Pow10(s - b.scale));
  }

  /** Padding to a common width moves the digits, not the value. */
  lemma PaddedValue(d: Decimal, width: nat, s: int)
    requires d.Valid() && width >= |d.digits| && s >= d.scale && s + d.IntegerLen() >= width
    ensures Num(d.digits) * Pow10(s - d.scale)
         == Num(d.digits + Zeros(width - |d.digits|)) * Pow10(s + d.IntegerLen() - width)
  {
    hide Num, Pow10;
    var pad := width - |d.digits|;
    NumTrailing(d.digits, pad);
    Pow10Add(pad, s + d.IntegerLen() - width);
    Regroup(Num(d.digits), Pow10(pad), Pow10(s + d.IntegerLen() - width));
  }

  lemma MagnitudeIsNumeric(a: Decimal, b: Decimal, s: int)
    requires a.Valid() && b.Valid() && !a.IsZero() && !b.IsZero() && s >= a.scale && s >= b.scale
    ensures a.CmpMagnitude(b) == Order(Num(a.digits) * Pow10(s - a.scale), Num(b.digits) * Pow10(s - b.scale))
  {
    hide Num, Pow10, Lex;
    if a.IntegerLen() < b.IntegerLen() {
      LongerIsMore(a, b, s);
    } else if b.IntegerLen() < a.IntegerLen() {
      LongerIsMore(b, a, s);
    } else {
      var width := if |a.digits| > |b.digits| then |a.digits| else |b.digits|;
      PaddedValue(a, width, s);
      PaddedValue(b, width, s);
      var x, y := a.digits + Zeros(width - |a.digits|), b.digits + Zeros(width - |b.digits|);
      LexIsNumeric(x, y);
      OrderScales(Num(x), Num(y), Pow10(s + a.IntegerLen() - width));
    }
  }

  lemma ScaledSign(d: Decimal, s: int)
    requires d.Valid() && s >= d.scale
    ensures d.IsZero() ==> Scaled(d, s) == 0
    ensures !d.IsZero() ==> if d.negative then Scaled(d, s) < 0 else Scaled(d, s) > 0
  {
    hide Num, Pow10;
    if d.IsZero() {
      NumOne(0);
    } else {
      NumFloor(d.digits);
      Pow10Grows(0, |d.digits| - 1);
      LessScales(0, Num(d.digits), Pow10(s - d.scale));
    }
  }

  /** `cmp` is the order of the exact rationals `mantissa * 10^-scale`: both are compared
      as integers over any common power of ten. */
  lemma CmpIsNumeric(a: Decimal, b: Decimal, s: int)
    requires a.Valid() && b.Valid() && s >= a.scale && s >= b.scale
    ensures a.Cmp(b) == Order(Scaled(a, s), Scaled(b, s))
  {
    ScaledSign(a, s);
    ScaledSign(b, s);
    if !a.IsZero() && !b.IsZero() {
      MagnitudeIsNumeric(a, b, s);
      MagnitudeIsNumeric(b, a, s);
    }
    hide Num, Pow10, Lex;
  }

  function Most(x: int, y: int): int {
    if x > y then x else y
  }

  /** A total order: reversed by swapping, and transitive. */
  lemma CmpIsTotalOrder(a: Decimal, b: Decimal, c: Decimal)
    requires a.Valid() && b.Valid() && c.Valid()
    ensures b.Cmp(a) == a.Cmp(b).Reversed()
    ensures a.Cmp(b) != Greater && b.Cmp(c) != Greater ==> a.Cmp(c) != Greater
    ensures a.Cmp(b) == Equal && b.Cmp(c) == Equal ==> a.Cmp(c) == Equal
  {
    var s := Most(a.scale, Most(b.scale, c.scale));
    CmpIsNumeric(a, b, s);
    CmpIsNumeric(b, a, s);
    CmpIsNumeric(b, c, s);
    CmpIsNumeric(a, c, s);
    hide Scaled;
  }

  // ---------------------------------------------------------------------
  // Equality
  // ---------------------------------------------------------------------

  /** The canonical form has the same value and ends in no zero. */
  lemma CanonicalValue(d: Decimal, s: int)
    requires d.Valid() && !d.IsZero() && s >= d.scale
    ensures var (negative, scale, kept) := d.Canonical();
      && AllDigits(kept) && NoLeadingZero(kept) && kept[|kept| - 1] != 0 && scale <= d.scale
      && Num(d.digits) * Pow10(s - d.scale) == Num(kept) * Pow10(s - scale)
  {
    hide Num, Pow10;
    var n := TrailingZeros(d.digits);
    var kept := d.digits[..|d.digits| - n];
    assert n < |d.digits|;
    assert d.digits == kept + Zeros(n);
    NumTrailing(kept, n);
    Pow10Add(n, s - d.scale);
    Regroup(Num(kept), Pow10(n), Pow10(s - d.scale));
  }

  /** Digits that end in no zero spell no multiple of ten. */
  lemma NotByTen(ds: seq<byte>, x: nat)
    requires ds != [] && AllDigits(ds) && ds[|ds| - 1] != 0
    ensures Num(ds) != 10 * x
  {
  }

  lemma CanonicalOnce(ka: seq<byte>, kb: seq<byte>, ea: nat, eb: nat)
    requires AllDigits(ka) && NoLeadingZero(ka) && ka[|ka| - 1] != 0
    requires AllDigits(kb) && NoLeadingZero(kb) && kb[|kb| - 1] != 0
    requires Num(ka) * Pow10(ea) == Num(kb) * Pow10(eb)
    ensures ea == eb && ka == kb
  {
    hide Num, Pow10;
    if ea < eb {
      SmallerExponentDiffers(ka, kb, ea, eb);
    } else if eb < ea {
      SmallerExponentDiffers(kb, ka, eb, ea);
    } else {
      OrderScales(Num(ka), Num(kb), Pow10(ea));
      SpelledOnce(ka, kb);
    }
  }

  lemma SmallerExponentDiffers(ka: seq<byte>, kb: seq<byte>, ea: nat, eb: nat)
    requires ka != [] && AllDigits(ka) && ka[|ka| - 1] != 0 && ea < eb
    ensures Num(ka) * Pow10(ea) != Num(kb) * Pow10(eb)
  {
    hide Num, Pow10;
    var x := Num(kb) * Pow10(eb - ea - 1);
    Pow10Add(1, eb - ea - 1);
    Pow10Add(eb - ea, ea);
    Pow10One();
    Regroup(Num(kb), Pow10(eb - ea), Pow10(ea));
    Regroup(Num(kb), 10, Pow10(eb - ea - 1));
    OrderScales(Num(ka), 10 * x, Pow10(ea));
    NotByTen(ka, x);
  }

  lemma Pow10One()
    ensures Pow10(1) == 10
  {
  }

  lemma NonZeroEq(a: Decimal, b: Decimal)
    requires a.Valid() && b.Valid() && !a.IsZero() && !b.IsZero()
    ensures a.Eq(b) <==> a.Cmp(b) == Equal
  {
    hide Num, Pow10, Decimal.Cmp;
    var s := Most(a.scale, b.scale);
    CmpIsNumeric(a, b, s);
    ScaledSign(a, s);
    ScaledSign(b, s);
    CanonicalValue(a, s);
    CanonicalValue(b, s);
    if a.Cmp(b) == Equal {
      var (_, sa, ka) := a.Canonical();
      var (_, sb, kb) := b.Canonical();
      CanonicalOnce(ka, kb, s - sa, s - sb);
    }
  }

  /** Zero equals zero only. */
  lemma ZeroEq(a: Decimal, b: Decimal)
    requires a.Valid() && b.Valid() && a.IsZero() != b.IsZero()
    ensures !a.Eq(b) && a.Cmp(b) != Equal
  {
    if a.IsZero() {
      CanonicalValue(b, b.scale);
    } else {
      CanonicalValue(a, a.scale);
    }
    hide Num, Pow10;
  }

  /** Equality, and so hashing, is numeric: it holds exactly when `cmp` says `Equal`. */
  lemma EqIsNumeric(a: Decimal, b: Decimal)
    requires a.Valid() && b.Valid()
    ensures a.Eq(b) <==> a.Cmp(b) == Equal
  {
    if a.IsZero() != b.IsZero() {
      ZeroEq(a, b);
    } else if !a.IsZero() {
      NonZeroEq(a, b);
    }
  }
}
