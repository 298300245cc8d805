/** Strings of decimal digits, most significant first, and the numbers they spell. */
module Digits {
  import opened Bytes

  datatype Ordering = Less | Equal | Greater {
    function Reversed(): Ordering {
      match this case Less => Greater case Equal => Equal case Greater => Less
    }
  }

  /** The order of the integers. */
  function Order(x: int, y: int): Ordering {
    if x < y then Less else if x == y then Equal else Greater
  }

  function Pow10(n: nat): (p: nat)
    ensures p >= 1
  {
    if n == 0 then 1 else 10 * Pow10(n - 1)
  }

  lemma {:induction false} Pow10Add(m: nat, n: nat)
    ensures Pow10(m + n) == Pow10(m) * Pow10(n)
  {
    if m > 0 {
      Pow10Add(m - 1, n);
    }
  }

  lemma Pow10Grows(m: nat, n: nat)
    requires m <= n
    ensures Pow10(m) <= Pow10(n) && (m < n ==> 10 * Pow10(m) <= Pow10(n))
  {
    Pow10Add(m, n - m);
    MulMonotone(1, Pow10(n - m), Pow10(m));
    if m < n {
      MulMonotone(10, Pow10(n - m), Pow10(m));
    }
  }

  lemma MulMonotone(x: nat, y: nat, p: nat)
    requires x <= y
    ensures x * p <= y * p
  {
  }

  lemma {:induction false} LessScales(x: int, y: int, p: nat)
    requires x < y && p >= 1
    ensures x * p < y * p
  {
    if p > 1 {
      LessScales(x, y, p - 1);
      assert x * p == x * (p - 1) + x && y * p == y * (p - 1) + y;
    }
  }

  /** Scaling by a positive factor keeps the order. */
  lemma OrderScales(x: int, y: int, p: nat)
    requires p >= 1
    ensures Order(x * p, y * p) == Order(x, y)
  {
    if x < y {
      LessScales(x, y, p);
    } else if x > y {
      LessScales(y, x, p);
    }
  }

  lemma Regroup(x: int, y: int, z: int)
    ensures x * (y * z) == (x * y) * z == y * (x * z)
  {
  }

  lemma Distribute(x: int, y: int, z: int)
    ensures (x + y) * z == x * z + y * z
  {
  }

  predicate AllDigits(ds: seq<byte>) {
    forall i | 0 <= i < |ds| :: ds[i] < 10
  }

  /** The number the digits spell. */
  function Num(ds: seq<byte>): nat {
    if ds == [] then 0 else 10 * Num(ds[..|ds| - 1]) + ds[|ds| - 1]
  }

  lemma NumSnoc(ds: seq<byte>, d: byte)
    ensures Num(ds + [d]) == 10 * Num(ds) + d
  {
    assert (ds + [d])[..|ds|] == ds;
  }

  lemma {:induction false} NumBound(ds: seq<byte>)
    requires AllDigits(ds)
    ensures Num(ds) < Pow10(|ds|)
  {
    if ds != [] {
      var front, last := ds[..|ds| - 1], ds[|ds| - 1];
      NumBound(front);
    }
  }

  lemma {:induction false} NumConcat(a: seq<byte>, b: seq<byte>)
    ensures Num(a + b) == Num(a) * Pow10(|b|) + Num(b)
  {
    if b == [] {
      assert a + b == a;
    } else {
      var front, last := b[..|b| - 1], b[|b| - 1];
      assert a + b == (a + front) + [last];
      NumSnoc(a + front, last);
      NumConcat(a, front);
      Regroup(10, Num(a), Pow10(|front|));
    }
  }

  lemma NumOne(d: byte)
    ensures Num([d]) == d
  {
    NumSnoc([], d);
    assert [] + [d] == [d];
  }

  lemma Head(ds: seq<byte>)
    requires ds != []
    ensures Num(ds) == ds[0] * Pow10(|ds| - 1) + Num(ds[1..])
  {
    hide Pow10, Num;
    var first, rest := [ds[0]], ds[1..];
    assert ds == first + rest;
    NumConcat(first, rest);
    NumOne(ds[0]);
  }

  /** A number without a leading zero reaches its highest place. */
  lemma NumFloor(ds: seq<byte>)
    requires ds != [] && AllDigits(ds) && ds[0] != 0
    ensures Num(ds) >= Pow10(|ds| - 1)
  {
    hide Pow10, Num;
    Head(ds);
    MulMonotone(1, ds[0], Pow10(|ds| - 1));
  }

  function Zeros(n: nat): (ds: seq<byte>)
    ensures |ds| == n && AllDigits(ds)
  {
    seq(n, i => 0)
  }

  lemma {:induction false} NumZeros(n: nat)
    ensures Num(Zeros(n)) == 0
  {
    if n > 0 {
      NumZeros(n - 1);
      assert Zeros(n)[..n - 1] == Zeros(n - 1);
    }
  }

  /** Leading zeros add nothing. */
  lemma NumPadded(n: nat, ds: seq<byte>)
    ensures Num(Zeros(n) + ds) == Num(ds)
  {
    NumConcat(Zeros(n), ds);
    NumZeros(n);
  }

  /** Trailing zeros multiply. */
  lemma NumTrailing(ds: seq<byte>, n: nat)
    ensures Num(ds + Zeros(n)) == Num(ds) * Pow10(n)
  {
    NumConcat(ds, Zeros(n));
    NumZeros(n);
  }

  /** Lexicographic comparison, as iterators compare. */
  function Lex(a: seq<byte>, b: seq<byte>): Ordering {
    if a == [] then (if b == [] then Equal else Less)
    else if b == [] then Greater
    else if a[0] != b[0] then Order(a[0], b[0])
    else Lex(a[1..], b[1..])
  }

  lemma {:induction false} LexIsNumeric(a: seq<byte>, b: seq<byte>)
    requires |a| == |b| && AllDigits(a) && AllDigits(b)
    ensures Lex(a, b) == Order(Num(a), Num(b))
  {
    hide Pow10, Num;
    if a == [] {
      assert a == b;
    } else {
      Head(a);
      Head(b);
      NumBound(a[1..]);
      NumBound(b[1..]);
      var p := Pow10(|a| - 1);
      if a[0] < b[0] {
        MulMonotone(a[0] + 1, b[0], p);
        Distribute(a[0], 1, p);
      } else if a[0] > b[0] {
        MulMonotone(b[0] + 1, a[0], p);
        Distribute(b[0], 1, p);
      } else {
        LexIsNumeric(a[1..], b[1..]);
      }
    }
  }

  predicate NoLeadingZero(ds: seq<byte>) {
    ds != [] && ds[0] != 0
  }

  lemma ShorterIsSmaller(a: seq<byte>, b: seq<byte>)
    requires AllDigits(a) && AllDigits(b) && NoLeadingZero(b) && |a| < |b|
    ensures Num(a) < Num(b)
  {
    NumBound(a);
    NumFloor(b);
    Pow10Grows(|a|, |b| - 1);
  }

  /** Without leading zeros, a number is spelled one way. */
  lemma SpelledOnce(a: seq<byte>, b: seq<byte>)
    requires AllDigits(a) && AllDigits(b) && NoLeadingZero(a) && NoLeadingZero(b) && Num(a) == Num(b)
    ensures a == b
  {
    if |a| == |b| {
      SameLengthOnce(a, b);
    } else if |a| < |b| {
      ShorterIsSmaller(a, b);
    } else {
      ShorterIsSmaller(b, a);
    }
  }

  lemma {:induction false} SameLengthOnce(a: seq<byte>, b: seq<byte>)
    requires AllDigits(a) && AllDigits(b) && |a| == |b| && Num(a) == Num(b)
    ensures a == b
  {
    if a != [] {
      var n := |a| - 1;
      assert a[n] < 10 && b[n] < 10;
      SameLengthOnce(a[..n], b[..n]);
      assert a == a[..n] + [a[n]] && b == b[..n] + [b[n]];
    }
  }

  /** The digits of a number, as `to_string` gives them. */
  function DigitsOf(n: nat): (ds: seq<byte>)
    ensures ds != [] && AllDigits(ds) && (n > 0 ==> ds[0] != 0)
  {
    if n < 10 then [n] else DigitsOf(n / 10) + [n % 10]
  }

  lemma {:induction false} DigitsOfSpell(n: nat)
    ensures Num(DigitsOf(n)) == n
  {
    if n < 10 {
      NumOne(n);
    } else {
      DigitsOfSpell(n / 10);
      NumSnoc(DigitsOf(n / 10), n % 10);
    }
  }

  /** How many zeros the digits start with. */
  function LeadingZeros(ds: seq<byte>): (n: nat)
    ensures n <= |ds| && (n < |ds| ==> ds[n] != 0)
    ensures forall i | 0 <= i < n :: ds[i] == 0
  {
    if ds == [] || ds[0] != 0 then 0 else 1 + LeadingZeros(ds[1..])
  }

  /** How many zeros the digits end with. */
  function TrailingZeros(ds: seq<byte>): (n: nat)
    ensures n <= |ds| && (n < |ds| ==> ds[|ds| - 1 - n] != 0)
    ensures forall i | |ds| - n <= i < |ds| :: ds[i] == 0
  {
    if ds == [] || ds[|ds| - 1] != 0 then 0 else 1 + TrailingZeros(ds[..|ds| - 1])
  }
}
