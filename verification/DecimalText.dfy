/** Decimals as text. */
module DecimalTexts {
  import opened Bytes
  import E = Errors
  import opened Digits
  import opened Decimals

  // ---------------------------------------------------------------------
  // Writing
  // ---------------------------------------------------------------------

  function DigitChar(d: byte): (c: char)
    requires d < 10
    ensures IsDigit(c) && (c - '0') as int == d
  {
    '0' + d as char
  }

  function Chars(ds: seq<byte>): (s: string)
    requires AllDigits(ds)
    ensures |s| == |ds| && forall i | 0 <= i < |s| :: s[i] == DigitChar(ds[i])
  {
    seq(|ds|, i requires 0 <= i < |ds| => DigitChar(ds[i]))
  }

  lemma CharsConcat(a: seq<byte>, b: seq<byte>)
    requires AllDigits(a) && AllDigits(b)
    ensures Chars(a + b) == Chars(a) + Chars(b)
  {
  }

  lemma CharsSnoc(ds: seq<byte>, d: byte)
    requires AllDigits(ds) && d < 10
    ensures Chars(ds + [d]) == Chars(ds) + [DigitChar(d)]
  {
  }

  /** A decimal written with all its digits. */
  function Text(d: Decimal): string
    requires d.Valid()
  {
    var sign := if d.negative then "-" else "";
    if d.scale <= 0 then sign + Chars(d.digits) + Chars(Zeros(-(d.scale as int)))
    else if |d.digits| > d.scale
    then sign + Chars(d.digits[..|d.digits| - d.scale]) + "." + Chars(d.digits[|d.digits| - d.scale..])
    else sign + "0." + Chars(Zeros(d.scale - |d.digits|)) + Chars(d.digits)
  }

  method Extended(out: string, ds: seq<byte>) returns (r: string)
    requires AllDigits(ds)
    ensures r == out + Chars(ds)
  {
    hide Chars, DigitChar;
    r := out;
    for i := 0 to |ds|
      invariant r == out + Chars(ds[..i])
    {
      CharsSnoc(ds[..i], ds[i]);
      assert ds[..i + 1] == ds[..i] + [ds[i]];
      r := r + [DigitChar(ds[i])];
    }
    assert ds[..|ds|] == ds;
  }

  /** `repeat_n('0', n)`. */
  method Padded(out: string, n: nat) returns (r: string)
    ensures r == out + Chars(Zeros(n))
  {
    hide Chars;
    r := out;
    for i := 0 to n
      invariant r == out + Chars(Zeros(i))
    {
      CharsSnoc(Zeros(i), 0);
      assert Zeros(i + 1) == Zeros(i) + [0];
      r := r + ['0'];
    }
  }

  method Display(d: Decimal) returns (out: string)
    requires d.Valid()
    ensures out == Text(d)
  {
    assert AllDigits(d.digits);
    hide Chars, Zeros, Decimal.Valid;
    out := if d.negative then "-" else "";
    if d.scale <= 0 {
      out := Extended(out, d.digits);
      out := Padded(out, -(d.scale as int));
    } else if |d.digits| > d.scale {
      var point := |d.digits| - d.scale;
      out := Extended(out, d.digits[..point]);
      out := out + ".";
      out := Extended(out, d.digits[point..]);
    } else {
      out := out + "0.";
      out := Padded(out, d.scale - |d.digits|);
      out := Extended(out, d.digits);
    }
  }

  // ---------------------------------------------------------------------
  // Reading
  // ---------------------------------------------------------------------

  predicate IsDigit(c: char) {
    '0' <= c <= '9'
  }

  predicate AllDigitChars(s: string) {
    forall i | 0 <= i < |s| :: IsDigit(s[i])
  }

  function DigitValue(c: char): (d: byte)
    requires IsDigit(c)
    ensures d < 10
  {
    (c - '0') as int
  }

  function Values(s: string): (ds: seq<byte>)
    requires AllDigitChars(s)
    ensures |ds| == |s| && AllDigits(ds)
  {
    seq(|s|, i requires 0 <= i < |s| => DigitValue(s[i]))
  }

  lemma ValuesOfChars(ds: seq<byte>)
    requires AllDigits(ds)
    ensures AllDigitChars(Chars(ds)) && Values(Chars(ds)) == ds
  {
  }

  /** `find`: the first of the characters, or the length when there is none. */
  function Find(s: string, stops: set<char>): (n: nat)
    ensures n <= |s| && (n < |s| ==> s[n] in stops)
    ensures forall i | 0 <= i < n :: s[i] !in stops
  {
    if s == [] || s[0] in stops then 0 else 1 + Find(s[1..], stops)
  }

  predicate IsI32(n: int) {
    -0x8000_0000 <= n < 0x8000_0000
  }

  /** `str::parse::<i32>`: an optional sign and at least one digit, in range. */
  function ParseI32(s: string): (r: E.Option<int>)
    ensures r.Some? ==> IsI32(r.value)
  {
    var digits := Unprefixed(s);
    if digits == "" || !AllDigitChars(digits) then E.None
    else
      var magnitude := Num(Values(digits));
      var n := if IsNegative(s) then -(magnitude as int) else magnitude;
      if IsI32(n) then E.Some(n) else E.None
  }

  predicate IsNegative(s: string) {
    s != "" && s[0] == '-'
  }

  function Unprefixed(s: string): string {
    if s != "" && (s[0] == '-' || s[0] == '+') then s[1..] else s
  }

  function Parsed(s: string): Result {
    var rest := Unprefixed(s);
    var at := Find(rest, {'e', 'E'});
    ParsedDecimal(IsNegative(s), rest[..at], if at < |rest| then ParseI32(rest[at + 1..]) else E.Some(0))
  }

  function ParsedDecimal(negative: bool, number: string, exponent: E.Option<int>): Result {
    var point := Find(number, {'.'});
    if exponent.None? then Err("bad exponent")
    else ParsedNumber(negative, number[..point], if point < |number| then number[point + 1..] else "", exponent.value)
  }

  function ParsedNumber(negative: bool, int_: string, frac: string, exponent: int): Result {
    if int_ == "" && frac == "" then Err("no digits")
    else if !AllDigitChars(int_ + frac) then Err("not a decimal number")
    else if !IsI32(|frac|) || !IsI32(|frac| - exponent) then Err("scale out of range")
    else Assembled(negative, |frac| - exponent, Values(int_ + frac))
  }

  /** The digits one by one; nothing at the first character that is none. */
  method ReadDigits(s: string) returns (r: E.Option<seq<byte>>)
    ensures r == if AllDigitChars(s) then E.Some(Values(s)) else E.None
  {
    var digits := [];
    for i := 0 to |s|
      invariant AllDigitChars(s[..i]) && digits == Values(s[..i])
    {
      if !IsDigit(s[i]) {
        return E.None;
      }
      digits := digits + [DigitValue(s[i])];
      assert digits == Values(s[..i + 1]);
    }
    assert s[..|s|] == s;
    r := E.Some(digits);
  }

  method FromStr(s: string) returns (r: Result)
    ensures r == Parsed(s)
  {
    hide Assembled, ParseI32, Find, Values, AllDigitChars;
    var negative, rest := false, s;
    if s != "" && s[0] == '-' {
      negative, rest := true, s[1..];
    } else if s != "" && s[0] == '+' {
      rest := s[1..];
    }
    var at := Find(rest, {'e', 'E'});
    var number, exponent := rest[..at], E.Some(0);
    if at < |rest| {
      exponent := ParseI32(rest[at + 1..]);
    }
    if exponent.None? {
      return Err("bad exponent");
    }
    var point := Find(number, {'.'});
    var int_, frac := number[..point], "";
    if point < |number| {
      frac := number[point + 1..];
    }
    if int_ == "" && frac == "" {
      return Err("no digits");
    }
    var digits := ReadDigits(int_ + frac);
    if digits.None? {
      return Err("not a decimal number");
    }
    if !IsI32(|frac|) || !IsI32(|frac| - exponent.value) {
      return Err("scale out of range");
    }
    r := Assemble(negative, |frac| - exponent.value, digits.value);
  }

  // ---------------------------------------------------------------------
  // What text means
  // ---------------------------------------------------------------------

  predicate IsSign(sign: string) {
    sign == "" || sign == "+" || sign == "-"
  }

  predicate IsMark(mark: string, exponent: string) {
    mark == "e" || mark == "E" || (mark == "" && exponent == "")
  }

  /** `[+-]digits[.digits][e exponent]`, taken apart. */
  datatype Literal = Literal(sign: string, whole: seq<byte>, point: bool, frac: seq<byte>, mark: string, exponent: string) {
    predicate WellFormed() {
      && IsSign(sign)
      && AllDigits(whole) && AllDigits(frac) && (!point ==> frac == []) && whole + frac != []
      && IsMark(mark, exponent)
    }

    function Number(): string
      requires WellFormed()
    {
      Chars(whole) + if point then "." + Chars(frac) else ""
    }

    function Spelled(): string
      requires WellFormed()
    {
      sign + (Number() + (mark + exponent))
    }

    function Power(): E.Option<int> {
      if mark == "" then E.Some(0) else ParseI32(exponent)
    }

    /** Sign, digits and scale as written, when the exponent is one and the scale fits. */
    function Meaning(): Result
      requires WellFormed()
    {
      match Power()
      case None => Err("bad exponent")
      case Some(k) =>
        if !IsI32(|frac|) || !IsI32(|frac| - k) then Err("scale out of range")
        else Assembled(sign == "-", |frac| - k, whole + frac)
    }
  }

  lemma NumberChars(l: Literal)
    requires l.WellFormed()
    ensures var n := l.Number();
      && n != "" && n[0] != '-' && n[0] != '+'
      && (forall i | 0 <= i < |n| :: n[i] != 'e' && n[i] != 'E')
      && Find(n, {'.'}) == |l.whole|
      && n[..|l.whole|] == Chars(l.whole)
      && (if l.point then |l.whole| < |n| && n[|l.whole| + 1..] == Chars(l.frac) else |n| == |l.whole|)
  {
    var n := l.Number();
    forall i | 0 <= i < |n| ensures n[i] == '.' || IsDigit(n[i]) {
      if i > |l.whole| {
        assert n[i] == Chars(l.frac)[i - |l.whole| - 1];
      }
    }
    assert n == "" ==> l.whole == [] && l.frac == [];
    assert forall i | 0 <= i < |l.whole| :: n[i] == Chars(l.whole)[i];
    assert l.point ==> n[|l.whole|] == '.';
    assert n[..|l.whole|] == Chars(l.whole);
    if l.point {
      assert n[|l.whole| + 1..] == Chars(l.frac);
    }
  }

  lemma SignSplitsOff(sign: string, rest: string)
    requires IsSign(sign)
    requires rest != "" && rest[0] != '-' && rest[0] != '+'
    ensures Unprefixed(sign + rest) == rest && IsNegative(sign + rest) == (sign == "-")
  {
    if sign == "" {
      assert sign + rest == rest;
    } else {
      assert (sign + rest)[1..] == rest;
    }
  }

  lemma MarkSplitsOff(n: string, mark: string, exponent: string)
    requires forall i | 0 <= i < |n| :: n[i] != 'e' && n[i] != 'E'
    requires IsMark(mark, exponent)
    ensures var rest := n + (mark + exponent);
      && Find(rest, {'e', 'E'}) == |n| && rest[..|n|] == n
      && (if mark == "" then |rest| == |n| else |rest| > |n| && rest[|n| + 1..] == exponent)
  {
    hide Find;
    var rest := n + (mark + exponent);
    assert forall i | 0 <= i < |n| :: rest[i] == n[i];
    if mark != "" {
      assert rest[|n|] == mark[0] && rest[|n| + 1..] == exponent;
    }
  }

  /** Where the parser cuts a literal. */
  lemma Cuts(sign: string, n: string, mark: string, exponent: string)
    requires IsSign(sign)
    requires n != "" && n[0] != '-' && n[0] != '+' && forall i | 0 <= i < |n| :: n[i] != 'e' && n[i] != 'E'
    requires IsMark(mark, exponent)
    ensures var s := sign + (n + (mark + exponent));
      && IsNegative(s) == (sign == "-")
      && var rest := Unprefixed(s);
      && Find(rest, {'e', 'E'}) == |n| && rest[..|n|] == n
      && (if mark == "" then |rest| == |n| else |rest| > |n| && rest[|n| + 1..] == exponent)
  {
    hide Find, Unprefixed, IsNegative;
    var rest := n + (mark + exponent);
    assert rest[0] == n[0];
    SignSplitsOff(sign, rest);
    MarkSplitsOff(n, mark, exponent);
  }

  /** Digits on both sides of the point are read as one number. */
  lemma NumberParses(negative: bool, whole: seq<byte>, frac: seq<byte>, exponent: int)
    requires AllDigits(whole) && AllDigits(frac) && whole + frac != []
    ensures ParsedNumber(negative, Chars(whole), Chars(frac), exponent)
         == if !IsI32(|frac|) || !IsI32(|frac| - exponent) then Err("scale out of range")
            else Assembled(negative, |frac| - exponent, whole + frac)
  {
    CharsConcat(whole, frac);
    ValuesOfChars(whole + frac);
    assert whole != [] || frac != [];
    hide Assembled, Values, Chars, AllDigitChars, AllDigits;
  }

  lemma ParsedCuts(sign: string, n: string, mark: string, exponent: string)
    requires IsSign(sign)
    requires n != "" && n[0] != '-' && n[0] != '+' && forall i | 0 <= i < |n| :: n[i] != 'e' && n[i] != 'E'
    requires IsMark(mark, exponent)
    ensures Parsed(sign + (n + (mark + exponent)))
         == ParsedDecimal(sign == "-", n, if mark == "" then E.Some(0) else ParseI32(exponent))
  {
    hide ParsedDecimal, ParseI32, Find, Unprefixed, IsNegative;
    Cuts(sign, n, mark, exponent);
  }

  lemma CutAtMark(l: Literal)
    requires l.WellFormed()
    ensures Parsed(l.Spelled()) == ParsedDecimal(l.sign == "-", l.Number(), l.Power())
  {
    NumberChars(l);
    hide Parsed, ParsedDecimal, ParseI32, Find, Literal.Number;
    ParsedCuts(l.sign, l.Number(), l.mark, l.exponent);
  }

  lemma CutAtPoint(negative: bool, l: Literal, k: int)
    requires l.WellFormed()
    ensures ParsedDecimal(negative, l.Number(), E.Some(k)) == ParsedNumber(negative, Chars(l.whole), Chars(l.frac), k)
  {
    assert Chars([]) == "";
    NumberChars(l);
    hide ParsedNumber, Find, Chars, Literal.Number;
  }

  /** Every literal of the documented form parses to what it means. */
  lemma LiteralParses(l: Literal)
    requires l.WellFormed()
    ensures Parsed(l.Spelled()) == l.Meaning()
  {
    hide Parsed, Assembled, ParsedNumber, ParseI32, Chars, Find, Literal.Spelled, Literal.Number;
    CutAtMark(l);
    match l.Power()
    case None =>
    case Some(k) =>
      CutAtPoint(l.sign == "-", l, k);
      NumberParses(l.sign == "-", l.whole, l.frac, k);
  }

  lemma CharsOfValues(s: string)
    requires AllDigitChars(s)
    ensures Chars(Values(s)) == s
  {
  }

  /** The pieces the parser cuts a text into. */
  function SignOf(s: string): string {
    s[..|s| - |Unprefixed(s)|]
  }

  function NumberOf(s: string): string {
    var rest := Unprefixed(s);
    rest[..Find(rest, {'e', 'E'})]
  }

  function MarkOf(s: string): string {
    var rest := Unprefixed(s);
    var at := Find(rest, {'e', 'E'});
    if at < |rest| then [rest[at]] else ""
  }

  function ExponentOf(s: string): string {
    var rest := Unprefixed(s);
    var at := Find(rest, {'e', 'E'});
    if at < |rest| then rest[at + 1..] else ""
  }

  lemma ParsedOf(s: string)
    ensures Parsed(s) == ParsedDecimal(IsNegative(s), NumberOf(s), if MarkOf(s) == "" then E.Some(0) else ParseI32(ExponentOf(s)))
  {
    hide ParsedDecimal, ParseI32, Unprefixed, IsNegative, Find;
  }

  lemma SignJoins(s: string)
    ensures SignOf(s) + Unprefixed(s) == s && IsSign(SignOf(s))
  {
    if s != "" && (s[0] == '-' || s[0] == '+') {
      assert s[..1] == [s[0]];
    }
  }

  lemma CutAround(s: string, i: nat)
    requires i < |s|
    ensures s[..i] + ([s[i]] + s[i + 1..]) == s && s[i..i + 1] == [s[i]]
  {
  }

  lemma MarkJoins(s: string)
    ensures NumberOf(s) + (MarkOf(s) + ExponentOf(s)) == Unprefixed(s) && IsMark(MarkOf(s), ExponentOf(s))
  {
    hide Find, Unprefixed;
    var rest := Unprefixed(s);
    var at := Find(rest, {'e', 'E'});
    if at < |rest| {
      CutAround(rest, at);
    } else {
      assert rest[..at] == rest;
    }
  }

  lemma PointJoins(number: string)
    ensures var point := Find(number, {'.'});
      if point == |number| then number[..point] + "" == number
      else number[..point] + ("." + number[point + 1..]) == number
  {
    hide Find;
    var point := Find(number, {'.'});
    if point < |number| {
      CutAround(number, point);
    }
  }

  lemma DigitCharsApart(a: string, b: string)
    requires AllDigitChars(a + b)
    ensures AllDigitChars(a) && AllDigitChars(b)
  {
    assert forall i | 0 <= i < |a| :: (a + b)[i] == a[i];
    assert forall i | 0 <= i < |b| :: (a + b)[|a| + i] == b[i];
  }

  lemma NumberAccepted(negative: bool, number: string, exponent: E.Option<int>)
    requires ParsedDecimal(negative, number, exponent).Ok?
    ensures var point := Find(number, {'.'});
      && AllDigitChars(number[..point]) && (point < |number| ==> AllDigitChars(number[point + 1..]))
      && exponent.Some? && (point > 0 || |number| > 1)
  {
    hide ParsedNumber, Find, AllDigitChars;
    var point := Find(number, {'.'});
    HalvesAccepted(negative, number[..point], if point < |number| then number[point + 1..] else "", exponent.value);
  }

  lemma HalvesAccepted(negative: bool, whole: string, frac: string, exponent: int)
    requires ParsedNumber(negative, whole, frac, exponent).Ok?
    ensures AllDigitChars(whole) && AllDigitChars(frac) && (whole != "" || frac != "")
  {
    hide Assembled, AllDigitChars, Values;
    DigitCharsApart(whole, frac);
  }

  lemma LiteralOfNumber(sign: string, number: string, mark: string, exponent: string) returns (l: Literal)
    requires var point := Find(number, {'.'});
      && AllDigitChars(number[..point]) && (point < |number| ==> AllDigitChars(number[point + 1..]))
      && (point > 0 || |number| > 1)
    requires IsSign(sign) && IsMark(mark, exponent)
    ensures l.WellFormed() && l.Spelled() == sign + (number + (mark + exponent))
  {
    var point := Find(number, {'.'});
    var whole, frac := number[..point], if point < |number| then number[point + 1..] else "";
    CharsOfValues(whole);
    PointJoins(number);
    if point < |number| {
      CharsOfValues(frac);
    }
    l := Literal(sign, Values(whole), point < |number|, if point < |number| then Values(frac) else [], mark, exponent);
    hide Find, Chars, Values, AllDigitChars;
    assert l.Number() == number;
  }

  /** Nothing else is accepted: what parses is a literal of the documented form. */
  lemma AcceptedIsLiteral(s: string) returns (l: Literal)
    ensures Parsed(s).Ok? ==> l.WellFormed() && l.Spelled() == s
  {
    hide Parsed, ParsedDecimal, ParseI32, IsNegative, Literal.WellFormed, Literal.Spelled;
    hide SignOf, NumberOf, MarkOf, ExponentOf, IsSign, IsMark, AllDigitChars, Find;
    l := Literal("", [], false, [], "", "");
    if Parsed(s).Ok? {
      ParsedOf(s);
      NumberAccepted(IsNegative(s), NumberOf(s), if MarkOf(s) == "" then E.Some(0) else ParseI32(ExponentOf(s)));
      SignJoins(s);
      MarkJoins(s);
      l := LiteralOfNumber(SignOf(s), NumberOf(s), MarkOf(s), ExponentOf(s));
    }
  }

  /** The literal a decimal displays as. */
  function LiteralOf(d: Decimal): Literal
    requires d.Valid()
  {
    var sign := if d.negative then "-" else "";
    if d.scale <= 0 then Literal(sign, d.digits + Zeros(-(d.scale as int)), false, [], "", "")
    else if |d.digits| > d.scale
    then Literal(sign, d.digits[..|d.digits| - d.scale], true, d.digits[|d.digits| - d.scale..], "", "")
    else Literal(sign, [0], true, Zeros(d.scale - |d.digits|) + d.digits, "", "")
  }

  lemma Flatten(a: string, b: string, c: string, d: string)
    ensures a + ((b + (c + d)) + ("" + "")) == a + b + c + d
  {
  }

  lemma WholeText(d: Decimal)
    requires d.Valid() && d.scale <= 0
    ensures LiteralOf(d).Spelled() == Text(d)
  {
    var l, zeros := LiteralOf(d), Zeros(-(d.scale as int));
    CharsConcat(d.digits, zeros);
    hide Chars, Zeros;
    Flatten(l.sign, Chars(d.digits), Chars(zeros), "");
    assert Chars(zeros) + "" == Chars(zeros);
    assert (Chars(d.digits) + Chars(zeros)) + "" == Chars(d.digits) + Chars(zeros);
  }

  lemma PointText(d: Decimal)
    requires d.Valid() && 0 < d.scale < |d.digits|
    ensures LiteralOf(d).Spelled() == Text(d)
  {
    hide Chars;
    var l := LiteralOf(d);
    Flatten(l.sign, Chars(l.whole), ".", Chars(l.frac));
  }

  lemma FractionText(d: Decimal)
    requires d.Valid() && d.scale > 0 && d.scale >= |d.digits|
    ensures LiteralOf(d).Spelled() == Text(d)
  {
    var l, zeros := LiteralOf(d), Zeros(d.scale - |d.digits|);
    assert Chars([0]) == "0";
    CharsConcat(zeros, d.digits);
    hide Chars, Zeros;
    Flatten(l.sign, "0", ".", Chars(l.frac));
    assert l.sign + "0" + "." == l.sign + "0.";
    Associate(l.sign + "0.", Chars(zeros), Chars(d.digits));
  }

  lemma Associate(a: string, b: string, c: string)
    ensures (a + b) + c == a + (b + c)
  {
  }

  lemma LiteralOfForm(d: Decimal)
    requires d.Valid()
    ensures LiteralOf(d).WellFormed()
  {
  }

  lemma TextIsLiteral(d: Decimal)
    requires d.Valid()
    ensures LiteralOf(d).WellFormed() && LiteralOf(d).Spelled() == Text(d)
  {
    LiteralOfForm(d);
    hide Text, LiteralOf, Literal.Spelled;
    if d.scale <= 0 {
      WholeText(d);
    } else if |d.digits| > d.scale {
      PointText(d);
    } else {
      FractionText(d);
    }
  }

  /** Its digits are the decimal's, behind zeros or before them. */
  lemma LiteralDigits(d: Decimal)
    requires d.Valid()
    ensures var all := LiteralOf(d).whole + LiteralOf(d).frac;
      && |LiteralOf(d).frac| == (if d.scale < 0 then 0 else d.scale)
      && all == (if d.scale <= 0 then d.digits + Zeros(-(d.scale as int))
                 else Zeros(if |d.digits| > d.scale then 0 else 1 + d.scale - |d.digits|) + d.digits)
  {
    hide Zeros;
    var n := |d.digits|;
    if d.scale > 0 && n > d.scale {
      ZerosNone(d.digits);
      assert d.digits[..n - d.scale] + d.digits[n - d.scale..] == d.digits;
    } else if d.scale > 0 {
      ZerosMore(d.scale - n, d.digits);
    }
  }

  lemma ZerosNone(ds: seq<byte>)
    ensures Zeros(0) + ds == ds
  {
  }

  lemma ZerosMore(n: nat, ds: seq<byte>)
    ensures [0] + (Zeros(n) + ds) == Zeros(1 + n) + ds
  {
  }

  lemma TextMeaning(d: Decimal)
    requires d.Valid()
    ensures var l := LiteralOf(d);
      && l.WellFormed()
      && Parsed(Text(d)) == Assembled(d.negative, if d.scale < 0 then 0 else d.scale, l.whole + l.frac)
  {
    hide Parsed, Assembled, Literal.Spelled, Zeros;
    TextIsLiteral(d);
    LiteralParses(LiteralOf(d));
    LiteralDigits(d);
  }

  /** With a scale of zero or more, displayed text parses back to the same sign, scale
      and digits. */
  lemma TextRoundTrip(d: Decimal)
    requires d.Valid() && d.scale >= 0
    ensures Parsed(Text(d)) == Ok(d)
  {
    hide Parsed, Assembled, Text, LiteralOf;
    TextMeaning(d);
    LiteralDigits(d);
    var pad := if d.scale == 0 || |d.digits| > d.scale then 0 else 1 + d.scale - |d.digits|;
    AssembledAgain(d, pad);
    assert d.digits + Zeros(0) == d.digits == Zeros(0) + d.digits;
  }

  /** With a negative scale the trailing zeros become digits: the text parses exactly
      when all of them fit in 38, and then to a numerically equal value. */
  lemma NegativeScaleText(d: Decimal)
    requires d.Valid() && d.scale < 0
    ensures var r := Parsed(Text(d));
      && (r.Ok? <==> |d.digits| - d.scale <= MAX_DIGITS)
      && (r.Ok? ==> r.value.Valid() && r.value.scale == 0 && r.value.Cmp(d) == Equal)
  {
    hide Parsed, Text, LiteralOf, Num, Pow10;
    TextMeaning(d);
    LiteralDigits(d);
    var zeros := -(d.scale as int);
    var all := d.digits + Zeros(zeros);
    assert all[0] == d.digits[0] != 0;
    assert LeadingZeros(all) == 0 && all[0..] == all;
    if |all| <= MAX_DIGITS {
      ZerosAreScale(d, Decimal(d.negative, 0, all));
    }
  }

  lemma ZerosAreScale(d: Decimal, e: Decimal)
    requires d.Valid() && d.scale < 0 && |d.digits| - d.scale <= MAX_DIGITS
    requires e == Decimal(d.negative, 0, d.digits + Zeros(-(d.scale as int)))
    ensures e.Valid() && e.Cmp(d) == Equal
  {
    hide Num, Decimal.Cmp;
    assert e.digits[0] == d.digits[0] != 0;
    CmpIsNumeric(e, d, 0);
    NumTrailing(d.digits, -(d.scale as int));
    assert Pow10(0) == 1;
  }

  // ---------------------------------------------------------------------
  // The text, character by character
  // ---------------------------------------------------------------------

  /** A minus before a negative number and nothing before another; digits, none of them
      a leading zero but the one alone before the point; and the point, when the scale is
      positive, with exactly that many digits behind it. */
  predicate LaidOut(text: string, negative: bool, scale: int) {
    var at := if negative then 1 else 0;
    var point := if scale > 0 then |text| - 1 - scale else |text|;
    && at < point && (text[0] == '-' <==> negative)
    && (text[at] == '0' ==> at + 1 == point)
    && forall i | at <= i < |text| :: if i == point then text[i] == '.' else '0' <= text[i] <= '9'
  }

  /** The text without its sign and its point. */
  function DigitsIn(text: string, negative: bool, scale: int): string
    requires LaidOut(text, negative, scale)
  {
    var at := if negative then 1 else 0;
    if scale > 0 then text[at..|text| - 1 - scale] + text[|text| - scale..] else text[at..]
  }

  lemma JoinedAt(sign: string, whole: string, frac: string, i: nat)
    requires |sign| <= i < |sign| + |whole| + 1 + |frac|
    ensures var at := |sign| + |whole|;
      (sign + (whole + ("." + frac)))[i] == if i < at then whole[i - |sign|] else if i == at then '.' else frac[i - at - 1]
  {
  }

  lemma JoinedCuts(sign: string, whole: string, frac: string)
    ensures var (text, at) := (sign + (whole + ("." + frac)), |sign| + |whole|);
      text[|sign|..at] == whole && text[at + 1..] == frac
  {
  }

  lemma Joined(sign: string, whole: string, frac: string, scale: int)
    requires sign == "" || sign == "-"
    requires AllDigitChars(whole) && AllDigitChars(frac) && whole != "" && (whole[0] == '0' ==> |whole| == 1)
    requires scale > 0 && |frac| == scale
    ensures var text := sign + (whole + ("." + frac));
      LaidOut(text, sign == "-", scale) && DigitsIn(text, sign == "-", scale) == whole + frac
  {
    var text, at := sign + (whole + ("." + frac)), |sign|;
    var point := at + |whole|;
    assert text[0] == if sign == "-" then '-' else whole[0];
    assert LaidOut(text, sign == "-", scale) by {
      forall i | at <= i < |text| ensures if i == point then text[i] == '.' else '0' <= text[i] <= '9' {
        JoinedAt(sign, whole, frac, i);
      }
      JoinedAt(sign, whole, frac, at);
    }
    JoinedCuts(sign, whole, frac);
  }

  lemma Alone(sign: string, whole: string, scale: int)
    requires sign == "" || sign == "-"
    requires AllDigitChars(whole) && whole != "" && (whole[0] == '0' ==> |whole| == 1)
    requires scale <= 0
    ensures var text := sign + whole;
      LaidOut(text, sign == "-", scale) && DigitsIn(text, sign == "-", scale) == whole
  {
    var text, at := sign + whole, |sign|;
    assert forall i | at <= i < |text| :: text[i] == whole[i - at];
  }

  lemma NumberOfText(d: Decimal)
    requires d.Valid()
    ensures LiteralOf(d).WellFormed() && Text(d) == LiteralOf(d).sign + LiteralOf(d).Number()
  {
    TextIsLiteral(d);
    hide Text, LiteralOf, Literal.Number;
    var n := LiteralOf(d).Number();
    assert "" + "" == "" && n + "" == n;
    NoExponent(d);
  }

  lemma NoExponent(d: Decimal)
    requires d.Valid()
    ensures LiteralOf(d).mark == "" && LiteralOf(d).exponent == ""
  {
  }

  /** The first digit is zero only when it is the whole of the integer part. */
  lemma FirstDigit(d: Decimal)
    requires d.Valid()
    ensures var l := LiteralOf(d);
      && l.whole != [] && (l.whole[0] == 0 ==> |l.whole| == 1)
      && (l.point <==> d.scale > 0) && l.sign == (if d.negative then "-" else "")
      && (d.scale > 0 ==> |l.frac| == d.scale) && (d.scale <= 0 ==> l.frac == [])
  {
  }

  /** The text is laid out so, and its digits are the decimal's, times ten for each place
      a negative scale moves them up. */
  lemma TextExactly(d: Decimal)
    requires d.Valid()
    ensures LaidOut(Text(d), d.negative, d.scale)
    ensures var digits := DigitsIn(Text(d), d.negative, d.scale);
      && AllDigitChars(digits)
      && Num(Values(digits)) == Num(d.digits) * Pow10(if d.scale < 0 then -(d.scale as int) else 0)
  {
    NumberOfText(d);
    FirstDigit(d);
    LiteralDigits(d);
    var l := LiteralOf(d);
    DigitsNumber(d, l.whole + l.frac);
    hide Text, LiteralOf, LaidOut, DigitsIn, Num, Pow10, Zeros, Chars, Values, AllDigitChars, Literal.Number, Literal.WellFormed;
    LiteralLaidOut(l, d.scale);
  }

  lemma LiteralLaidOut(l: Literal, scale: int)
    requires l.WellFormed() && l.sign != "+" && l.whole != [] && (l.whole[0] == 0 ==> |l.whole| == 1)
    requires (l.point <==> scale > 0) && (scale > 0 ==> |l.frac| == scale)
    ensures var text := l.sign + l.Number();
      && LaidOut(text, l.sign == "-", scale)
      && DigitsIn(text, l.sign == "-", scale) == Chars(l.whole + l.frac)
      && AllDigitChars(Chars(l.whole + l.frac)) && Values(Chars(l.whole + l.frac)) == l.whole + l.frac
  {
    hide LaidOut, DigitsIn;
    ValuesOfChars(l.whole);
    ValuesOfChars(l.frac);
    ValuesOfChars(l.whole + l.frac);
    CharsConcat(l.whole, l.frac);
    if l.point {
      Joined(l.sign, Chars(l.whole), Chars(l.frac), scale);
    } else {
      Alone(l.sign, Chars(l.whole), scale);
      assert Chars(l.whole) + "" == Chars(l.whole) && l.whole + [] == l.whole;
    }
  }

  /** The digits, behind zeros or before them, spell the scaled number. */
  lemma DigitsNumber(d: Decimal, all: seq<byte>)
    requires d.Valid()
    requires all == (if d.scale <= 0 then d.digits + Zeros(-(d.scale as int))
                     else Zeros(if |d.digits| > d.scale then 0 else 1 + d.scale - |d.digits|) + d.digits)
    ensures Num(all) == Num(d.digits) * Pow10(if d.scale < 0 then -(d.scale as int) else 0)
  {
    hide Num, Zeros;
    assert Pow10(0) == 1;
    if d.scale <= 0 {
      NumTrailing(d.digits, -(d.scale as int));
    } else {
      NumPadded(if |d.digits| > d.scale then 0 else 1 + d.scale - |d.digits|, d.digits);
    }
  }

  // ---------------------------------------------------------------------
  // What a literal is worth
  // ---------------------------------------------------------------------

  /** An exponent is a sign and digits, and worth what they spell if that fits in 32 bits. */
  lemma ExponentReads(sign: string, ds: seq<byte>)
    requires IsSign(sign) && AllDigits(ds) && ds != []
    ensures var n := if sign == "-" then -(Num(ds) as int) else Num(ds);
      ParseI32(sign + Chars(ds)) == if -0x8000_0000 <= n < 0x8000_0000 then E.Some(n) else E.None
  {
    hide Num;
    ValuesOfChars(ds);
    SignSplitsOff(sign, Chars(ds));
  }

  /** Nothing else is an exponent. */
  lemma ExponentIsDigits(s: string) returns (sign: string, ds: seq<byte>)
    ensures ParseI32(s).Some? ==> IsSign(sign) && AllDigits(ds) && ds != [] && s == sign + Chars(ds)
  {
    hide Num;
    sign, ds := "", [];
    if ParseI32(s).Some? {
      sign, ds := SignOf(s), Values(Unprefixed(s));
      SignJoins(s);
      CharsOfValues(Unprefixed(s));
    }
  }

  /** A literal with the exponent `k` parses unless its scale leaves 32 bits or its digits
      spell a number of more than 38, and then to that number, signed and scaled. */
  lemma LiteralValue(l: Literal, k: int, s: int)
    requires l.WellFormed() && l.Power() == E.Some(k)
    requires s >= |l.frac| - k && s >= 0
    ensures var r := Parsed(l.Spelled());
      var n := Num(l.whole + l.frac);
      && (r.Ok? <==> |l.frac| < 0x8000_0000 && -0x8000_0000 <= |l.frac| - k < 0x8000_0000 && n < Pow10(MAX_DIGITS))
      && (r.Ok? ==> r.value.Valid() && s >= r.value.scale)
      && (r.Ok? ==> Scaled(r.value, s) == (if l.sign == "-" then -(n as int) else n) * Pow10(s - (|l.frac| - k)))
  {
    hide Parsed, Assembled, Num, Pow10, Literal.Spelled;
    LiteralParses(l);
    if IsI32(|l.frac|) && IsI32(|l.frac| - k) {
      AssembledIsExact(l.sign == "-", |l.frac| - k, l.whole + l.frac);
      var r := Parsed(l.Spelled());
      if r.Ok? && Num(l.whole + l.frac) == 0 {
        ZeroDigits(r.value);
      }
    }
  }

  lemma ZeroDigits(d: Decimal)
    requires d.Valid() && Num(d.digits) == 0
    ensures d == Zero()
  {
    hide Num, Pow10;
    if d.digits[0] != 0 {
      NumFloor(d.digits);
    }
  }
}
