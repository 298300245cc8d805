/** Bytes, and fixed-width unsigned integers in both byte orders. */
module Bytes {
  type byte = b: int | 0 <= b < 256

  const U8_LIMIT := 0x100
  const U16_LIMIT := 0x1_0000
  const U32_LIMIT := 0x1_0000_0000
  const U64_LIMIT := 0x1_0000_0000_0000_0000

  /** How many values `width` bytes can hold. */
  function Limit(width: nat): (n: nat)
    ensures n >= 1
  {
    if width == 0 then 1 else 256 * Limit(width - 1)
  }

  lemma Limits()
    ensures Limit(0) == 1 && Limit(1) == U8_LIMIT && Limit(2) == U16_LIMIT
    ensures Limit(4) == U32_LIMIT && Limit(8) == U64_LIMIT
  {
    assert Limit(3) == 256 * Limit(2);
    assert Limit(4) == 256 * Limit(3);
    assert Limit(5) == 256 * Limit(4);
    assert Limit(6) == 256 * Limit(5);
    assert Limit(7) == 256 * Limit(6);
  }

  /** `n` in `width` bytes, most significant first. */
  function BigEndian(n: nat, width: nat): (b: seq<byte>)
    ensures |b| == width
  {
    if width == 0 then [] else BigEndian(n / 256, width - 1) + [n % 256]
  }

  /** The number `b` spells, most significant byte first. */
  function FromBigEndian(b: seq<byte>): (n: nat)
    ensures n < Limit(|b|) && (b == [] ==> n == 0)
  {
    if b == [] then 0 else 256 * FromBigEndian(b[..|b| - 1]) + b[|b| - 1]
  }

  lemma {:induction false} BigEndianRoundTrip(n: nat, width: nat)
    requires n < Limit(width)
    ensures FromBigEndian(BigEndian(n, width)) == n
  {
    if width > 0 {
      BigEndianRoundTrip(n / 256, width - 1);
      var b := BigEndian(n, width);
      assert b[..|b| - 1] == BigEndian(n / 256, width - 1);
    }
  }

  lemma BigEndianLast(n: nat, last: byte, width: nat)
    ensures BigEndian(256 * n + last, width + 1) == BigEndian(n, width) + [last]
  {
    assert (256 * n + last) % 256 == last && (256 * n + last) / 256 == n;
  }

  lemma {:induction false} FromBigEndianRoundTrip(b: seq<byte>)
    ensures BigEndian(FromBigEndian(b), |b|) == b
  {
    if b != [] {
      var (front, last) := (b[..|b| - 1], b[|b| - 1]);
      FromBigEndianRoundTrip(front);
      BigEndianLast(FromBigEndian(front), last, |front|);
      assert FromBigEndian(b) == 256 * FromBigEndian(front) + last;
      hide Limit, BigEndian, FromBigEndian;
      assert b == front + [last];
    }
  }

  lemma DivideOnce(n: nat, d: nat, q: nat, r: nat)
    requires n == d * q + r && r < d
    ensures n / d == q
  {
    var (q', r') := (n / d, n % d);
    assert d * q + r == d * q' + r';
    if q < q' {
      Multiples(d, q + 1, q');
    } else if q' < q {
      Multiples(d, q' + 1, q);
    }
  }

  lemma {:induction false} Multiples(d: nat, a: nat, b: nat)
    requires a <= b
    ensures d * a <= d * b
    decreases b - a
  {
    if a < b {
      Multiples(d, a, b - 1);
      assert d * b == d * (b - 1) + d;
    }
  }

  /** Dividing by 256 and then by `d` is dividing by both. */
  lemma DivideTwice(n: nat, d: nat)
    requires d >= 1
    ensures n / 256 / d == n / (256 * d)
  {
    var (m, r) := (n / 256, n % 256);
    var (q, s) := (m / d, m % d);
    assert 256 * (d * q) == (256 * d) * q;
    DivideOnce(n, 256 * d, q, 256 * s + r);
  }

  /** Byte `i` of `n`, most significant first, has the weight of the places behind it. */
  lemma {:induction false} BigEndianAt(n: nat, width: nat, i: nat)
    requires i < width
    ensures BigEndian(n, width)[i] == n / Limit(width - 1 - i) % 256
    decreases width
  {
    if i < width - 1 {
      BigEndianAt(n / 256, width - 1, i);
      DivideTwice(n, Limit(width - 2 - i));
    }
  }

  /** The first of the bytes read has the highest weight. */
  lemma {:induction false} FromBigEndianHead(hi: byte, lo: seq<byte>)
    ensures FromBigEndian([hi] + lo) == hi * Limit(|lo|) + FromBigEndian(lo)
    decreases |lo|
  {
    var all := [hi] + lo;
    if lo == [] {
      assert all[..0] == [];
    } else {
      var (front, last) := (lo[..|lo| - 1], lo[|lo| - 1]);
      assert all[..|all| - 1] == [hi] + front;
      FromBigEndianHead(hi, front);
      var l := Limit(|front|);
      assert Limit(|lo|) == 256 * l;
      hide Limit;
      assert hi * (256 * l) == 256 * (hi * l);
    }
  }

  /** `n` in `width` bytes, least significant first. */
  function LittleEndian(n: nat, width: nat): (b: seq<byte>)
    ensures |b| == width
  {
    if width == 0 then [] else [n % 256] + LittleEndian(n / 256, width - 1)
  }

  /** The number `b` spells, least significant byte first. */
  function FromLittleEndian(b: seq<byte>): (n: nat)
    ensures n < Limit(|b|)
  {
    if b == [] then 0 else b[0] + 256 * FromLittleEndian(b[1..])
  }

  lemma {:induction false} LittleEndianRoundTrip(n: nat, width: nat)
    requires n < Limit(width)
    ensures FromLittleEndian(LittleEndian(n, width)) == n
  {
    if width > 0 {
      LittleEndianRoundTrip(n / 256, width - 1);
    }
  }

  lemma {:induction false} FromLittleEndianRoundTrip(b: seq<byte>)
    ensures LittleEndian(FromLittleEndian(b), |b|) == b
  {
    hide Limit;
    if b != [] {
      var n := FromLittleEndian(b[1..]);
      FromLittleEndianRoundTrip(b[1..]);
      assert (b[0] + 256 * n) % 256 == b[0] && (b[0] + 256 * n) / 256 == n;
      assert b == [b[0]] + b[1..];
    }
  }

  /** Byte `i` of `n`, least significant first, has the weight of the places before it. */
  lemma {:induction false} LittleEndianAt(n: nat, width: nat, i: nat)
    requires i < width
    ensures LittleEndian(n, width)[i] == n / Limit(i) % 256
    decreases width
  {
    if i > 0 {
      LittleEndianAt(n / 256, width - 1, i - 1);
      DivideTwice(n, Limit(i - 1));
    }
  }

  lemma Weigh(first: nat, rest: nat, weight: nat, last: nat)
    ensures first + 256 * (rest + weight * last) == first + 256 * rest + (256 * weight) * last
  {
  }

  /** The last of the bytes read has the highest weight. */
  lemma {:induction false} FromLittleEndianLast(lo: seq<byte>, hi: byte)
    ensures FromLittleEndian(lo + [hi]) == FromLittleEndian(lo) + Limit(|lo|) * hi
    decreases |lo|
  {
    var all := lo + [hi];
    if lo == [] {
      assert all[1..] == [];
    } else {
      var rest := lo[1..];
      assert all[1..] == rest + [hi] && all[0] == lo[0];
      FromLittleEndianLast(rest, hi);
      Weigh(lo[0], FromLittleEndian(rest), Limit(|rest|), hi);
      assert FromLittleEndian(all) == lo[0] + 256 * FromLittleEndian(rest + [hi]);
    }
  }

  /** The two's-complement reading of an unsigned number below `limit`. */
  function Signed(n: nat, limit: nat): (v: int)
    requires n < limit
    ensures -(limit as int) <= 2 * v < limit && (v - n == 0 || v - n == -(limit as int))
  {
    if 2 * n < limit then n else n - limit
  }

  /** The two's-complement bits of `v`, as an unsigned number below `limit`. */
  function Unsigned(v: int, limit: nat): (n: nat)
    requires -(limit as int) <= 2 * v < limit
    ensures n < limit && Signed(n, limit) == v && (n == v || n == v + limit)
  {
    if v >= 0 then v else v + limit
  }
}
