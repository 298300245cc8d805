/** Datetimes: construction, order, the displayed fields, and the `MP_DATETIME` payload. */
module Datetimes {
  import opened Bytes
  import opened Calendar
  import opened Digits
  import opened Errors
  import opened Integers

  const NANOS_PER_SECOND := 1_000_000_000
  const SECONDS_PER_DAY := 86_400

  datatype Datetime = Datetime(epoch: i64, nsec: u32, tzOffset: i16, tzIndex: i16) {

    /** What every constructor and decoder yields. */
    predicate Valid() {
      nsec < NANOS_PER_SECOND
    }

    /** Nanoseconds since the Unix epoch. */
    function Instant(): int {
      epoch * NANOS_PER_SECOND + nsec
    }

    function Cmp(other: Datetime): Ordering {
      if epoch != other.epoch then Order(epoch, other.epoch) else Order(nsec, other.nsec)
    }

    predicate Eq(other: Datetime) {
      epoch == other.epoch && nsec == other.nsec
    }
  }

  /** Order and equality are those of the instants, whatever the zones. */
  lemma CmpIsInstant(a: Datetime, b: Datetime)
    requires a.Valid() && b.Valid()
    ensures a.Cmp(b) == Order(a.Instant(), b.Instant())
    ensures a.Eq(b) <==> a.Instant() == b.Instant()
  {
    if a.epoch < b.epoch {
      assert a.epoch + 1 <= b.epoch;
    } else if b.epoch < a.epoch {
      assert b.epoch + 1 <= a.epoch;
    }
  }

  function FromUnix(seconds: i64, nanoseconds: u32): Datetime {
    Datetime(SaturatingAdd(seconds, nanoseconds / NANOS_PER_SECOND), nanoseconds % NANOS_PER_SECOND, 0, 0)
  }

  /** Excess nanoseconds carry into the seconds; the instant is exact unless the seconds
      saturate. */
  lemma FromUnixCarries(seconds: i64, nanoseconds: u32)
    ensures var d := FromUnix(seconds, nanoseconds);
      && d.Valid()
      && (d.Instant() == seconds * NANOS_PER_SECOND + nanoseconds <==> seconds + nanoseconds / NANOS_PER_SECOND <= I64_MAX)
  {
    var carry := nanoseconds / NANOS_PER_SECOND;
    assert nanoseconds == carry * NANOS_PER_SECOND + nanoseconds % NANOS_PER_SECOND;
    assert (seconds + carry) * NANOS_PER_SECOND == seconds * NANOS_PER_SECOND + carry * NANOS_PER_SECOND;
  }

  // ---------------------------------------------------------------------
  // Display
  // ---------------------------------------------------------------------

  /** The fields of RFC 3339, section 5.6, before they are printed. */
  datatype Shown = Shown(date: Date, hour: nat, minute: nat, second: nat) {
    predicate Valid() {
      IsDate(date) && hour < 24 && minute < 60 && second < 60
    }

    /** Seconds from 1970-01-01T00:00:00 on the same clock. */
    function Seconds(): int
      requires Valid()
    {
      DayNumber(date) * SECONDS_PER_DAY + 3600 * hour + 60 * minute + second
    }
  }

  function Local(d: Datetime): i64 {
    SaturatingAdd(d.epoch, d.tzOffset * 60)
  }

  /** The date/time split of `Display`. */
  function Split(d: Datetime): Option<Shown> {
    match CivilFromDays(Local(d) / SECONDS_PER_DAY)
    case None => None
    case Some(date) =>
      var secondOfDay := Local(d) % SECONDS_PER_DAY;
      Some(Shown(date, secondOfDay / 3600, secondOfDay / 60 % 60, secondOfDay % 60))
  }

  /** Displaying never overflows; the fields are a date of the calendar and a time of
      day, and together they are the clock reading, which is the epoch plus the offset
      unless that addition saturates. */
  lemma SplitIsExact(d: Datetime)
    ensures var r := Split(d);
      && r.Some? && r.value.Valid() && r.value.Seconds() == Local(d)
      && (r.value.Seconds() == d.epoch + 60 * d.tzOffset <==> -I64_MAX - 1 <= d.epoch + 60 * d.tzOffset <= I64_MAX)
  {
    hide DayNumber, IsDate, CivilFromDays;
    CivilIsInverse(Local(d) / SECONDS_PER_DAY);
    TimeOfDay(Local(d) % SECONDS_PER_DAY);
  }

  lemma TimeOfDay(s: nat)
    requires s < SECONDS_PER_DAY
    ensures s / 3600 < 24 && s / 60 % 60 < 60 && s % 60 < 60
    ensures 3600 * (s / 3600) + 60 * (s / 60 % 60) + s % 60 == s
  {
    assert s / 3600 == s / 60 / 60;
  }

  /** The fields shown are the only ones that read as this clock. */
  lemma SplitIsOnly(d: Datetime, other: Shown)
    requires other.Valid() && other.Seconds() == Local(d)
    ensures Split(d) == Some(other)
  {
    hide DayNumber, IsDate, CivilFromDays;
    SplitIsExact(d);
    hide Split;
    SameClock(Split(d).value, other);
  }

  lemma SameClock(a: Shown, b: Shown)
    requires a.Valid() && b.Valid() && a.Seconds() == b.Seconds()
    ensures a == b
  {
    hide DayNumber, IsDate;
    var x, y := 3600 * a.hour + 60 * a.minute + a.second, 3600 * b.hour + 60 * b.minute + b.second;
    assert 0 <= x < SECONDS_PER_DAY && 0 <= y < SECONDS_PER_DAY;
    SameDay(DayNumber(a.date), x, DayNumber(b.date), y);
    DayNumberIsUnique(a.date, b.date);
  }

  lemma SameDay(a: int, x: int, b: int, y: int)
    requires a * SECONDS_PER_DAY + x == b * SECONDS_PER_DAY + y
    requires 0 <= x < SECONDS_PER_DAY && 0 <= y < SECONDS_PER_DAY
    ensures a == b && x == y
  {
  }

  // ---------------------------------------------------------------------
  // The payload
  // ---------------------------------------------------------------------

  datatype Decoding = Decoding(value: Datetime) | Rejected(reason: string)

  /** `to_le_bytes` and `from_le_bytes` of a signed integer. */
  function SignedBytes(v: int, width: nat): (b: seq<byte>)
    requires -(Limit(width) as int) <= 2 * v < Limit(width)
    ensures |b| == width
  {
    LittleEndian(Unsigned(v, Limit(width)), width)
  }

  function FromSignedBytes(b: seq<byte>): (v: int)
    ensures -(Limit(|b|) as int) <= 2 * v < Limit(|b|)
  {
    Signed(FromLittleEndian(b), Limit(|b|))
  }

  lemma SignedRoundTrip(v: int, width: nat)
    requires -(Limit(width) as int) <= 2 * v < Limit(width)
    ensures FromSignedBytes(SignedBytes(v, width)) == v
  {
    LittleEndianRoundTrip(Unsigned(v, Limit(width)), width);
  }

  lemma FromSignedRoundTrip(b: seq<byte>)
    ensures SignedBytes(FromSignedBytes(b), |b|) == b
  {
    FromLittleEndianRoundTrip(b);
  }

  /** The ranges of the integer types are those of their bytes. */
  lemma Widths()
    ensures Limit(2) == U16_LIMIT && Limit(4) == U32_LIMIT && Limit(8) == U64_LIMIT
  {
    Limits();
  }

  predicate HasTail(d: Datetime) {
    d.nsec != 0 || d.tzOffset != 0 || d.tzIndex != 0
  }

  function Tail(d: Datetime): (b: seq<byte>)
    ensures |b| == 8
  {
    Widths();
    LittleEndian(d.nsec, 4) + SignedBytes(d.tzOffset, 2) + SignedBytes(d.tzIndex, 2)
  }

  function Payload(d: Datetime): (b: seq<byte>)
    ensures |b| == if HasTail(d) then 16 else 8
  {
    Widths();
    SignedBytes(d.epoch, 8) + if HasTail(d) then Tail(d) else []
  }

  method ToPayload(d: Datetime) returns (out: seq<byte>)
    ensures out == Payload(d)
  {
    hide SignedBytes, LittleEndian, Limit;
    Widths();
    out := SignedBytes(d.epoch, 8);
    if HasTail(d) {
      out := out + LittleEndian(d.nsec, 4);
      out := out + SignedBytes(d.tzOffset, 2);
      out := out + SignedBytes(d.tzIndex, 2);
      assert out == SignedBytes(d.epoch, 8) + Tail(d);
    }
  }

  function Decoded(payload: seq<byte>): Decoding {
    Widths();
    match |payload|
    case 8 => Decoding(FromUnix(FromSignedBytes(payload), 0))
    case 16 =>
      var nsec := FromLittleEndian(payload[8..12]);
      if nsec >= NANOS_PER_SECOND then Rejected("nanoseconds out of range")
      else Decoding(Datetime(FromSignedBytes(payload[..8]), nsec,
                             FromSignedBytes(payload[12..14]), FromSignedBytes(payload[14..16])))
    case _ => Rejected("payload is not 8 or 16 bytes")
  }

  /** `from_payload` undoes `to_payload`. */
  lemma PayloadRoundTrip(d: Datetime)
    requires d.Valid()
    ensures Decoded(Payload(d)) == Decoding(d)
  {
    hide SignedBytes, FromSignedBytes, LittleEndian, FromLittleEndian, Limit;
    Widths();
    SignedRoundTrip(d.epoch, 8);
    var p := Payload(d);
    if HasTail(d) {
      LittleEndianRoundTrip(d.nsec, 4);
      SignedRoundTrip(d.tzOffset, 2);
      SignedRoundTrip(d.tzIndex, 2);
      assert p[..8] == SignedBytes(d.epoch, 8) && p[8..12] == LittleEndian(d.nsec, 4);
      assert p[12..14] == SignedBytes(d.tzOffset, 2) && p[14..16] == SignedBytes(d.tzIndex, 2);
    } else {
      assert p == SignedBytes(d.epoch, 8);
    }
  }

  /** Decoding and encoding again gives the same bytes, but for a tail of zeros, which
      is dropped. */
  lemma Reencoded(payload: seq<byte>)
    requires Decoded(payload).Decoding?
    ensures Decoded(payload).value.Valid()
    ensures Payload(Decoded(payload).value)
         == if |payload| == 16 && payload[8..] == [0, 0, 0, 0, 0, 0, 0, 0] then payload[..8] else payload
  {
    hide SignedBytes, FromSignedBytes, LittleEndian, FromLittleEndian, Limit;
    Widths();
    if |payload| == 8 {
      FromSignedRoundTrip(payload);
    } else {
      var nsec, offset, index := payload[8..12], payload[12..14], payload[14..16];
      FromSignedRoundTrip(payload[..8]);
      FromLittleEndianRoundTrip(nsec);
      FromSignedRoundTrip(offset);
      FromSignedRoundTrip(index);
      assert payload == payload[..8] + nsec + offset + index;
      assert payload[8..] == nsec + offset + index;
      ZeroTail();
      var d := Decoded(payload).value;
      assert nsec == LittleEndian(d.nsec, 4) && offset == SignedBytes(d.tzOffset, 2) && index == SignedBytes(d.tzIndex, 2);
      assert !HasTail(d) ==> nsec + offset + index == [0, 0, 0, 0, 0, 0, 0, 0];
      if payload[8..] == [0, 0, 0, 0, 0, 0, 0, 0] {
        assert nsec == payload[8..][..4] == [0, 0, 0, 0];
        assert offset == payload[8..][4..6] == [0, 0] && index == payload[8..][6..8] == [0, 0];
        assert !HasTail(d) && payload[..8] + [] == payload[..8];
      } else {
        assert payload == payload[..8] + (nsec + offset + index);
      }
    }
  }

  lemma ZeroTail()
    ensures Limit(2) == U16_LIMIT
    ensures LittleEndian(0, 4) == [0, 0, 0, 0] && SignedBytes(0, 2) == [0, 0]
    ensures FromLittleEndian([0, 0, 0, 0]) == 0 && FromSignedBytes([0, 0]) == 0
  {
    Widths();
    assert LittleEndian(0, 1) == [0] && LittleEndian(0, 2) == [0, 0] && LittleEndian(0, 3) == [0, 0, 0];
    LittleEndianRoundTrip(0, 4);
    SignedRoundTrip(0, 2);
  }

  // ---------------------------------------------------------------------
  // The payload, byte by byte
  // ---------------------------------------------------------------------

  /** `width` bytes from `at` on hold `v`, least significant first and in two's complement:
      each is what is left of `v` above the bytes before it. */
  ghost predicate Holds(bytes: seq<byte>, at: nat, width: nat, v: int) {
    at + width <= |bytes| && forall i | 0 <= i < width :: bytes[at + i] == v / Limit(i) % 256
  }

  lemma {:induction false} LimitAdd(m: nat, n: nat)
    ensures Limit(m + n) == Limit(m) * Limit(n)
    decreases m
  {
    if m > 0 {
      LimitAdd(m - 1, n);
    }
  }

  lemma QuotientShifts(v: int, d: nat, a: int)
    requires d >= 1
    ensures (v + d * a) / d == v / d + a
  {
    var q, r := v / d, v % d;
    assert v + d * a == d * (q + a) + r;
    QuotientIs(v + d * a, d, q + a, r);
  }

  lemma QuotientIs(v: int, d: nat, q: int, r: nat)
    requires v == d * q + r && r < d
    ensures v / d == q
  {
    var q', r' := v / d, v % d;
    assert d * (q - q') == r' - r;
    assert d * (q' - q) == r - r';
    if q != q' {
      Multiples(d, 1, if q > q' then q - q' else q' - q);
    }
  }

  /** Adding the whole range to a negative number changes no byte of it. */
  lemma RangeVanishes(v: int, width: nat, i: nat)
    requires i < width
    ensures (v + Limit(width)) / Limit(i) % 256 == v / Limit(i) % 256
  {
    var a := Limit(width - 1 - i);
    LimitAdd(i, width - i);
    assert Limit(width - i) == 256 * a;
    hide Limit;
    QuotientShifts(v, Limit(i), 256 * a);
    RemainderShifts(v / Limit(i), a);
  }

  lemma RemainderShifts(v: int, a: int)
    ensures (v + 256 * a) % 256 == v % 256
  {
  }

  lemma SignedBytesHold(v: int, width: nat)
    requires -(Limit(width) as int) <= 2 * v < Limit(width)
    ensures Holds(SignedBytes(v, width), 0, width, v)
  {
    hide LittleEndian, Limit;
    forall i | 0 <= i < width ensures SignedBytes(v, width)[i] == v / Limit(i) % 256 {
      LittleEndianAt(Unsigned(v, Limit(width)), width, i);
      RangeVanishes(v, width, i);
    }
  }

  lemma LittleEndianHolds(n: nat, width: nat)
    ensures Holds(LittleEndian(n, width), 0, width, n)
  {
    forall i | 0 <= i < width ensures LittleEndian(n, width)[i] == n / Limit(i) % 256 {
      LittleEndianAt(n, width, i);
    }
  }

  lemma HoldsAt(bytes: seq<byte>, at: nat, width: nat, v: int)
    requires at + width <= |bytes| && Holds(bytes[at..at + width], 0, width, v)
    ensures Holds(bytes, at, width, v)
  {
    hide Limit;
    forall i | 0 <= i < width ensures bytes[at + i] == v / Limit(i) % 256 {
      assert bytes[at..at + width][i] == bytes[at + i];
    }
  }

  /** Where each field is written, and when the tail is. */
  lemma PayloadLayout(d: Datetime)
    ensures var p := Payload(d);
      && |p| == (if d.nsec == 0 && d.tzOffset == 0 && d.tzIndex == 0 then 8 else 16)
      && Holds(p, 0, 8, d.epoch)
      && (|p| == 16 ==> Holds(p, 8, 4, d.nsec) && Holds(p, 12, 2, d.tzOffset) && Holds(p, 14, 2, d.tzIndex))
  {
    hide Holds, SignedBytes, LittleEndian, Limit;
    Widths();
    var p := Payload(d);
    SignedBytesHold(d.epoch, 8);
    assert p[0..8] == SignedBytes(d.epoch, 8);
    HoldsAt(p, 0, 8, d.epoch);
    if HasTail(d) {
      LittleEndianHolds(d.nsec, 4);
      SignedBytesHold(d.tzOffset, 2);
      SignedBytesHold(d.tzIndex, 2);
      assert p[8..12] == LittleEndian(d.nsec, 4);
      assert p[12..14] == SignedBytes(d.tzOffset, 2) && p[14..16] == SignedBytes(d.tzIndex, 2);
      HoldsAt(p, 8, 4, d.nsec);
      HoldsAt(p, 12, 2, d.tzOffset);
      HoldsAt(p, 14, 2, d.tzIndex);
    }
  }

  lemma {:induction false} FourBytes(b: seq<byte>)
    requires |b| == 4
    ensures FromLittleEndian(b) == b[0] + b[1] as int * 0x100 + b[2] as int * 0x1_0000 + b[3] as int * 0x100_0000
  {
    assert b[1..][1..] == b[2..] && b[2..][1..] == b[3..] && b[3..][1..] == [];
    assert FromLittleEndian(b[3..]) == b[3];
    assert FromLittleEndian(b[2..]) == b[2] + 256 * FromLittleEndian(b[3..]);
    assert FromLittleEndian(b[1..]) == b[1] + 256 * FromLittleEndian(b[2..]);
  }

  /** What is read: eight bytes, or sixteen whose nanoseconds stay below a second; and the
      fields are those the bytes hold, nothing but the epoch being set by eight. */
  lemma DecodesExactly(payload: seq<byte>)
    ensures Decoded(payload).Decoding? <==>
      || |payload| == 8
      || (|payload| == 16
          && payload[8] + payload[9] as int * 0x100 + payload[10] as int * 0x1_0000 + payload[11] as int * 0x100_0000
             < 1_000_000_000)
    ensures Decoded(payload).Decoding? ==> (
      var d := Decoded(payload).value;
      && Holds(payload, 0, 8, d.epoch)
      && (|payload| == 8 ==> d.nsec == d.tzOffset == d.tzIndex == 0)
      && (|payload| == 16 ==>
            Holds(payload, 8, 4, d.nsec) && Holds(payload, 12, 2, d.tzOffset) && Holds(payload, 14, 2, d.tzIndex)))
  {
    hide Holds, SignedBytes, FromSignedBytes, LittleEndian, FromLittleEndian, Limit;
    Widths();
    if |payload| == 8 || |payload| == 16 {
      HoldsSigned(payload, 0, 8);
      assert |payload| == 8 ==> payload[0..8] == payload;
      assert payload[..8] == payload[0..8];
    }
    if |payload| == 16 {
      FourBytes(payload[8..12]);
      FromLittleEndianRoundTrip(payload[8..12]);
      LittleEndianHolds(FromLittleEndian(payload[8..12]), 4);
      HoldsAt(payload, 8, 4, FromLittleEndian(payload[8..12]));
      HoldsSigned(payload, 12, 2);
      HoldsSigned(payload, 14, 2);
    }
  }

  lemma HoldsSigned(bytes: seq<byte>, at: nat, width: nat)
    requires at + width <= |bytes|
    ensures Holds(bytes, at, width, FromSignedBytes(bytes[at..at + width]))
  {
    hide Holds, SignedBytes, FromSignedBytes;
    FromSignedRoundTrip(bytes[at..at + width]);
    SignedBytesHold(FromSignedBytes(bytes[at..at + width]), width);
    HoldsAt(bytes, at, width, FromSignedBytes(bytes[at..at + width]));
  }
}
