/** Calendar spans, and the field-coded `MP_INTERVAL` payload. */
module Intervals {
  import opened Bytes
  import opened Integers
  import E = Errors
  import Rmp

  datatype Adjust = Limit | Excess | Snap {
    function Code(): i64 {
      match this case Excess => 0 case Limit => 1 case Snap => 2
    }
  }

  function FromCode(code: i64): E.Option<Adjust> {
    match code case 0 => E.Some(Excess) case 1 => E.Some(Limit) case 2 => E.Some(Snap) case _ => E.None
  }

  /** Codes and rules correspond one to one. */
  lemma CodesRoundTrip(a: Adjust, code: i64)
    ensures FromCode(a.Code()) == E.Some(a)
    ensures FromCode(code).Some? ==> FromCode(code).value.Code() == code
  {
  }

  const ADJUST := 8

  datatype Interval = Interval(years: i64, months: i64, weeks: i64, days: i64, hours: i64, minutes: i64,
                               seconds: i64, nanoseconds: i64, adjust: Adjust)

  datatype Result = Ok(value: Interval) | Err(reason: string)

  /** A field id and its value. */
  datatype Field = Field(id: nat, value: i64) {
    predicate Known() {
      id <= ADJUST && (id == ADJUST ==> FromCode(value).Some?)
    }
  }

  const BLANK := Interval(0, 0, 0, 0, 0, 0, 0, 0, Excess)

  function Fields(v: Interval): seq<Field> {
    [Field(0, v.years), Field(1, v.months), Field(2, v.weeks), Field(3, v.days),
     Field(4, v.hours), Field(5, v.minutes), Field(6, v.seconds), Field(7, v.nanoseconds)]
  }

  // ---------------------------------------------------------------------
  // Writing
  // ---------------------------------------------------------------------

  function NonZero(fields: seq<Field>): (r: seq<Field>)
    ensures |r| <= |fields| && forall f | f in r :: f in fields
  {
    if fields == [] then []
    else (if fields[0].value != 0 then [fields[0]] else []) + NonZero(fields[1..])
  }

  /** The rule's field, unless the rule is `Excess`, which an absent field means. */
  function Tail(v: Interval): (r: seq<Field>)
    ensures forall f | f in r :: f.Known()
  {
    if v.adjust == Excess then [] else [Field(ADJUST, v.adjust.Code())]
  }

  /** What is written: the units that are not zero, and the rule unless it is `Excess`. */
  function Written(v: Interval): (r: seq<Field>)
    ensures |r| <= 9 && forall f | f in r :: f.Known()
  {
    NonZero(Fields(v)) + Tail(v)
  }

  function FieldBytes(f: Field): seq<byte>
    requires f.Known()
  {
    Rmp.WriteUint(f.id) + Rmp.WriteSint(f.value)
  }

  function AllBytes(fields: seq<Field>): seq<byte>
    requires forall f | f in fields :: f.Known()
  {
    if fields == [] then [] else FieldBytes(fields[0]) + AllBytes(fields[1..])
  }

  function Payload(v: Interval): seq<byte> {
    Rmp.WriteUint(|Written(v)|) + AllBytes(Written(v))
  }

  lemma {:induction false} NonZeroAppend(fields: seq<Field>, f: Field)
    ensures NonZero(fields + [f]) == NonZero(fields) + if f.value != 0 then [f] else []
    decreases |fields|
  {
    if fields == [] {
      assert [] + [f] == [f];
    } else {
      NonZeroAppend(fields[1..], f);
      assert (fields + [f])[1..] == fields[1..] + [f] && (fields + [f])[0] == fields[0];
      var head, tail := if fields[0].value != 0 then [fields[0]] else [], if f.value != 0 then [f] else [];
      assert NonZero(fields + [f]) == head + NonZero(fields[1..] + [f]);
      assert head + (NonZero(fields[1..]) + tail) == (head + NonZero(fields[1..])) + tail;
    }
  }

  lemma {:induction false} AllBytesAppend(fields: seq<Field>, f: Field)
    requires f.Known() && forall g | g in fields :: g.Known()
    ensures (forall g | g in fields + [f] :: g.Known()) && AllBytes(fields + [f]) == AllBytes(fields) + FieldBytes(f)
    decreases |fields|
  {
    hide FieldBytes;
    if fields == [] {
      assert [] + [f] == [f];
    } else {
      AllBytesAppend(fields[1..], f);
      assert (fields + [f])[1..] == fields[1..] + [f] && (fields + [f])[0] == fields[0];
      var head, tail := FieldBytes(fields[0]), FieldBytes(f);
      assert head + (AllBytes(fields[1..]) + tail) == (head + AllBytes(fields[1..])) + tail;
    }
  }

  method ToPayload(v: Interval) returns (out: seq<byte>)
    ensures out == Payload(v)
  {
    hide Rmp.WriteUint, Rmp.WriteSint, NonZero, AllBytes;
    var fields := Fields(v);
    assert forall f | f in fields :: f.Known();
    var present := Count(fields);
    if v.adjust != Excess {
      present := present + 1;
    }
    out := Rmp.WriteUint(present);
    var units := Units(fields);
    out := out + units;
    if v.adjust != Excess {
      AllBytesAppend(NonZero(fields), Field(ADJUST, v.adjust.Code()));
      out := out + Rmp.WriteUint(ADJUST);
      out := out + Rmp.WriteSint(v.adjust.Code());
      Associate(Rmp.WriteUint(present), units, Rmp.WriteUint(ADJUST), Rmp.WriteSint(v.adjust.Code()));
    } else {
      assert NonZero(fields) + [] == NonZero(fields);
    }
  }

  lemma Associate(a: seq<byte>, b: seq<byte>, c: seq<byte>, d: seq<byte>)
    ensures ((a + b) + c) + d == a + (b + (c + d))
  {
  }

  /** How many fields are not zero. */
  method Count(fields: seq<Field>) returns (n: nat)
    ensures n == |NonZero(fields)|
  {
    hide NonZero;
    Nothing();
    n := 0;
    for i := 0 to |fields|
      invariant n == |NonZero(fields[..i])|
    {
      NonZeroAppend(fields[..i], fields[i]);
      assert fields[..i + 1] == fields[..i] + [fields[i]];
      if fields[i].value != 0 {
        n := n + 1;
      }
    }
    assert fields[..|fields|] == fields;
  }

  /** The fields that are not zero, one after the other. */
  method Units(fields: seq<Field>) returns (out: seq<byte>)
    requires forall f | f in fields :: f.Known()
    ensures out == AllBytes(NonZero(fields))
  {
    hide NonZero, AllBytes, FieldBytes;
    Nothing();
    out := [];
    for i := 0 to |fields|
      invariant out == AllBytes(NonZero(fields[..i]))
    {
      NonZeroAppend(fields[..i], fields[i]);
      assert fields[..i + 1] == fields[..i] + [fields[i]];
      assert fields[i] in fields;
      if fields[i].value != 0 {
        AllBytesAppend(NonZero(fields[..i]), fields[i]);
        out := out + FieldBytes(fields[i]);
      } else {
        assert NonZero(fields[..i]) + [] == NonZero(fields[..i]);
      }
    }
    assert fields[..|fields|] == fields;
  }

  lemma Nothing()
    ensures NonZero([]) == [] && AllBytes([]) == []
  {
  }

  // ---------------------------------------------------------------------
  // Reading
  // ---------------------------------------------------------------------

  /** One field read: later ones overwrite earlier ones. */
  function Put(v: Interval, f: Field): (r: Result)
    ensures r.Ok? <==> f.Known()
    ensures r.Ok? <==> f.id < 8 || (f.id == 8 && f.value in {0, 1, 2})
  {
    match f.id
    case 0 => Ok(v.(years := f.value))
    case 1 => Ok(v.(months := f.value))
    case 2 => Ok(v.(weeks := f.value))
    case 3 => Ok(v.(days := f.value))
    case 4 => Ok(v.(hours := f.value))
    case 5 => Ok(v.(minutes := f.value))
    case 6 => Ok(v.(seconds := f.value))
    case 7 => Ok(v.(nanoseconds := f.value))
    case 8 => (match FromCode(f.value) case Some(a) => Ok(v.(adjust := a)) case None => Err("unknown adjust"))
    case _ => Err("unknown field id")
  }

  function PutAll(v: Interval, fields: seq<Field>): Interval
    requires forall f | f in fields :: f.Known()
    decreases |fields|
  {
    if fields == [] then v else PutAll(Put(v, fields[0]).value, fields[1..])
  }

  function Decoded(payload: seq<byte>): Result {
    match Rmp.ReadU64(payload)
    case None => Err("payload does not start with a field count")
    case Some((count, n)) => DecodedFields(payload[n..], count, BLANK)
  }

  function DecodedFields(cursor: seq<byte>, count: nat, v: Interval): Result {
    if count == 0 then if cursor == [] then Ok(v) else Err("trailing bytes")
    else
      match Rmp.ReadU64(cursor)
      case None => Err("bad field id")
      case Some((id, n)) =>
        match Rmp.ReadI64(cursor[n..])
        case None => Err("bad field value")
        case Some((value, m)) =>
          match Put(v, Field(id, value))
          case Ok(v1) => DecodedFields(cursor[n + m..], count - 1, v1)
          case Err(reason) => Err(reason)
  }

  /** Whatever count the payload claims, the loop finishes at most half as many turns as
      it has bytes, and starts at most one more. */
  method FromPayload(payload: seq<byte>) returns (r: Result, ghost started: nat, ghost finished: nat)
    ensures r == Decoded(payload)
    ensures 2 * finished <= |payload| && finished <= started <= finished + 1
  {
    hide Rmp.ReadU64, Rmp.ReadI64, Put;
    started, finished := 0, 0;
    var head := Rmp.ReadU64(payload);
    if head.None? {
      r := Err("payload does not start with a field count");
      return;
    }
    var (count, at) := head.value;
    var cursor, v, left := payload[at..], BLANK, count;
    while left > 0
      invariant left <= count && started == finished == count - left
      invariant |cursor| + 2 * finished < |payload|
      invariant DecodedFields(cursor, left, v) == Decoded(payload)
    {
      started := started + 1;
      var id := Rmp.ReadU64(cursor);
      if id.None? {
        r := Err("bad field id");
        return;
      }
      var value := Rmp.ReadI64(cursor[id.value.1..]);
      if value.None? {
        r := Err("bad field value");
        return;
      }
      var put := Put(v, Field(id.value.0, value.value.0));
      if put.Err? {
        r := put;
        return;
      }
      assert cursor[id.value.1..][value.value.1..] == cursor[id.value.1 + value.value.1..];
      cursor, v := cursor[id.value.1 + value.value.1..], put.value;
      left, finished := left - 1, finished + 1;
    }
    if cursor != [] {
      r := Err("trailing bytes");
      return;
    }
    r := Ok(v);
  }

  // ---------------------------------------------------------------------
  // Round trips
  // ---------------------------------------------------------------------

  lemma {:induction false} FieldsDecode(fields: seq<Field>, v: Interval)
    requires forall f | f in fields :: f.Known()
    ensures DecodedFields(AllBytes(fields), |fields|, v) == Ok(PutAll(v, fields))
    decreases |fields|
  {
    hide Rmp.WriteUint, Rmp.WriteSint, Rmp.ReadU64, Rmp.ReadI64, Put;
    if fields != [] {
      var f, rest := fields[0], AllBytes(fields[1..]);
      assert f in fields && f.Known();
      var id, value := Rmp.WriteUint(f.id), Rmp.WriteSint(f.value);
      var cursor := AllBytes(fields);
      assert cursor == id + (value + rest);
      Rmp.ReadBackUint(f.id, value + rest);
      assert cursor[|id|..] == value + rest;
      Rmp.ReadBackSint(f.value, rest);
      assert cursor[|id| + |value|..] == rest;
      FieldsDecode(fields[1..], Put(v, f).value);
    }
  }

  /** Any list of known fields, in any order and with repetitions, decodes to the
      interval that setting them in turn gives. */
  lemma AnyFieldsDecode(fields: seq<Field>)
    requires |fields| < U64_LIMIT && forall f | f in fields :: f.Known()
    ensures Decoded(Rmp.WriteUint(|fields|) + AllBytes(fields)) == Ok(PutAll(BLANK, fields))
  {
    hide Rmp.WriteUint, Rmp.ReadU64, PutAll, AllBytes, DecodedFields;
    Rmp.ReadBackUint(|fields|, AllBytes(fields));
    var payload := Rmp.WriteUint(|fields|) + AllBytes(fields);
    assert payload[|Rmp.WriteUint(|fields|)|..] == AllBytes(fields);
    FieldsDecode(fields, BLANK);
  }

  /** The interval with its first `n` units set, and no rule yet. */
  function Partly(v: Interval, n: nat): Interval {
    Interval(if n > 0 then v.years else 0, if n > 1 then v.months else 0, if n > 2 then v.weeks else 0,
             if n > 3 then v.days else 0, if n > 4 then v.hours else 0, if n > 5 then v.minutes else 0,
             if n > 6 then v.seconds else 0, if n > 7 then v.nanoseconds else 0, Excess)
  }

  lemma TailRebuilds(v: Interval)
    ensures PutAll(Partly(v, 8), Tail(v)) == v
  {
    CodesRoundTrip(v.adjust, 0);
    if v.adjust != Excess {
      assert Tail(v)[1..] == [];
      assert PutAll(Partly(v, 8), Tail(v)) == PutAll(Put(Partly(v, 8), Tail(v)[0]).value, []);
    }
  }

  lemma NonZeroHead(fields: seq<Field>, tail: seq<Field>)
    requires fields != []
    ensures NonZero(fields) + tail
         == if fields[0].value == 0 then NonZero(fields[1..]) + tail else [fields[0]] + (NonZero(fields[1..]) + tail)
  {
  }

  lemma PutAllHead(v: Interval, f: Field, fields: seq<Field>)
    requires f.Known() && forall g | g in fields :: g.Known()
    ensures (forall g | g in [f] + fields :: g.Known()) && PutAll(v, [f] + fields) == PutAll(Put(v, f).value, fields)
  {
    assert ([f] + fields)[1..] == fields;
  }

  /** Setting the written units one after the other rebuilds the interval. */
  lemma {:induction false} WrittenRebuilds(v: Interval, n: nat)
    requires n <= 8
    ensures var rest := NonZero(Fields(v)[n..]) + Tail(v);
      (forall f | f in rest :: f.Known()) && PutAll(Partly(v, n), rest) == v
    decreases 8 - n
  {
    var fields := Fields(v)[n..];
    if n == 8 {
      Nothing();
      assert NonZero([]) + Tail(v) == Tail(v);
      TailRebuilds(v);
    } else {
      PutUnit(v, n);
      SkipUnit(v, n);
      hide NonZero, Partly, PutAll, Put, Tail;
      assert fields[1..] == Fields(v)[n + 1..];
      WrittenRebuilds(v, n + 1);
      NonZeroHead(fields, Tail(v));
      if fields[0].value != 0 {
        PutAllHead(Partly(v, n), fields[0], NonZero(fields[1..]) + Tail(v));
      }
    }
  }

  lemma SkipUnit(v: Interval, n: nat)
    requires n < 8
    ensures Fields(v)[n].Known() && (Fields(v)[n].value == 0 ==> Partly(v, n) == Partly(v, n + 1))
  {
  }

  lemma PutUnit(v: Interval, n: nat)
    requires n < 8
    ensures Put(Partly(v, n), Fields(v)[n]) == Ok(Partly(v, n + 1))
  {
  }

  /** `from_payload` undoes `to_payload`, for every unit and rule. */
  lemma PayloadRoundTrip(v: Interval)
    ensures Decoded(Payload(v)) == Ok(v)
  {
    hide Decoded, AllBytes, NonZero, PutAll;
    AnyFieldsDecode(Written(v));
    WrittenRebuilds(v, 0);
    assert Fields(v)[0..] == Fields(v);
  }

  /** The count written is the number of pairs that follow. */
  lemma CountIsPairs(v: Interval)
    ensures var head := Rmp.ReadU64(Payload(v));
      head.Some? && head.value.0 == |Written(v)| && Payload(v)[head.value.1..] == AllBytes(Written(v))
  {
    hide Rmp.WriteUint, Rmp.ReadU64, AllBytes;
    Rmp.ReadBackUint(|Written(v)|, AllBytes(Written(v)));
  }

  // ---------------------------------------------------------------------
  // The payload, byte by byte
  // ---------------------------------------------------------------------

  /** A unit on the wire: nothing when it is zero, else its number and its value. */
  function UnitBytes(id: byte, value: i64): seq<byte> {
    if value == 0 then [] else [id] + Rmp.WriteSint(value)
  }

  /** A rule on the wire. */
  function RuleBytes(rule: Adjust): seq<byte> {
    match rule case Excess => [] case Limit => [0x08, 0x01] case Snap => [0x08, 0x02]
  }

  function One(present: bool): nat {
    if present then 1 else 0
  }

  /** How many units are not zero, and the rule if it is written. */
  function Present(v: Interval): nat {
    One(v.years != 0) + (One(v.months != 0) + (One(v.weeks != 0) + (One(v.days != 0) + (One(v.hours != 0)
    + (One(v.minutes != 0) + (One(v.seconds != 0) + (One(v.nanoseconds != 0) + One(v.adjust != Excess))))))))
  }

  /** The units from `n` on and then the rule: their bytes, and how many there are. */
  function Rest(v: Interval, n: nat): seq<byte>
    requires n <= 8
    decreases 8 - n
  {
    if n == 8 then RuleBytes(v.adjust) else UnitBytes(n, Fields(v)[n].value) + Rest(v, n + 1)
  }

  function Left(v: Interval, n: nat): nat
    requires n <= 8
    decreases 8 - n
  {
    if n == 8 then One(v.adjust != Excess) else One(Fields(v)[n].value != 0) + Left(v, n + 1)
  }

  lemma {:induction false} WrittenRest(v: Interval, n: nat)
    requires n <= 8
    ensures var rest := NonZero(Fields(v)[n..]) + Tail(v);
      (forall f | f in rest :: f.Known()) && AllBytes(rest) == Rest(v, n) && |rest| == Left(v, n)
    decreases 8 - n
  {
    if n == 8 {
      hide AllBytes;
      Nothing();
      assert NonZero([]) + Tail(v) == Tail(v);
      RuleIsTail(v);
    } else {
      hide NonZero, Tail, FieldBytes, UnitBytes, AllBytes, Rmp.WriteSint, Rmp.WriteUint, Fields;
      FieldHead(v, n);
      assert Fields(v)[n..][1..] == Fields(v)[n + 1..];
      WrittenRest(v, n + 1);
      NonZeroHead(Fields(v)[n..], Tail(v));
      OneMore(v, n, NonZero(Fields(v)[n + 1..]) + Tail(v));
    }
  }

  lemma OneMore(v: Interval, n: nat, more: seq<Field>)
    requires n < 8 && forall f | f in more :: f.Known()
    ensures var f := Fields(v)[n];
      var rest := if f.value == 0 then more else [f] + more;
      (forall g | g in rest :: g.Known()) && AllBytes(rest) == UnitBytes(n, f.value) + AllBytes(more)
      && |rest| == One(f.value != 0) + |more|
  {
    FieldHead(v, n);
    hide FieldBytes, Rmp.WriteSint, Fields, Field.Known;
    var f := Fields(v)[n];
    if f.value == 0 {
      assert [] + AllBytes(more) == AllBytes(more);
    } else {
      assert ([f] + more)[1..] == more;
    }
  }

  lemma FieldHead(v: Interval, n: nat)
    requires n < 8
    ensures Fields(v)[n..] != [] && Fields(v)[n..][0] == Fields(v)[n] && Fields(v)[n].Known()
    ensures |Fields(v)| == 8 && FieldBytes(Fields(v)[n]) == [n as byte] + Rmp.WriteSint(Fields(v)[n].value)
  {
  }

  lemma RuleIsTail(v: Interval)
    ensures AllBytes(Tail(v)) == RuleBytes(v.adjust) && |Tail(v)| == One(v.adjust != Excess)
  {
    if v.adjust != Excess {
      assert Tail(v)[1..] == [];
      assert AllBytes(Tail(v)) == FieldBytes(Tail(v)[0]) + [];
    }
  }

  lemma OneStep(v: Interval, n: nat, value: i64)
    requires n < 8 && Fields(v)[n].value == value
    ensures Rest(v, n) == UnitBytes(n, value) + Rest(v, n + 1) && Left(v, n) == One(value != 0) + Left(v, n + 1)
  {
  }

  lemma LastStep(v: Interval)
    ensures Rest(v, 8) == RuleBytes(v.adjust) && Left(v, 8) == One(v.adjust != Excess)
  {
  }

  lemma LastFour(v: Interval)
    ensures Left(v, 4)
         == One(v.hours != 0) + (One(v.minutes != 0) + (One(v.seconds != 0) + (One(v.nanoseconds != 0) + One(v.adjust != Excess))))
    ensures Rest(v, 4)
         == UnitBytes(4, v.hours) + (UnitBytes(5, v.minutes) + (UnitBytes(6, v.seconds)
            + (UnitBytes(7, v.nanoseconds) + RuleBytes(v.adjust))))
  {
    OneStep(v, 4, v.hours);
    OneStep(v, 5, v.minutes);
    OneStep(v, 6, v.seconds);
    OneStep(v, 7, v.nanoseconds);
    LastStep(v);
    hide *;
  }

  lemma FirstFour(v: Interval)
    ensures Left(v, 0)
         == One(v.years != 0) + (One(v.months != 0) + (One(v.weeks != 0) + (One(v.days != 0) + Left(v, 4))))
    ensures Rest(v, 0)
         == UnitBytes(0, v.years) + (UnitBytes(1, v.months) + (UnitBytes(2, v.weeks) + (UnitBytes(3, v.days) + Rest(v, 4))))
  {
    OneStep(v, 0, v.years);
    OneStep(v, 1, v.months);
    OneStep(v, 2, v.weeks);
    OneStep(v, 3, v.days);
    hide *;
  }

  lemma PresentIs(v: Interval, n: nat)
    requires n == One(v.years != 0) + (One(v.months != 0) + (One(v.weeks != 0) + (One(v.days != 0) + (One(v.hours != 0)
                   + (One(v.minutes != 0) + (One(v.seconds != 0) + (One(v.nanoseconds != 0) + One(v.adjust != Excess))))))))
    ensures n == Present(v)
  {
  }

  lemma WrittenAll(v: Interval)
    ensures Payload(v) == Rmp.WriteUint(Left(v, 0)) + Rest(v, 0)
    ensures Rmp.WriteUint(Present(v)) == [Present(v)]
  {
    WrittenRest(v, 0);
    hide NonZero, Tail, Rest, Left, UnitBytes, RuleBytes, AllBytes, Fields;
    assert Fields(v)[0..] == Fields(v);
  }

  /** The payload is the number of units that are not zero and of rules written, then each
      unit under its number, and the rule under its code. */
  lemma PayloadExactly(v: Interval)
    ensures Payload(v) == [Present(v)]
      + (UnitBytes(0, v.years) + (UnitBytes(1, v.months) + (UnitBytes(2, v.weeks) + (UnitBytes(3, v.days)
         + (UnitBytes(4, v.hours) + (UnitBytes(5, v.minutes) + (UnitBytes(6, v.seconds)
         + (UnitBytes(7, v.nanoseconds) + RuleBytes(v.adjust)))))))))
  {
    FirstFour(v);
    LastFour(v);
    PresentIs(v, Left(v, 0));
    WrittenAll(v);
    hide *;
  }

  /** The pieces of the documented encoding of one year, 200 months and 77 days less. */
  lemma Documented()
    ensures Present(Interval(1, 200, 0, -77, 0, 0, 0, 0, Limit)) == 0x04
    ensures UnitBytes(0, 1) == [0x00, 0x01] && UnitBytes(1, 200) == [0x01, 0xcc, 0xc8]
    ensures UnitBytes(3, -77) == [0x03, 0xd0, 0xb3] && RuleBytes(Limit) == [0x08, 0x01]
  {
    assert BigEndian(200, 1) == [0xc8] && Unsigned(-77, U8_LIMIT) == 0xb3 && BigEndian(0xb3, 1) == [0xb3];
  }

  /** No time at all is a count of zero. */
  lemma DocumentedNothing()
    ensures Payload(BLANK) == [0x00] && Decoded([0x00]) == Ok(BLANK)
  {
    PayloadExactly(BLANK);
    PayloadRoundTrip(BLANK);
    hide Payload, Decoded;
  }
}
