/** Lazy parsing of a reply, chunk or event: where its parts lie, rather than what they hold. */
module Responses {
  import opened Bytes
  import opened Errors
  import opened MsgPack
  import opened MapCursors

  const REQUEST_TYPE := 0x00
  const SYNC := 0x01
  const SCHEMA_VERSION := 0x05
  const DATA := 0x30
  const ERROR_24 := 0x31
  const METADATA := 0x32
  const BIND_METADATA := 0x33
  const BIND_COUNT := 0x34
  const POSITION := 0x35
  const SQL_INFO := 0x42
  const STMT_ID := 0x43
  const ERROR := 0x52
  const EVENT_KEY := 0x57
  const EVENT_DATA := 0x58

  const ERROR_FLAG := 0x8000
  const NIL: seq<byte> := [0xc0]

  /** A response whose ranges lie inside its body, as every parsed one's do. */
  type Located = r: Response | r.InBounds() witness Response(Success, 0, None, [], EMPTY_BODY)

  const NO_TYPE := Protocol("response header has no request type")
  const UNKNOWN_TYPE := Protocol("unknown response type")
  const BAD_ERROR := Protocol("malformed MP_ERROR")

  datatype Kind = Success | Chunk | Failure | Event

  type Range = (nat, nat)
  type Text = seq<byte>

  /** What the caller supplies for library code: which bytes are UTF-8, and which
      are a well-formed error map. */
  datatype Library = Library(utf8: seq<byte> -> bool, errorMap: seq<byte> -> bool)

  /** The located parts of a body. */
  datatype Body = Body(
    data: Option<Range>, position: Option<Text>, error24: Option<Text>, error: Option<seq<byte>>,
    eventKey: Option<Text>, eventData: Option<Range>, metadata: Option<Range>, bindMetadata: Option<Range>,
    sqlInfo: Option<Range>, bindCount: Option<nat>, stmtId: Option<nat>)

  const EMPTY_BODY := Body(None, None, None, None, None, None, None, None, None, None, None)

  datatype Header = Header(ty: nat, sync: nat, schemaVersion: Option<nat>)

  datatype Response = Response(
    kind: Kind, sync: nat, schemaVersion: Option<nat>, body: seq<byte>, parts: Body)
  {
    /** The bytes of a recorded range. */
    function Slice(range: Option<Range>): Option<seq<byte>>
      requires range.Some? ==> range.value.0 <= range.value.1 <= |body|
    {
      match range case Some((start, end)) => Some(body[start..end]) case None => None
    }

    /** Every recorded range lies inside the body. */
    predicate InBounds() {
      forall range | range in [parts.data, parts.eventData, parts.metadata, parts.bindMetadata, parts.sqlInfo] ::
        range.Some? ==> range.value.0 <= range.value.1 <= |body|
    }

    /** The bytes under DATA, or those of `nil`. */
    function DataBytes(): seq<byte>
      requires InBounds()
    {
      match Slice(parts.data) case Some(b) => b case None => NIL
    }

    /** What an event publishes; nothing without a key. */
    function EventOf(): Option<(Text, seq<byte>)>
      requires InBounds()
    {
      if parts.eventKey.None? then None
      else Some((parts.eventKey.value, match Slice(parts.eventData) case Some(b) => b case None => NIL))
    }
  }

  // ---------------------------------------------------------------------
  // What a map says about a key
  // ---------------------------------------------------------------------

  /** The last entry under `key`. */
  function LastUnder(entries: seq<Entry>, key: nat): (r: Option<Entry>)
    ensures r.Some? ==> r.value in entries && r.value.key == key
    ensures r.None? <==> forall e | e in entries :: e.key != key
  {
    if entries == [] then None
    else
      var last := entries[|entries| - 1];
      assert entries == entries[..|entries| - 1] + [last];
      if last.key == key then Some(last) else LastUnder(entries[..|entries| - 1], key)
  }

  /** Of several entries under one key, no later one is passed over. */
  lemma {:induction false} LastIsLast(entries: seq<Entry>, key: nat, i: nat)
    requires i < |entries| && entries[i].key == key && forall j | i < j < |entries| :: entries[j].key != key
    ensures LastUnder(entries, key) == Some(entries[i])
    decreases |entries|
  {
    if i < |entries| - 1 {
      LastIsLast(entries[..|entries| - 1], key, i);
    }
  }

  predicate Inside(buf: seq<byte>, entries: seq<Entry>) {
    forall e | e in entries :: e.start <= e.end <= |buf|
  }

  function Value(buf: seq<byte>, e: Entry): seq<byte>
    requires e.start <= e.end <= |buf|
  {
    buf[e.start..e.end]
  }

  function RangeUnder(entries: seq<Entry>, key: nat): Option<Range> {
    match LastUnder(entries, key) case Some(e) => Some((e.start, e.end)) case None => None
  }

  function UintUnder(buf: seq<byte>, entries: seq<Entry>, key: nat): Option<nat>
    requires Inside(buf, entries)
  {
    match LastUnder(entries, key)
    case Some(e) => (match ReadUint(Value(buf, e)) case Ok(n) => Some(n) case Err(_) => None)
    case None => None
  }

  function TextUnder(buf: seq<byte>, entries: seq<Entry>, key: nat, lib: Library): Option<Text>
    requires Inside(buf, entries)
  {
    match LastUnder(entries, key)
    case Some(e) => (match ReadStr(Value(buf, e), lib.utf8) case Ok(t) => Some(t) case Err(_) => None)
    case None => None
  }

  /** Whether an entry's value has the type its key demands. */
  predicate HeaderEntryOk(buf: seq<byte>, e: Entry)
    requires e.start <= e.end <= |buf|
  {
    e.key in {REQUEST_TYPE, SYNC, SCHEMA_VERSION} ==> ReadUint(Value(buf, e)).Ok?
  }

  predicate BodyEntryOk(buf: seq<byte>, e: Entry, lib: Library)
    requires e.start <= e.end <= |buf|
  {
    && (e.key in {POSITION, ERROR_24, EVENT_KEY} ==> ReadStr(Value(buf, e), lib.utf8).Ok?)
    && (e.key in {BIND_COUNT, STMT_ID} ==> ReadUint(Value(buf, e)).Ok?)
  }

  /** Each part is the last entry under its key. */
  ghost predicate BodyIs(parts: Body, buf: seq<byte>, entries: seq<Entry>, lib: Library) {
    && Inside(buf, entries)
    && parts.data == RangeUnder(entries, DATA)
    && parts.eventData == RangeUnder(entries, EVENT_DATA)
    && parts.metadata == RangeUnder(entries, METADATA)
    && parts.bindMetadata == RangeUnder(entries, BIND_METADATA)
    && parts.sqlInfo == RangeUnder(entries, SQL_INFO)
    && parts.position == TextUnder(buf, entries, POSITION, lib)
    && parts.error24 == TextUnder(buf, entries, ERROR_24, lib)
    && parts.eventKey == TextUnder(buf, entries, EVENT_KEY, lib)
    && parts.bindCount == UintUnder(buf, entries, BIND_COUNT)
    && parts.stmtId == UintUnder(buf, entries, STMT_ID)
    && parts.error == match LastUnder(entries, ERROR) case Some(e) => Some(Value(buf, e)) case None => None
  }

  /** The entries of the map at the front of `buf`, if it is one with unsigned keys. */
  function MapEntries(buf: seq<byte>): (r: Option<seq<Entry>>)
    ensures r.Some? ==> Inside(buf, r.value)
  {
    if Skip(buf, 0).None? || MapHeader(buf).None? then None
    else
      var (n, header) := MapHeader(buf).value;
      MapHeaderIsOpen(buf);
      assert SkipMany(buf, header, 2 * n) == Skip(buf, 0);
      match Walk(buf, header, n)
      case Ok(entries) => WalkInside(buf, header, n); Some(entries)
      case Err(_) => None
  }

  lemma {:induction false} WalkInside(buf: seq<byte>, pos: nat, n: nat)
    requires pos <= |buf| && SkipMany(buf, pos, 2 * n).Some? && Walk(buf, pos, n).Ok?
    ensures Inside(buf, Walk(buf, pos, n).value)
    decreases n
  {
    hide SkipMany, ReadUint;
    if n > 0 {
      PairSplit(buf, pos, n);
      WalkInside(buf, Skip(buf, Skip(buf, pos).value).value, n - 1);
    }
  }

  // ---------------------------------------------------------------------
  // Parsing
  // ---------------------------------------------------------------------

  /** What `t & 0x8000 != 0` and the exact codes make of a response type. */
  function KindOf(ty: nat): Option<Kind> {
    if ty == 0x00 then Some(Success)
    else if ty == 0x80 then Some(Chunk)
    else if ty == 0x4c then Some(Event)
    else if ty / ERROR_FLAG % 2 == 1 then Some(Failure)
    else None
  }

  predicate HeaderParses(buf: seq<byte>) {
    && MapEntries(buf).Some?
    && var entries := MapEntries(buf).value;
    && (forall e | e in entries :: HeaderEntryOk(buf, e))
    && LastUnder(entries, REQUEST_TYPE).Some?
  }

  predicate BodyParses(buf: seq<byte>, lib: Library) {
    MapEntries(buf).Some? && forall e | e in MapEntries(buf).value :: BodyEntryOk(buf, e, lib)
  }

  /** Where a walk stands: `seen` so far, and the cursor holds exactly the rest. */
  ghost predicate Midway(cursor: MapCursor, buf: seq<byte>, all: Result<seq<Entry>>, seen: seq<Entry>)
    reads cursor
  {
    && cursor.Valid() && cursor.buf == buf
    && all == match Walk(buf, cursor.pos, cursor.remaining) case Ok(rest) => Ok(seen + rest) case Err(e) => Err(e)
  }

  /** The next entry of a walk, moved from the cursor to `seen`. */
  method Advance(cursor: MapCursor, ghost buf: seq<byte>, ghost all: Result<seq<Entry>>, ghost seen: seq<Entry>)
    returns (r: Result<Option<Entry>>)
    requires Midway(cursor, buf, all, seen)
    modifies cursor
    ensures r.Err? ==> all.Err?
    ensures r == Ok(None) ==> all == Ok(seen)
    ensures r.Ok? && r.value.Some? ==>
      && old(cursor.remaining) > 0 && cursor.remaining == old(cursor.remaining) - 1
      && Midway(cursor, buf, all, seen + [r.value.value])
      && r.value.value.start <= r.value.value.end <= |buf|
      && (all.Ok? ==> r.value.value in all.value)
  {
    hide Skip, SkipMany, ReadUint;
    ghost var before := cursor.pos;
    ghost var n := cursor.remaining;
    if n > 0 {
      PairSplit(buf, before, n);
    }
    r := cursor.Next();
    if r.Ok? && r.value.Some? {
      ghost var e := r.value.value;
      ghost var rest := Walk(buf, cursor.pos, n - 1);
      if rest.Ok? {
        assert seen + ([e] + rest.value) == (seen + [e]) + rest.value;
      }
    } else if r.Ok? {
      assert seen + [] == seen;
    }
  }

  lemma LastUnderAppend(seen: seq<Entry>, e: Entry)
    ensures forall key :: LastUnder(seen + [e], key) == if e.key == key then Some(e) else LastUnder(seen, key)
  {
    assert (seen + [e])[..|seen|] == seen;
  }

  /** A fresh cursor has everything still ahead. */
  lemma MidwayAtStart(cursor: MapCursor, buf: seq<byte>)
    requires cursor.Valid() && cursor.buf == buf
    ensures Midway(cursor, buf, Walk(buf, cursor.pos, cursor.remaining), [])
  {
    hide Skip, SkipMany, Walk;
    var all := Walk(buf, cursor.pos, cursor.remaining);
    if all.Ok? {
      assert [] + all.value == all.value;
    }
  }

  method ParseHeader(buf: seq<byte>) returns (r: Result<(Header, nat)>)
    requires |buf| <= ISIZE_MAX
    ensures r.Ok? <==> HeaderParses(buf)
    ensures r.Ok? ==>
      var (header, len) := r.value;
      var entries := MapEntries(buf).value;
      && Some(len) == Skip(buf, 0)
      && Some(header.ty) == UintUnder(buf, entries, REQUEST_TYPE)
      && header.sync == (match UintUnder(buf, entries, SYNC) case Some(n) => n case None => 0)
      && header.schemaVersion == UintUnder(buf, entries, SCHEMA_VERSION)
  {
    hide Skip, SkipMany, Walk, MapHeader, ReadUint, LastUnder;
    var walk :- MapCursor.New(buf);
    var (cursor, len) := walk;
    ghost var all := Walk(buf, cursor.pos, cursor.remaining);
    ghost var seen: seq<Entry> := [];
    MidwayAtStart(cursor, buf);
    var ty, sync, schemaVersion := None, 0, None;
    while true
      invariant fresh(cursor) && Midway(cursor, buf, all, seen) && Inside(buf, seen)
      invariant forall e | e in seen :: HeaderEntryOk(buf, e)
      invariant ty == UintUnder(buf, seen, REQUEST_TYPE)
      invariant sync == match UintUnder(buf, seen, SYNC) case Some(n) => n case None => 0
      invariant schemaVersion == UintUnder(buf, seen, SCHEMA_VERSION)
      decreases cursor.remaining
    {
      var next :- Advance(cursor, buf, all, seen);
      if next.None? {
        break;
      }
      var e := next.value;
      LastUnderAppend(seen, e);
      var v := buf[e.start..e.end];
      if e.key == REQUEST_TYPE {
        var n :- ReadUint(v);
        ty := Some(n);
      } else if e.key == SYNC {
        var n :- ReadUint(v);
        sync := n;
      } else if e.key == SCHEMA_VERSION {
        var n :- ReadUint(v);
        schemaVersion := Some(n);
      }
      seen := seen + [e];
    }
    if ty.None? {
      return Err(NO_TYPE);
    }
    return Ok((Header(ty.value, sync, schemaVersion), len));
  }

  method ParseBody(buf: seq<byte>, lib: Library) returns (r: Result<Body>)
    requires |buf| <= ISIZE_MAX
    ensures r.Ok? <==> BodyParses(buf, lib)
    ensures r.Ok? ==> BodyIs(r.value, buf, MapEntries(buf).value, lib)
  {
    hide Skip, SkipMany, Walk, MapHeader, ReadUint, ReadStr, LastUnder, BodyIs, BodyEntryOk;
    NothingYet(buf, lib);
    var walk :- MapCursor.New(buf);
    var cursor := walk.0;
    ghost var all := Walk(buf, cursor.pos, cursor.remaining);
    ghost var seen: seq<Entry> := [];
    MidwayAtStart(cursor, buf);
    var parts := EMPTY_BODY;
    while true
      invariant fresh(cursor) && Midway(cursor, buf, all, seen)
      invariant Inside(buf, seen) && forall e | e in seen :: BodyEntryOk(buf, e, lib)
      invariant BodyIs(parts, buf, seen, lib)
      decreases cursor.remaining
    {
      var next :- Advance(cursor, buf, all, seen);
      if next.None? {
        break;
      }
      var e := next.value;
      parts :- Absorb(parts, buf, e, lib, seen);
      seen := seen + [e];
    }
    return Ok(parts);
  }

  lemma NothingYet(buf: seq<byte>, lib: Library)
    ensures BodyIs(EMPTY_BODY, buf, [], lib)
  {
  }

  /** What one more entry does to what the map says about each key. */
  lemma UnderAppend(buf: seq<byte>, seen: seq<Entry>, e: Entry, lib: Library)
    requires Inside(buf, seen) && e.start <= e.end <= |buf|
    ensures Inside(buf, seen + [e])
    ensures forall key :: RangeUnder(seen + [e], key) == if e.key == key then Some((e.start, e.end)) else RangeUnder(seen, key)
    ensures forall key ::
      (TextUnder(buf, seen + [e], key, lib)
       == if e.key != key then TextUnder(buf, seen, key, lib)
          else match ReadStr(Value(buf, e), lib.utf8) case Ok(t) => Some(t) case Err(_) => None)
    ensures forall key ::
      (UintUnder(buf, seen + [e], key)
       == if e.key != key then UintUnder(buf, seen, key)
          else match ReadUint(Value(buf, e)) case Ok(n) => Some(n) case Err(_) => None)
  {
    hide LastUnder, ReadStr, ReadUint;
    LastUnderAppend(seen, e);
  }

  /** One entry of a body, filed under its key. */
  method Absorb(parts: Body, buf: seq<byte>, e: Entry, lib: Library, ghost seen: seq<Entry>) returns (r: Result<Body>)
    requires e.start <= e.end <= |buf| && BodyIs(parts, buf, seen, lib)
    ensures r.Ok? <==> BodyEntryOk(buf, e, lib)
    ensures r.Ok? ==> BodyIs(r.value, buf, seen + [e], lib)
  {
    hide ReadUint, ReadStr, LastUnder, RangeUnder, TextUnder, UintUnder;
    LastUnderAppend(seen, e);
    UnderAppend(buf, seen, e, lib);
    var v := buf[e.start..e.end];
    var range := Some((e.start, e.end));
    match e.key {
      case 0x30 => return Ok(parts.(data := range));
      case 0x35 => var t :- ReadStr(v, lib.utf8); return Ok(parts.(position := Some(t)));
      case 0x31 => var t :- ReadStr(v, lib.utf8); return Ok(parts.(error24 := Some(t)));
      case 0x52 => return Ok(parts.(error := Some(v)));
      case 0x57 => var t :- ReadStr(v, lib.utf8); return Ok(parts.(eventKey := Some(t)));
      case 0x58 => return Ok(parts.(eventData := range));
      case 0x32 => return Ok(parts.(metadata := range));
      case 0x33 => return Ok(parts.(bindMetadata := range));
      case 0x42 => return Ok(parts.(sqlInfo := range));
      case 0x34 => var n :- ReadUint(v); return Ok(parts.(bindCount := Some(n)));
      case 0x43 => var n :- ReadUint(v); return Ok(parts.(stmtId := Some(n)));
      case _ => return Ok(parts);
    }
  }

  /** Exactly the packets `parse` accepts. */
  predicate Parses(packet: seq<byte>, lib: Library) {
    && HeaderParses(packet)
    && var kind := KindOf(TypeOf(packet));
    && kind.Some?
    && var body := packet[Skip(packet, 0).value..];
    && (body == [] || BodyParses(body, lib))
    && (kind == Some(Failure) && body != [] && LastUnder(MapEntries(body).value, ERROR).Some? ==>
      lib.errorMap(Value(body, LastUnder(MapEntries(body).value, ERROR).value)))
  }

  function TypeOf(packet: seq<byte>): nat
    requires HeaderParses(packet)
  {
    ReadUint(Value(packet, LastUnder(MapEntries(packet).value, REQUEST_TYPE).value)).value
  }

  /** `response` is what `packet` says. */
  ghost predicate Reads(response: Response, packet: seq<byte>, lib: Library)
    requires HeaderParses(packet)
  {
    var entries := MapEntries(packet).value;
    && Some(response.kind) == KindOf(TypeOf(packet))
    && response.sync == (match UintUnder(packet, entries, SYNC) case Some(n) => n case None => 0)
    && response.schemaVersion == UintUnder(packet, entries, SCHEMA_VERSION)
    && response.body == packet[Skip(packet, 0).value..]
    && PartsOf(response.parts, response.body, lib)
  }

  /** `parts` are what a body says; an empty one says nothing. */
  ghost predicate PartsOf(parts: Body, body: seq<byte>, lib: Library) {
    if body == [] then parts == EMPTY_BODY
    else MapEntries(body).Some? && BodyIs(parts, body, MapEntries(body).value, lib)
  }

  /** Every recorded range lies inside the body. */
  lemma PartsInBounds(response: Response, lib: Library)
    requires PartsOf(response.parts, response.body, lib)
    ensures response.InBounds()
  {
    hide Skip, MapEntries, LastUnder, TextUnder, UintUnder;
  }

  /** A type is one of three codes, or an error with bit 15 set. */
  predicate IsType(ty: nat) {
    ty == 0x00 || ty == 0x80 || ty == 0x4c || ty / 0x8000 % 2 == 1
  }

  /** The values under the keys that hold text, and under those that hold numbers, are. */
  ghost predicate WellTyped(buf: seq<byte>, entries: seq<Entry>, texts: set<nat>, numbers: set<nat>, lib: Library)
    requires Inside(buf, entries)
  {
    forall e | e in entries ::
      (e.key in texts ==> ReadStr(Value(buf, e), lib.utf8).Ok?) && (e.key in numbers ==> ReadUint(Value(buf, e)).Ok?)
  }

  /** What is accepted, by the numbers of the protocol: a header map whose type, sync and
      schema version are numbers and whose type is known, and behind it nothing or a body
      map whose texts are texts and whose numbers are numbers. An error's details, if it
      has any, must be such. */
  lemma ParsesExactly(packet: seq<byte>, lib: Library)
    ensures Parses(packet, lib) <==>
      && MapEntries(packet).Some?
      && var header := MapEntries(packet).value;
      && WellTyped(packet, header, {}, {0x00, 0x01, 0x05}, lib)
      && var ty := UintUnder(packet, header, 0x00);
      && ty.Some? && IsType(ty.value)
      && var body := packet[Skip(packet, 0).value..];
      (body == [] ||
       (&& MapEntries(body).Some?
        && var entries := MapEntries(body).value;
        && WellTyped(body, entries, {0x31, 0x35, 0x57}, {0x34, 0x43}, lib)
        && (LastUnder(entries, 0x52).Some? && ty.value !in {0x00, 0x80, 0x4c} ==>
              lib.errorMap(Value(body, LastUnder(entries, 0x52).value)))))
  {
    hide Skip, MapEntries, LastUnder, ReadUint, ReadStr;
  }

  /** What a response says, by the numbers of the protocol. */
  lemma ReadsExactly(response: Response, packet: seq<byte>, lib: Library)
    requires Parses(packet, lib) && Reads(response, packet, lib)
    ensures UintUnder(packet, MapEntries(packet).value, 0x00).Some?
    ensures var header := MapEntries(packet).value;
      var ty := UintUnder(packet, header, 0x00).value;
      && (response.kind == Success <==> ty == 0x00) && (response.kind == Chunk <==> ty == 0x80)
      && (response.kind == Event <==> ty == 0x4c) && (response.kind == Failure <==> ty !in {0x00, 0x80, 0x4c})
      && (response.kind == Failure ==> ty / 0x8000 % 2 == 1)
      && response.sync == (match UintUnder(packet, header, 0x01) case Some(n) => n case None => 0)
      && response.schemaVersion == UintUnder(packet, header, 0x05)
  {
    hide Skip, MapEntries, LastUnder, ReadUint, ReadStr, PartsOf;
  }

  /** And by those of a body. */
  lemma PartsExactly(parts: Body, body: seq<byte>, lib: Library)
    requires PartsOf(parts, body, lib) && body != []
    ensures var entries := MapEntries(body).value;
      && parts.data == RangeUnder(entries, 0x30) && parts.metadata == RangeUnder(entries, 0x32)
      && parts.bindMetadata == RangeUnder(entries, 0x33) && parts.sqlInfo == RangeUnder(entries, 0x42)
      && parts.eventData == RangeUnder(entries, 0x58) && parts.eventKey == TextUnder(body, entries, 0x57, lib)
      && parts.position == TextUnder(body, entries, 0x35, lib) && parts.error24 == TextUnder(body, entries, 0x31, lib)
      && parts.bindCount == UintUnder(body, entries, 0x34) && parts.stmtId == UintUnder(body, entries, 0x43)
  {
    hide Skip, MapEntries, LastUnder, ReadUint, ReadStr;
  }

  method Parse(packet: seq<byte>, lib: Library) returns (r: Result<Response>)
    requires |packet| <= ISIZE_MAX
    ensures r.Ok? <==> Parses(packet, lib)
    ensures r.Ok? ==> Reads(r.value, packet, lib) && r.value.InBounds()
    ensures r.Ok? ==> (
      var ty := UintUnder(packet, MapEntries(packet).value, 0x00);
      && ty.Some? && (r.value.kind == Success <==> ty.value == 0x00) && (r.value.kind == Chunk <==> ty.value == 0x80)
      && (r.value.kind == Event <==> ty.value == 0x4c) && (r.value.kind == Failure ==> ty.value / 0x8000 % 2 == 1))
    ensures MapEntries(packet).Some? ==> (
      var ty := UintUnder(packet, MapEntries(packet).value, 0x00);
      ty.Some? && !IsType(ty.value) ==> r.Err?)
  {
    hide Skip, ReadUint, ReadStr, LastUnder, MapEntries;
    var parsed :- ParseHeader(packet);
    var (header, len) := parsed;
    var kind := KindOf(header.ty);
    if kind.None? {
      return Err(UNKNOWN_TYPE);
    }
    var body := packet[len..];
    if |body| == 0 {
      return Ok(Response(kind.value, header.sync, header.schemaVersion, body, EMPTY_BODY));
    }
    var parts :- ParseBody(body, lib);
    if kind.value == Failure && parts.error.Some? && !lib.errorMap(parts.error.value) {
      return Err(BAD_ERROR);
    }
    var response := Response(kind.value, header.sync, header.schemaVersion, body, parts);
    PartsInBounds(response, lib);
    return Ok(response);
  }

  // ---------------------------------------------------------------------
  // Lazy slices agree with full decoding
  // ---------------------------------------------------------------------

  /** The body as a map from key to the value's bytes, later entries winning. */
  function MapOf(buf: seq<byte>, entries: seq<Entry>): map<nat, seq<byte>>
    requires Inside(buf, entries)
  {
    if entries == [] then map[]
    else
      var last := entries[|entries| - 1];
      MapOf(buf, entries[..|entries| - 1])[last.key := Value(buf, last)]
  }

  function FullMap(body: seq<byte>): map<nat, seq<byte>>
    requires body == [] || MapEntries(body).Some?
  {
    if body == [] then map[] else MapOf(body, MapEntries(body).value)
  }

  method BodyMap(body: seq<byte>) returns (r: Result<map<nat, seq<byte>>>)
    requires |body| <= ISIZE_MAX
    ensures r.Ok? <==> body == [] || MapEntries(body).Some?
    ensures r.Ok? ==> r.value == FullMap(body)
  {
    hide Skip, SkipMany, Walk, MapHeader;
    if |body| == 0 {
      return Ok(map[]);
    }
    var walk :- MapCursor.New(body);
    var cursor := walk.0;
    ghost var all := Walk(body, cursor.pos, cursor.remaining);
    ghost var seen: seq<Entry> := [];
    MidwayAtStart(cursor, body);
    var m: map<nat, seq<byte>> := map[];
    while true
      invariant fresh(cursor) && Midway(cursor, body, all, seen)
      invariant Inside(body, seen) && m == MapOf(body, seen)
      decreases cursor.remaining
    {
      var next :- Advance(cursor, body, all, seen);
      if next.None? {
        break;
      }
      var e := next.value;
      m := m[e.key := body[e.start..e.end]];
      assert (seen + [e])[..|seen|] == seen;
      seen := seen + [e];
    }
    return Ok(m);
  }

  lemma {:induction false} LastIsMapped(buf: seq<byte>, entries: seq<Entry>, key: nat)
    requires Inside(buf, entries)
    ensures key in MapOf(buf, entries) <==> LastUnder(entries, key).Some?
    ensures key in MapOf(buf, entries) ==> MapOf(buf, entries)[key] == Value(buf, LastUnder(entries, key).value)
    decreases |entries|
  {
    if entries != [] {
      LastIsMapped(buf, entries[..|entries| - 1], key);
    }
  }

  /** The bytes `m` holds under `key`. */
  function Lookup(m: map<nat, seq<byte>>, key: nat): Option<seq<byte>> {
    if key in m then Some(m[key]) else None
  }

  /** Every range a response records cuts out of its body exactly what the materialised
      body map holds under the same key; of an empty body, nothing. */
  lemma SlicesAgreeWithBodyMap(response: Response, lib: Library)
    requires PartsOf(response.parts, response.body, lib)
    ensures response.InBounds()
    ensures var m := FullMap(response.body);
      && response.DataBytes() == (if 0x30 in m then m[0x30] else [0xc0])
      && response.Slice(response.parts.metadata) == Lookup(m, 0x32)
      && response.Slice(response.parts.bindMetadata) == Lookup(m, 0x33)
      && response.Slice(response.parts.sqlInfo) == Lookup(m, 0x42)
      && response.Slice(response.parts.eventData) == Lookup(m, 0x58)
      && (response.parts.eventKey.Some? <==> 0x57 in m && ReadStr(m[0x57], lib.utf8).Ok?)
      && (response.parts.eventKey.Some? ==> ReadStr(m[0x57], lib.utf8) == Ok(response.parts.eventKey.value))
  {
    PartsInBounds(response, lib);
    if response.body != [] {
      hide Skip, MapEntries, LastUnder, MapOf, ReadStr, UintUnder, Response.InBounds;
      var entries := MapEntries(response.body).value;
      forall key | key in {DATA, METADATA, BIND_METADATA, SQL_INFO, EVENT_DATA, EVENT_KEY}
        ensures key in MapOf(response.body, entries) <==> LastUnder(entries, key).Some?
        ensures key in MapOf(response.body, entries) ==>
          MapOf(response.body, entries)[key] == Value(response.body, LastUnder(entries, key).value)
      {
        LastIsMapped(response.body, entries, key);
      }
    }
  }
}
