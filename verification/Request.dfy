/** Building a request packet: a header map, then a body map assembled one
    `(key, value)` at a time. */
module Requests {
  import opened Bytes
  import opened Errors
  import opened Rmp
  import opened MsgPack
  import opened Grammar
  import opened MapCursors

  const REQUEST_TYPE: byte := 0x00
  const SYNC: byte := 0x01
  const STREAM_ID: byte := 0x0a

  const NOT_AN_ARRAY := Encode("value must serialize to a MessagePack array")
  const EXT_TOO_LONG := Protocol("extension payload exceeds 4 GiB")

  /** One map entry: its key, and the bytes of its encoded value. */
  datatype Field = Field(key: byte, value: seq<byte>)

  /** One complete MessagePack value and nothing else. */
  predicate IsValue(value: seq<byte>) {
    Skip(value, 0) == Some(|value|)
  }

  function FieldBytes(fields: seq<Field>): seq<byte> {
    if fields == [] then [] else WriteUint(fields[0].key) + fields[0].value + FieldBytes(fields[1..])
  }

  function MapBytes(fields: seq<Field>): seq<byte>
    requires |fields| < U32_LIMIT
  {
    WriteMapLen(|fields|) + FieldBytes(fields)
  }

  function HeaderFields(ty: nat, sync: nat, streamId: Option<nat>): seq<Field>
    requires ty < U64_LIMIT && sync < U64_LIMIT && (streamId.Some? ==> streamId.value < U64_LIMIT)
  {
    [Field(REQUEST_TYPE, WriteUint(ty)), Field(SYNC, WriteUint(sync))]
    + if streamId.Some? then [Field(STREAM_ID, WriteUint(streamId.value))] else []
  }

  // ---------------------------------------------------------------------
  // Every value the builder writes itself is one complete value
  // ---------------------------------------------------------------------

  /** A node's encoding is a value. */
  lemma NodeIsValue(node: Node)
    requires WellFormed(node)
    ensures IsValue(Grammar.Encode(node))
  {
    hide Header, HeaderOk;
    TreeIsMeasured(Grammar.Encode(node), 0, node);
  }

  lemma UintIsValue(v: nat)
    requires v < U64_LIMIT
    ensures var node := Scalar(WriteUint(v)[0], WriteUint(v)[1..]);
      WellFormed(node) && Grammar.Encode(node) == WriteUint(v) && (node.marker < 0x80 || 0xcc <= node.marker <= 0xcf)
    ensures IsValue(WriteUint(v))
  {
    hide Skip;
    NodeIsValue(Scalar(WriteUint(v)[0], WriteUint(v)[1..]));
  }

  /** The text as a string, its length in the narrowest prefix. */
  function StrNode(text: seq<byte>): (node: Node)
    requires |text| < U32_LIMIT
    ensures WellFormed(node) && (node == FixStr(text) || (node.Str? && node.text == text))
  {
    Limits();
    if |text| < 32 then FixStr(text) else Str(if |text| < U8_LIMIT then 1 else if |text| < U16_LIMIT then 2 else 4, text)
  }

  lemma StrIsValue(text: seq<byte>)
    requires |text| < U32_LIMIT
    ensures Grammar.Encode(StrNode(text)) == WriteStr(text) && IsValue(WriteStr(text))
  {
    hide Skip;
    Limits();
    NodeIsValue(StrNode(text));
    assert Grammar.Encode(StrNode(text)) == WriteStr(text);
  }

  /** The payload as an extension, its length in the narrowest form. */
  function ExtNode(tag: byte, payload: seq<byte>): (node: Node)
    requires |payload| < U32_LIMIT
    ensures WellFormed(node) && (node.FixExt? || node.Ext?) && node.tag == tag && node.data == payload
  {
    Limits();
    if |payload| in {1, 2, 4, 8, 16} then FixExt(tag, payload)
    else Ext(if |payload| < U8_LIMIT then 1 else if |payload| < U16_LIMIT then 2 else 4, tag, payload)
  }

  lemma ExtIsValue(tag: byte, payload: seq<byte>)
    requires |payload| < U32_LIMIT
    ensures Grammar.Encode(ExtNode(tag, payload)) == WriteExtMeta(|payload|, tag) + payload
    ensures IsValue(WriteExtMeta(|payload|, tag) + payload)
  {
    hide IsValue, Grammar.Encode, BigEndian;
    Limits();
    NodeIsValue(ExtNode(tag, payload));
    var n := |payload|;
    if n in {1, 2, 4, 8, 16} {
      ShortExt(tag, payload);
    } else {
      LongExt(if n < U8_LIMIT then 1 else if n < U16_LIMIT then 2 else 4, tag, payload);
    }
  }

  lemma ShortExt(tag: byte, payload: seq<byte>)
    requires |payload| in {1, 2, 4, 8, 16}
    ensures Grammar.Encode(FixExt(tag, payload)) == WriteExtMeta(|payload|, tag) + payload
  {
    var node := FixExt(tag, payload);
    assert Items(node) == [] && BigEndian(Count(node), Width(node)) == [];
    assert WriteExtMeta(|payload|, tag) == [Marker(node), tag];
    hide WriteExtMeta, Marker, HeaderOk, Count, Width, BigEndian;
    assert Header(node) == [Marker(node)] + [] + ([tag] + payload) == [Marker(node), tag] + payload;
    assert Grammar.Encode(node) == Header(node) + [];
  }

  lemma LongExt(w: nat, tag: byte, payload: seq<byte>)
    requires w in {1, 2, 4} && |payload| < Limit(w)
    ensures Grammar.Encode(Ext(w, tag, payload)) == [Pick(w, 0xc7, 0xc8, 0xc9)] + BigEndian(|payload|, w) + [tag] + payload
  {
    hide BigEndian;
    assert Header(Ext(w, tag, payload)) == [Pick(w, 0xc7, 0xc8, 0xc9)] + BigEndian(|payload|, w) + ([tag] + payload);
  }

  function Flatten(parts: seq<seq<byte>>): seq<byte> {
    if parts == [] then [] else parts[0] + Flatten(parts[1..])
  }

  /** The trees are those of the values, in order. */
  ghost predicate Spell(nodes: seq<Node>, values: seq<seq<byte>>) {
    && |nodes| == |values|
    && forall i | 0 <= i < |nodes| :: WellFormed(nodes[i]) && Grammar.Encode(nodes[i]) == values[i]
  }

  lemma {:induction false} ValuesAreNodes(values: seq<seq<byte>>) returns (nodes: seq<Node>)
    requires forall v | v in values :: IsValue(v)
    ensures Spell(nodes, values) && (forall node | node in nodes :: WellFormed(node))
    ensures EncodeAll(nodes) == Flatten(values)
  {
    hide Skip, Header, HeaderOk;
    if values == [] {
      nodes := [];
    } else {
      assert IsValue(values[0]);
      var first := MeasuredIsTree(values[0], 0);
      var rest := ValuesAreNodes(values[1..]);
      nodes := [first] + rest;
      assert nodes[1..] == rest;
      assert values[0][0..|values[0]|] == values[0];
      assert Spell(nodes, values) by {
        hide WellFormed, Grammar.Encode;
        assert forall i | 1 <= i < |nodes| :: nodes[i] == rest[i - 1] && values[i] == values[1..][i - 1];
      }
    }
  }

  /** The array that is written holds the elements, one tree each, in order. */
  lemma RawArrayIsValue(elements: seq<seq<byte>>) returns (node: Node)
    requires |elements| < U32_LIMIT && forall e | e in elements :: IsValue(e)
    ensures WellFormed(node) && (node.FixArray? || node.Array?) && Spell(node.items, elements)
    ensures Grammar.Encode(node) == WriteArrayLen(|elements|) + Flatten(elements)
    ensures IsValue(WriteArrayLen(|elements|) + Flatten(elements))
  {
    hide Skip;
    Limits();
    hide EncodeAll, Flatten, IsValue, Spell;
    var nodes := ValuesAreNodes(elements);
    assert |nodes| == |elements| by {
      SpellLength(nodes, elements);
    }
    var n := |nodes|;
    EncodeNone();
    node := if n < 16 then FixArray(nodes) else Array(if n < U16_LIMIT then 2 else 4, nodes);
    NodeIsValue(node);
    assert Header(node) == WriteArrayLen(n);
    assert Grammar.Encode(node) == Header(node) + EncodeAll(nodes);
  }

  lemma SpellLength(nodes: seq<Node>, values: seq<seq<byte>>)
    requires Spell(nodes, values)
    ensures |nodes| == |values|
  {
  }

  lemma EncodeNone()
    ensures EncodeAll([]) == []
  {
  }

  // ---------------------------------------------------------------------
  // The walker undoes the builder
  // ---------------------------------------------------------------------

  /** `entries` of `buf` are exactly `fields`: same keys, same value bytes, same order. */
  ghost predicate Recovers(buf: seq<byte>, entries: seq<Entry>, fields: seq<Field>) {
    |entries| == |fields|
    && forall i :: 0 <= i < |fields| ==> EntryIs(buf, entries[i], fields[i])
  }

  ghost predicate EntryIs(buf: seq<byte>, entry: Entry, field: Field) {
    entry.key == field.key && entry.start <= entry.end <= |buf| && buf[entry.start..entry.end] == field.value
  }

  lemma ValueAt(buf: seq<byte>, pos: nat, value: seq<byte>)
    requires IsValue(value) && At(buf, pos, value)
    ensures Skip(buf, pos) == Some(pos + |value|)
  {
    hide Skip;
    assert value[0..|value|] == value;
    SkipIsLocal(value, 0, buf, pos);
  }

  lemma {:induction false} WalkFields(buf: seq<byte>, pos: nat, fields: seq<Field>)
    requires forall f | f in fields :: IsValue(f.value)
    requires At(buf, pos, FieldBytes(fields))
    ensures SkipMany(buf, pos, 2 * |fields|) == Some(pos + |FieldBytes(fields)|)
    ensures Walk(buf, pos, |fields|).Ok? && Recovers(buf, Walk(buf, pos, |fields|).value, fields)
    decreases |fields|
  {
    hide Skip, SkipMany, At, IsValue, WriteUint, ReadUint, Recovers;
    if fields == [] {
      RecoversNothing(buf);
      AtIs(buf, pos, []);
      SkipNone(buf, pos);
    } else {
      var key, value := WriteUint(fields[0].key), fields[0].value;
      AtSplit(buf, pos, key + value, FieldBytes(fields[1..]));
      AtSplit(buf, pos, key, value);
      UintIsValue(fields[0].key);
      ValueAt(buf, pos, key);
      ValueAt(buf, pos + |key|, value);
      var next := pos + |key| + |value|;
      WalkFields(buf, next, fields[1..]);
      KeyReads(buf, pos, fields[0].key);
      SkipPair(buf, pos, 2 * |fields|);
      var rest := Walk(buf, next, |fields| - 1).value;
      AtIs(buf, pos + |key|, value);
      var entry := Entry(fields[0].key, pos + |key|, next);
      assert Walk(buf, pos, |fields|) == Ok([entry] + rest);
      RecoversMore(buf, entry, rest, fields);
    }
  }

  lemma RecoversNothing(buf: seq<byte>)
    ensures Recovers(buf, [], [])
  {
  }

  lemma RecoversMore(buf: seq<byte>, entry: Entry, rest: seq<Entry>, fields: seq<Field>)
    requires fields != [] && EntryIs(buf, entry, fields[0]) && Recovers(buf, rest, fields[1..])
    ensures Recovers(buf, [entry] + rest, fields)
  {
    hide EntryIs;
    forall i | 0 <= i < |fields| ensures EntryIs(buf, ([entry] + rest)[i], fields[i]) {
      if i > 0 {
        assert EntryIs(buf, rest[i - 1], fields[1..][i - 1]);
      }
    }
  }

  lemma AtIs(buf: seq<byte>, pos: nat, bytes: seq<byte>)
    requires At(buf, pos, bytes)
    ensures pos + |bytes| <= |buf| && buf[pos..pos + |bytes|] == bytes
  {
  }

  lemma SkipNone(buf: seq<byte>, pos: nat)
    requires pos <= |buf|
    ensures SkipMany(buf, pos, 0) == Some(pos)
  {
  }

  lemma SkipPair(buf: seq<byte>, pos: nat, k: nat)
    requires k >= 2 && Skip(buf, pos).Some? && Skip(buf, Skip(buf, pos).value).Some?
    ensures SkipMany(buf, pos, k) == SkipMany(buf, Skip(buf, Skip(buf, pos).value).value, k - 2)
  {
    hide Skip;
    assert SkipMany(buf, pos, k) == SkipMany(buf, Skip(buf, pos).value, k - 1);
  }

  lemma KeyReads(buf: seq<byte>, pos: nat, key: byte)
    requires At(buf, pos, WriteUint(key))
    ensures ReadUint(buf[pos..pos + |WriteUint(key)|]) == Ok(key)
  {
    ReadBackUint(key, []);
    assert WriteUint(key) + [] == WriteUint(key);
  }

  /** A map at the front of `buf` whose entries are exactly `fields`, in order. */
  ghost predicate WalksAs(buf: seq<byte>, fields: seq<Field>) {
    && Skip(buf, 0).Some? && MapHeader(buf).Some?
    && var (n, header) := MapHeader(buf).value;
    && n == |fields| && header <= |buf| && SkipMany(buf, header, 2 * n) == Skip(buf, 0)
    && Walk(buf, header, n).Ok? && Recovers(buf, Walk(buf, header, n).value, fields)
  }

  lemma MapHeaderReads(buf: seq<byte>, n: nat)
    requires n < U32_LIMIT && At(buf, 0, WriteMapLen(n))
    ensures Open(buf, 0) == Some((|WriteMapLen(n)|, 2 * n))
    ensures Skip(buf, 0).Some? ==> MapHeader(buf) == Some((n, |WriteMapLen(n)|))
  {
    hide Skip, BigEndian, FromBigEndian, Limit;
    Limits();
    var head := WriteMapLen(n);
    assert head == buf[..|head|];
    if n >= 16 {
      var w := if n < U16_LIMIT then 2 else 4;
      BigEndianRoundTrip(n, w);
      assert buf[1..1 + w] == head[1..];
    }
  }

  /** A built map, followed by anything: its length is measured exactly, its count
      is the number of fields, and walking it gives every field back in order. */
  lemma WalkMap(buf: seq<byte>, fields: seq<Field>)
    requires |fields| < U32_LIMIT && forall f | f in fields :: IsValue(f.value)
    requires At(buf, 0, MapBytes(fields))
    ensures Skip(buf, 0) == Some(|MapBytes(fields)|)
    ensures WalksAs(buf, fields)
  {
    hide IsValue, Walk, SkipMany, Open, WriteMapLen, MapHeader, FieldBytes, Recovers, At;
    var head := WriteMapLen(|fields|);
    AtSplit(buf, 0, head, FieldBytes(fields));
    WalkFields(buf, |head|, fields);
    MapHeaderReads(buf, |fields|);
  }

  /** The whole packet `finish` emits. */
  function PacketBytes(ty: nat, sync: nat, streamId: Option<nat>, fields: seq<Field>): seq<byte>
    requires ty < U64_LIMIT && sync < U64_LIMIT && (streamId.Some? ==> streamId.value < U64_LIMIT)
    requires |fields| < U32_LIMIT
  {
    MapBytes(HeaderFields(ty, sync, streamId)) + MapBytes(fields)
  }

  /** Every field holds one complete value. */
  ghost predicate AllValues(fields: seq<Field>) {
    forall f | f in fields :: IsValue(f.value)
  }

  /** What walking a finished packet gives back. */
  ghost predicate Recovered(packet: seq<byte>, ty: nat, sync: nat, streamId: Option<nat>, fields: seq<Field>)
    requires ty < U64_LIMIT && sync < U64_LIMIT && (streamId.Some? ==> streamId.value < U64_LIMIT)
  {
    && WalksAs(packet, HeaderFields(ty, sync, streamId))
    && WalksAs(packet[Skip(packet, 0).value..], fields)
    && IsValue(packet[Skip(packet, 0).value..])
  }

  /** One entry of a walked map: its key, and the number it holds. */
  ghost predicate Holds(buf: seq<byte>, e: Entry, key: nat, v: nat) {
    e.key == key && e.start <= e.end <= |buf| && ReadU64(buf[e.start..e.end]) == Some((v, e.end - e.start))
  }

  /** A packet's header map, by the numbers of the protocol. */
  ghost predicate HeaderHolds(packet: seq<byte>, ty: nat, sync: nat, streamId: Option<nat>) {
    && Skip(packet, 0).Some? && MapHeader(packet).Some?
    && var (n, start) := MapHeader(packet).value;
    && start <= |packet| && SkipMany(packet, start, 2 * n).Some? && Walk(packet, start, n).Ok?
    && EntriesHold(packet, Walk(packet, start, n).value, ty, sync, streamId)
  }

  ghost predicate EntriesHold(buf: seq<byte>, entries: seq<Entry>, ty: nat, sync: nat, streamId: Option<nat>) {
    && |entries| == (if streamId.Some? then 3 else 2)
    && Holds(buf, entries[0], 0x00, ty) && Holds(buf, entries[1], 0x01, sync)
    && (streamId.Some? ==> Holds(buf, entries[2], 0x0a, streamId.value))
  }

  lemma EntryHolds(buf: seq<byte>, e: Entry, key: byte, v: nat)
    requires v < U64_LIMIT && EntryIs(buf, e, Field(key, WriteUint(v)))
    ensures Holds(buf, e, key, v)
  {
    hide WriteUint, ReadU64;
    ReadBackUint(v, []);
    assert WriteUint(v) + [] == WriteUint(v);
  }

  /** What the builder puts in the header map is there under its numbers. */
  lemma HeaderIsThere(packet: seq<byte>, ty: nat, sync: nat, streamId: Option<nat>)
    requires ty < U64_LIMIT && sync < U64_LIMIT && (streamId.Some? ==> streamId.value < U64_LIMIT)
    requires WalksAs(packet, HeaderFields(ty, sync, streamId))
    ensures HeaderHolds(packet, ty, sync, streamId)
  {
    hide WriteUint, ReadU64, Holds, EntryIs, Skip, SkipMany, Walk, MapHeader;
    var fields := HeaderFields(ty, sync, streamId);
    var (n, start) := MapHeader(packet).value;
    var entries := Walk(packet, start, n).value;
    assert Recovers(packet, entries, fields);
    EntryHolds(packet, entries[0], 0x00, ty);
    EntryHolds(packet, entries[1], 0x01, sync);
    if streamId.Some? {
      EntryHolds(packet, entries[2], 0x0a, streamId.value);
    }
  }

  /** Walking a finished packet: the first map gives type, sync and stream id back,
      the second, right behind it, gives every body field in call order and fills
      the rest of the packet. */
  lemma PacketWalks(ty: nat, sync: nat, streamId: Option<nat>, fields: seq<Field>)
    requires ty < U64_LIMIT && sync < U64_LIMIT && (streamId.Some? ==> streamId.value < U64_LIMIT)
    requires |fields| < U32_LIMIT && AllValues(fields)
    ensures Recovered(PacketBytes(ty, sync, streamId, fields), ty, sync, streamId, fields)
    ensures HeaderHolds(PacketBytes(ty, sync, streamId, fields), ty, sync, streamId)
  {
    hide HeaderHolds, Skip, WalksAs, WriteMapLen, FieldBytes, WriteUint;
    var header := HeaderFields(ty, sync, streamId);
    var packet := PacketBytes(ty, sync, streamId, fields);
    UintIsValue(ty);
    UintIsValue(sync);
    if streamId.Some? {
      UintIsValue(streamId.value);
    }
    assert forall f | f in header :: IsValue(f.value);
    assert At(packet, 0, MapBytes(header));
    WalkMap(packet, header);
    HeaderIsThere(packet, ty, sync, streamId);
    var body := packet[|MapBytes(header)|..];
    assert body == MapBytes(fields);
    assert At(body, 0, MapBytes(fields));
    WalkMap(body, fields);
  }

  // ---------------------------------------------------------------------
  // The builder
  // ---------------------------------------------------------------------

  predicate IsArrayMarker(marker: byte) {
    0x90 <= marker < 0xa0 || marker == 0xdc || marker == 0xdd
  }

  /** In the grammar these are the markers of arrays, and of nothing else. */
  lemma ArrayMarkers(node: Node)
    requires WellFormed(node)
    ensures var encoded := Grammar.Encode(node);
      encoded != [] && (IsArrayMarker(encoded[0]) <==> node.FixArray? || node.Array?)
  {
    hide BigEndian, EncodeAll;
    assert Grammar.Encode(node)[0] == Marker(node);
  }

  lemma {:induction false} FieldBytesAppend(fields: seq<Field>, field: Field)
    ensures FieldBytes(fields + [field]) == FieldBytes(fields) + WriteUint(field.key) + field.value
  {
    hide WriteUint;
    if fields == [] {
      assert [] + [field] == [field];
      assert FieldBytes([field]) == WriteUint(field.key) + field.value + FieldBytes([]);
    } else {
      FieldBytesAppend(fields[1..], field);
      assert (fields + [field])[1..] == fields[1..] + [field];
    }
  }

  function Last(fields: seq<Field>): Field
    requires fields != []
  {
    fields[|fields| - 1]
  }

  /** `after` is `before` and one more field under `k`, holding one complete value. */
  ghost predicate Added(before: seq<Field>, after: seq<Field>, k: byte) {
    after != [] && after[..|after| - 1] == before && Last(after).key == k && IsValue(Last(after).value)
  }

  lemma HeaderFieldBytes(ty: nat, sync: nat, streamId: Option<nat>)
    requires ty < U64_LIMIT && sync < U64_LIMIT && (streamId.Some? ==> streamId.value < U64_LIMIT)
    ensures FieldBytes(HeaderFields(ty, sync, streamId))
         == WriteUint(REQUEST_TYPE) + WriteUint(ty) + WriteUint(SYNC) + WriteUint(sync)
            + if streamId.Some? then WriteUint(STREAM_ID) + WriteUint(streamId.value) else []
  {
    hide WriteUint;
    var f0, f1 := Field(REQUEST_TYPE, WriteUint(ty)), Field(SYNC, WriteUint(sync));
    FieldBytesAppend([], f0);
    FieldBytesAppend([f0], f1);
    assert [] + [f0] == [f0] && [f0] + [f1] == [f0, f1];
    if streamId.Some? {
      var f2 := Field(STREAM_ID, WriteUint(streamId.value));
      FieldBytesAppend([f0, f1], f2);
      assert HeaderFields(ty, sync, streamId) == [f0, f1] + [f2];
    } else {
      assert HeaderFields(ty, sync, streamId) == [f0, f1];
    }
  }

  class Request {
    const ty: nat
    const sync: nat
    const streamId: Option<nat>
    var header: seq<byte>
    var body: seq<byte>
    var entries: nat
    ghost var fields: seq<Field>  // the calls so far

    ghost predicate Valid()
      reads this
    {
      && ty < U64_LIMIT && sync < U64_LIMIT && (streamId.Some? ==> streamId.value < U64_LIMIT)
      && header == MapBytes(HeaderFields(ty, sync, streamId))
      && body == FieldBytes(fields) && entries == |fields| < U32_LIMIT
    }

    constructor (ty: nat, sync: nat, streamId: Option<nat>)
      requires ty < U64_LIMIT && sync < U64_LIMIT && (streamId.Some? ==> streamId.value < U64_LIMIT)
      ensures Valid() && fields == []
      ensures this.ty == ty && this.sync == sync && this.streamId == streamId
    {
      hide WriteUint;
      this.ty, this.sync, this.streamId := ty, sync, streamId;
      var len := 2 + if streamId.Some? then 1 else 0;
      var h := WriteMapLen(len);
      h := PutUint(h, REQUEST_TYPE, ty);
      h := PutUint(h, SYNC, sync);
      if streamId.Some? {
        h := PutUint(h, STREAM_ID, streamId.value);
      }
      header, body, entries, fields := h, [], 0, [];
      new;
      HeaderFieldBytes(ty, sync, streamId);
      assert header == MapBytes(HeaderFields(ty, sync, streamId));
    }

    /** The entry's key; its value must follow. */
    method Key(k: byte)
      requires Valid() && entries + 1 < U32_LIMIT
      modifies this`body, this`entries
      ensures entries == old(entries) + 1 && body == old(body) + WriteUint(k)
    {
      entries := entries + 1;
      body := body + WriteUint(k);
    }

    /** A value already encoded, verbatim. */
    method Raw(k: byte, msgpack: seq<byte>)
      requires Valid() && entries + 1 < U32_LIMIT
      modifies this`body, this`entries, this`fields
      ensures Valid() && fields == old(fields) + [Field(k, msgpack)]
      ensures body == old(body) + WriteUint(k) + msgpack
      ensures AllValues(old(fields)) && IsValue(msgpack) ==> AllValues(fields)
    {
      hide IsValue;
      Key(k);
      body := body + msgpack;
      FieldBytesAppend(fields, Field(k, msgpack));
      fields := fields + [Field(k, msgpack)];
    }

    method Uint(k: byte, v: nat)
      requires Valid() && entries + 1 < U32_LIMIT && v < U64_LIMIT
      modifies this`body, this`entries, this`fields
      ensures Valid() && Added(old(fields), fields, k) && ReadU64(Last(fields).value) == Some((v, |Last(fields).value|))
      ensures AllValues(old(fields)) ==> AllValues(fields)
    {
      UintIsValue(v);
      ReadBackUint(v, []);
      assert WriteUint(v) + [] == WriteUint(v);
      Raw(k, WriteUint(v));
    }

    /** A text of 4 GiB or more is written under a length cut short. */
    method Str(k: byte, text: seq<byte>)
      requires Valid() && entries + 1 < U32_LIMIT
      modifies this`body, this`entries, this`fields
      ensures Valid() && fields == old(fields) + [Field(k, WriteStr(text))]
      ensures |text| < U32_LIMIT ==>
        Added(old(fields), fields, k) && ReadStr(Last(fields).value, _ => true) == Ok(text)
        && (AllValues(old(fields)) ==> AllValues(fields))
    {
      hide WriteStr, IsValue, ReadStr;
      if |text| < U32_LIMIT {
        StrIsValue(text);
        StrReads(text);
      }
      Raw(k, WriteStr(text));
    }

    /** A serialized argument; `expectArray` refuses anything but an array. */
    method Serialized(k: byte, encoded: seq<byte>, expectArray: bool) returns (r: Result<()>)
      requires Valid() && entries + 1 < U32_LIMIT
      modifies this`body, this`entries, this`fields
      ensures r == if expectArray && (encoded == [] || !IsArrayMarker(encoded[0])) then Err(NOT_AN_ARRAY) else Ok(())
      ensures forall node | WellFormed(node) && Grammar.Encode(node) == encoded ::
        r.Ok? <==> !expectArray || node.FixArray? || node.Array?
      ensures Valid() && fields == old(fields) + [Field(k, encoded)]
      ensures AllValues(old(fields)) && IsValue(encoded) ==> AllValues(fields)
    {
      forall node | WellFormed(node) && Grammar.Encode(node) == encoded
        ensures encoded != [] && (IsArrayMarker(encoded[0]) <==> node.FixArray? || node.Array?)
      {
        ArrayMarkers(node);
      }
      var start := |body| + |WriteUint(k)|;
      Raw(k, encoded);
      if expectArray && !(start < |body| && IsArrayMarker(body[start])) {
        return Err(NOT_AN_ARRAY);
      }
      return Ok(());
    }

    /** `payload` as the extension `tag`. */
    method Ext(k: byte, tag: byte, payload: seq<byte>) returns (r: Result<()>)
      requires Valid() && entries + 1 < U32_LIMIT
      modifies this`body, this`entries, this`fields
      ensures r == if |payload| < U32_LIMIT then Ok(()) else Err(EXT_TOO_LONG)
      ensures r.Ok? ==> Valid() && Added(old(fields), fields, k) && Last(fields).value == WriteExtMeta(|payload|, tag) + payload
      ensures r.Ok? && AllValues(old(fields)) ==> AllValues(fields)
    {
      if |payload| >= U32_LIMIT {
        Key(k);
        return Err(EXT_TOO_LONG);
      }
      ExtIsValue(tag, payload);
      var value := WriteExtMeta(|payload|, tag) + payload;
      Raw(k, value);
      return Ok(());
    }

    /** An array of pre-encoded elements. */
    method RawArray(k: byte, elements: seq<seq<byte>>)
      requires Valid() && entries + 1 < U32_LIMIT && |elements| < U32_LIMIT
      modifies this`body, this`entries, this`fields
      ensures Valid() && fields == old(fields) + [Field(k, WriteArrayLen(|elements|) + Flatten(elements))]
      ensures (forall e | e in elements :: IsValue(e)) ==>
        Added(old(fields), fields, k) && (AllValues(old(fields)) ==> AllValues(fields))
    {
      hide WriteUint, WriteArrayLen, IsValue, FieldBytes, MapBytes, HeaderFields;
      var value := WriteArrayLen(|elements|);
      assert elements[0..] == elements;
      for i := 0 to |elements|
        invariant value + Flatten(elements[i..]) == WriteArrayLen(|elements|) + Flatten(elements)
      {
        assert elements[i..][1..] == elements[i + 1..];
        value := value + elements[i];
      }
      assert elements[|elements|..] == [] && value + [] == value;
      if forall e | e in elements :: IsValue(e) {
        hide WellFormed, Spell;
        var node := RawArrayIsValue(elements);
      }
      Raw(k, value);
    }

    /** The packet; with complete values in it, walking it gives every call back. */
    method Finish() returns (packet: seq<byte>)
      requires Valid()
      ensures packet == PacketBytes(ty, sync, streamId, fields)
      ensures AllValues(fields) ==>
        Recovered(packet, ty, sync, streamId, fields) && HeaderHolds(packet, ty, sync, streamId)
    {
      hide HeaderHolds, WalksAs, Skip, WriteMapLen, FieldBytes, HeaderFields;
      packet := header;
      packet := packet + WriteMapLen(entries);
      packet := packet + body;
      assert MapBytes(fields) == WriteMapLen(entries) + body;
      assert packet == header + MapBytes(fields);
      if AllValues(fields) {
        PacketWalks(ty, sync, streamId, fields);
      }
    }
  }

  function PutUint(buf: seq<byte>, k: byte, v: nat): seq<byte>
    requires v < U64_LIMIT
  {
    buf + WriteUint(k) + WriteUint(v)
  }

  lemma StrReads(text: seq<byte>)
    requires |text| < U32_LIMIT
    ensures ReadStr(WriteStr(text), _ => true) == Ok(text)
  {
    Limits();
    hide BigEndian, FromBigEndian, Limit;
    var b, n := WriteStr(text), |text|;
    if n >= 32 {
      var w := if n < U8_LIMIT then 1 else if n < U16_LIMIT then 2 else 4;
      BigEndianRoundTrip(n, w);
      assert b[1..1 + w] == BigEndian(n, w);
    }
    var start := |b| - n;
    assert ReadStrLen(b) == Some((n, start));
    assert b[start..start + n] == text;
  }
}
