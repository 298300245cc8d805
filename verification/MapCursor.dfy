/** Walking a MessagePack map entry by entry, without decoding the values. */
module MapCursors {
  import opened Bytes
  import opened Errors
  import opened Rmp
  import opened MsgPack
  import opened Grammar

  /** One entry: its key, and `buf[start..end]` holding its value. */
  datatype Entry = Entry(key: nat, start: nat, end: nat)

  function ReadUint(value: seq<byte>): Result<nat> {
    match ReadU64(value)
    case Some((v, _)) => Ok(v)
    case None => Err(NOT_UNSIGNED)
  }

  /** The text of a complete string value. Which byte strings are UTF-8 is a parameter. */
  function ReadStr(value: seq<byte>, utf8: seq<byte> -> bool): Result<seq<byte>> {
    match ReadStrLen(value)
    case None => Err(Protocol("expected a string"))
    case Some((len, start)) =>
      if start + len > |value| then Err(Protocol("string is truncated"))
      else if !utf8(value[start..start + len]) then Err(Protocol("string is not UTF-8"))
      else Ok(value[start..start + len])
  }

  /** The entry count and header length of the map at the front of `buf`, if it is one. */
  function MapHeader(buf: seq<byte>): (r: Option<(nat, nat)>)
    requires Skip(buf, 0).Some?
  {
    if 0x80 <= buf[0] < 0x90 then Some((buf[0] - 0x80, 1))
    else if buf[0] == 0xde then Some((FromBigEndian(buf[1..3]), 3))
    else if buf[0] == 0xdf then Some((FromBigEndian(buf[1..5]), 5))
    else None
  }

  lemma MapHeaderIsOpen(buf: seq<byte>)
    requires Skip(buf, 0).Some? && MapHeader(buf).Some?
    ensures var (n, header) := MapHeader(buf).value; Open(buf, 0) == Some((header, 2 * n))
  {
    hide FromBigEndian;
    assert Open(buf, 0).Some?;
  }

  lemma PairSplit(buf: seq<byte>, pos: nat, n: nat)
    requires n > 0 && pos <= |buf| && SkipMany(buf, pos, 2 * n).Some?
    ensures Skip(buf, pos).Some? && Skip(buf, Skip(buf, pos).value).Some?
    ensures SkipMany(buf, Skip(buf, Skip(buf, pos).value).value, 2 * (n - 1)) == SkipMany(buf, pos, 2 * n)
  {
    hide Open;
    assert SkipMany(buf, Skip(buf, pos).value, 2 * n - 1) == SkipMany(buf, pos, 2 * n);
  }

  /** All `n` entries announced from `pos` on, as repeated `Next` calls yield them. */
  function Walk(buf: seq<byte>, pos: nat, n: nat): (r: Result<seq<Entry>>)
    requires pos <= |buf| && SkipMany(buf, pos, 2 * n).Some?
    ensures r.Err? ==> r.error == NOT_UNSIGNED
    decreases n
  {
    if n == 0 then Ok([])
    else
      PairSplit(buf, pos, n);
      var value := Skip(buf, pos).value;
      var next := Skip(buf, value).value;
      var key :- ReadUint(buf[pos..value]);
      var rest :- Walk(buf, next, n - 1);
      Ok([Entry(key, value, next)] + rest)
  }

  /** Where entry `i` of a walk from `pos` starts: where the one before it ended. */
  function KeyStart(pos: nat, entries: seq<Entry>, i: nat): nat
    requires i <= |entries|
  {
    if i == 0 then pos else entries[i - 1].end
  }

  /** `entries` lie end to end from `pos` to `total`, each a whole unsigned key
      followed by a whole value. */
  ghost predicate Tiles(buf: seq<byte>, pos: nat, entries: seq<Entry>, total: nat) {
    && total <= |buf|
    && KeyStart(pos, entries, |entries|) == total
    && forall i :: 0 <= i < |entries| ==> IsEntry(buf, KeyStart(pos, entries, i), entries[i])
  }

  ghost predicate IsEntry(buf: seq<byte>, start: nat, entry: Entry) {
    && Skip(buf, start) == Some(entry.start)
    && Skip(buf, entry.start) == Some(entry.end)
    && ReadUint(buf[start..entry.start]) == Ok(entry.key)
  }

  /** A walk that succeeds yields exactly the announced entries, consecutive, in
      bounds, and ending at the announced total. */
  lemma {:induction false} WalkTiles(buf: seq<byte>, pos: nat, n: nat)
    requires pos <= |buf| && SkipMany(buf, pos, 2 * n).Some? && Walk(buf, pos, n).Ok?
    ensures |Walk(buf, pos, n).value| == n
    ensures Tiles(buf, pos, Walk(buf, pos, n).value, SkipMany(buf, pos, 2 * n).value)
    decreases n
  {
    hide Skip, ReadUint;
    if n == 0 {
      assert SkipMany(buf, pos, 0) == Some(pos);
    } else {
      hide SkipMany;
      PairSplit(buf, pos, n);
      var entries := Walk(buf, pos, n).value;
      var next := entries[0].end;
      WalkTiles(buf, next, n - 1);
      var rest := Walk(buf, next, n - 1).value;
      assert entries == [entries[0]] + rest;
      forall i | 0 <= i < |entries| ensures IsEntry(buf, KeyStart(pos, entries, i), entries[i]) {
        if i > 0 {
          assert IsEntry(buf, KeyStart(next, rest, i - 1), rest[i - 1]);
        }
      }
    }
  }

  /** A walk fails only at a key that is a whole value but no unsigned integer:
      the `i`-th, after `2 * i` values that were all there. */
  lemma {:induction false} WalkFailsAtKey(buf: seq<byte>, pos: nat, n: nat)
    requires pos <= |buf| && SkipMany(buf, pos, 2 * n).Some?
    ensures Walk(buf, pos, n).Err? <==> exists i :: 0 <= i < n && BadKey(buf, pos, i)
    decreases n
  {
    hide Open, ReadUint;
    if n > 0 {
      PairSplit(buf, pos, n);
      var next := Skip(buf, Skip(buf, pos).value).value;
      WalkFailsAtKey(buf, next, n - 1);
      forall i | 0 <= i < n - 1 ensures BadKey(buf, next, i) <==> BadKey(buf, pos, i + 1) {
        SkipManySplit(buf, pos, 2, 2 * i);
        assert SkipMany(buf, Skip(buf, pos).value, 1) == Some(next) == SkipMany(buf, pos, 2) by {
          assert SkipMany(buf, next, 0) == Some(next);
        }
      }
      assert BadKey(buf, pos, 0) <==> ReadUint(buf[pos..Skip(buf, pos).value]).Err? by {
        assert SkipMany(buf, pos, 0) == Some(pos);
      }
      if i :| 0 <= i < n && BadKey(buf, pos, i) {
        assert i > 0 ==> BadKey(buf, next, i - 1);
      }
    }
  }

  /** The key after `2 * i` values from `pos` is whole and not an unsigned integer. */
  ghost predicate BadKey(buf: seq<byte>, pos: nat, i: nat) {
    && pos <= |buf|
    && var key := SkipMany(buf, pos, 2 * i);
    && key.Some? && Skip(buf, key.value).Some?
    && ReadUint(buf[key.value..Skip(buf, key.value).value]).Err?
  }

  class MapCursor {
    const buf: seq<byte>
    var pos: nat
    var remaining: nat
    ghost const total: nat

    /** What is left of the map is exactly `remaining` pairs of whole values. */
    ghost predicate Valid()
      reads this
    {
      |buf| <= ISIZE_MAX && pos <= |buf| && SkipMany(buf, pos, 2 * remaining) == Some(total)
    }

    constructor (buf: seq<byte>, pos: nat, remaining: nat)
      requires |buf| <= ISIZE_MAX && pos <= |buf| && SkipMany(buf, pos, 2 * remaining).Some?
      ensures Valid() && this.buf == buf && this.pos == pos && this.remaining == remaining
      ensures Some(total) == SkipMany(buf, pos, 2 * remaining)
    {
      this.buf, this.pos, this.remaining := buf, pos, remaining;
      this.total := SkipMany(buf, pos, 2 * remaining).value;
    }

    /** Accepts complete maps; the second result is where the map ends. */
    static method New(buf: seq<byte>) returns (r: Result<(MapCursor, nat)>)
      requires |buf| <= ISIZE_MAX
      ensures r.Ok? <==> Skip(buf, 0).Some? && MapHeader(buf).Some?
      ensures r.Ok? ==>
        var (cursor, total) := r.value;
        && fresh(cursor) && cursor.Valid() && cursor.buf == buf && cursor.total == total
        && Some(total) == Skip(buf, 0)
        && Some((cursor.remaining, cursor.pos)) == MapHeader(buf)
      ensures r.Err? && Skip(buf, 0).Some? ==> r.error == NOT_A_MAP
    {
      hide Open;
      var total :- ValueLen(buf);
      var marker := buf[0];
      if MapHeader(buf).Some? {
        MapHeaderIsOpen(buf);
      }
      var remaining, header;
      if 0x80 <= marker < 0x90 {
        remaining, header := marker as int - 0x80, 1;
      } else if marker == 0xde || marker == 0xdf {
        var width := if marker == 0xde then 2 else 4;
        var len := ReadLen(buf, 1, width);
        assert len.Ok?;  // the map was measured, so its length prefix is there
        remaining, header := len.value, 1 + width;
      } else {
        return Err(NOT_A_MAP);
      }
      var cursor := new MapCursor(buf, header, remaining);
      return Ok((cursor, total));
    }

    /** One entry forward; nothing at the end. */
    method Next() returns (r: Result<Option<Entry>>)
      requires Valid()
      modifies this
      ensures old(remaining) == 0 ==> r == Ok(None) && pos == old(pos) && remaining == 0
      ensures old(remaining) > 0 ==>
        && remaining == old(remaining) - 1
        && Skip(buf, old(pos)).Some?
        && var value := Skip(buf, old(pos)).value;
        && Skip(buf, value).Some?
        && match ReadUint(buf[old(pos)..value])
           case Ok(key) => r == Ok(Some(Entry(key, value, pos))) && Some(pos) == Skip(buf, value)
           case Err(e) => r == Err(e) && pos == old(pos)
      ensures r.Ok? ==> Valid()
    {
      hide Open, ReadUint;
      if remaining == 0 {
        return Ok(None);
      }
      PairSplit(buf, pos, remaining);
      remaining := remaining - 1;
      SkipTail(buf, pos);
      var keyLen := ValueLen(buf[pos..]);
      assert keyLen.Ok?;  // measuring cannot fail: `new` measured the whole map
      var key :- ReadUint(buf[pos..pos + keyLen.value]);
      pos := pos + keyLen.value;
      SkipTail(buf, pos);
      var valueLen := ValueLen(buf[pos..]);
      assert valueLen.Ok?;
      var offset := pos;
      pos := pos + valueLen.value;
      return Ok(Some(Entry(key, offset, pos)));
    }
  }
}
