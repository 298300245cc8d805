/** Cutting a byte stream into packets, each behind its length. */
module Framing {
  import opened Bytes
  import opened Errors
  import Rmp

  const MAX_PACKET_LEN := 2 * 1024 * 1024 * 1024

  const BAD_MARKER := Protocol("bad packet length marker")
  const TOO_LONG := Protocol("packet exceeds the 2 GiB limit")
  const UNSENDABLE := Protocol("request exceeds the 4 GiB packet limit")

  /** What the front of a buffer holds. */
  datatype Frame = Partial | Malformed(error: Error) | Whole(packet: seq<byte>, rest: seq<byte>)

  /** Bytes of length prefix announced by `marker`, itself included. */
  function PrefixLen(marker: byte): (r: Option<nat>)
    ensures r.Some? ==> r.value in {1, 2, 3, 5, 9}
  {
    if marker < 0x80 then Some(1)
    else match marker
      case 0xcc => Some(2)
      case 0xcd => Some(3)
      case 0xce => Some(5)
      case 0xcf => Some(9)
      case _ => None
  }

  function SplitFrame(data: seq<byte>): (r: Frame)
    ensures r.Whole? ==> |r.rest| < |data|
  {
    if data == [] then Partial
    else match PrefixLen(data[0])
      case None => Malformed(BAD_MARKER)
      case Some(prefix) =>
        if |data| < prefix then Partial
        else
          var len := if prefix == 1 then data[0] else FromBigEndian(data[1..prefix]);
          if len > MAX_PACKET_LEN then Malformed(TOO_LONG)
          else if |data| < prefix + len then Partial
          else Whole(data[prefix..prefix + len], data[prefix + len..])
  }

  /** A frame is a MessagePack unsigned integer `n`, then `n` bytes of packet. */
  lemma FrameIsCountedPacket(data: seq<byte>)
    requires SplitFrame(data).Whole?
    ensures var Whole(packet, rest) := SplitFrame(data);
      exists prefix :: 0 < prefix <= |data| && Rmp.ReadU64(data) == Some((|packet|, prefix))
                    && data == data[..prefix] + packet + rest
  {
    Limits();
    var prefix := PrefixLen(data[0]).value;
    assert Rmp.ReadU64(data) == Some((|SplitFrame(data).packet|, prefix));
  }

  function EncodeFrame(packet: seq<byte>): Result<seq<byte>> {
    if |packet| < U32_LIMIT then Ok([0xce] + BigEndian(|packet|, 4) + packet) else Err(UNSENDABLE)
  }

  /** Exactly the packets of at most 2 GiB survive the trip; longer ones that
      `encode` still takes are refused on arrival. */
  lemma DecodeRecoversEncoded(packet: seq<byte>, rest: seq<byte>)
    requires EncodeFrame(packet).Ok?
    ensures SplitFrame(EncodeFrame(packet).value + rest)
         == if |packet| <= 0x8000_0000 then Whole(packet, rest) else Malformed(TOO_LONG)
  {
    Limits();
    BigEndianRoundTrip(|packet|, 4);
    var data := EncodeFrame(packet).value + rest;
    assert data[1..5] == BigEndian(|packet|, 4);
    if |packet| <= MAX_PACKET_LEN {
      assert data[5..5 + |packet|] == packet && data[5 + |packet|..] == rest;
    }
  }

  /** Bytes that arrive later change neither a whole frame nor a bad one. */
  lemma MoreBytesKeepFrame(data: seq<byte>, more: seq<byte>)
    ensures match SplitFrame(data)
      case Whole(packet, rest) => SplitFrame(data + more) == Whole(packet, rest + more)
      case Malformed(e) => SplitFrame(data + more) == Malformed(e)
      case Partial => true
  {
    hide FromBigEndian, PrefixLen;
    if data != [] && PrefixLen(data[0]).Some? && |data| >= PrefixLen(data[0]).value {
      var prefix := PrefixLen(data[0]).value;
      Kept(data, more, 1, prefix);
      if SplitFrame(data).Whole? {
        Kept(data, more, prefix, prefix + |SplitFrame(data).packet|);
      }
    }
  }

  lemma Kept(data: seq<byte>, more: seq<byte>, start: nat, end: nat)
    requires start <= end <= |data|
    ensures (data + more)[start..end] == data[start..end] && (data + more)[end..] == data[end..] + more
  {
  }

  lemma FourBytes(n: nat)
    requires n < U32_LIMIT
    ensures BigEndian(n, 4) == [n / 0x100_0000, n / 0x1_0000 % 256, n / 0x100 % 256, n % 256]
  {
    Limits();
    forall i | 0 <= i < 4 ensures BigEndian(n, 4)[i] == n / Limit(3 - i) % 256 {
      BigEndianAt(n, 4, i);
    }
    assert Limit(3) == 0x100_0000;
  }

  /** Every width of length prefix is understood: after the marker, `width` bytes with the
      packet's length. Nothing is taken before the last byte is there. */
  lemma AnyWidthFrames(marker: byte, width: nat, packet: seq<byte>, rest: seq<byte>)
    requires (marker, width) in {(0xcc, 1), (0xcd, 2), (0xce, 4), (0xcf, 8)}
    requires |packet| < Limit(width) && |packet| <= 0x8000_0000
    ensures var data := [marker] + BigEndian(|packet|, width) + packet;
      && SplitFrame(data + rest) == Whole(packet, rest)
      && forall cut: nat | cut < |data| :: SplitFrame(data[..cut]) == Partial
  {
    hide BigEndian, FromBigEndian, Limit;
    BigEndianRoundTrip(|packet|, width);
    var len := BigEndian(|packet|, width);
    var data := [marker] + len + packet;
    LengthAt(marker, len, packet + rest);
    assert data + rest == [marker] + len + (packet + rest);
    assert (packet + rest)[..|packet|] == packet && (packet + rest)[|packet|..] == rest;
    forall cut: nat | cut < |data| ensures SplitFrame(data[..cut]) == Partial {
      if cut > width {
        assert data[..cut] == [marker] + len + packet[..cut - width - 1];
        LengthAt(marker, len, packet[..cut - width - 1]);
      }
    }
  }

  lemma LengthAt(marker: byte, len: seq<byte>, tail: seq<byte>)
    ensures var data := [marker] + len + tail;
      data[1..1 + |len|] == len && data[1 + |len|..] == tail
      && forall n: nat | n <= |tail| :: data[1 + |len|..1 + |len| + n] == tail[..n] && data[1 + |len| + n..] == tail[n..]
  {
  }

  /** A single byte below 0x80 is a length too; any other first byte is refused. */
  lemma OtherMarkers(marker: byte, packet: seq<byte>, rest: seq<byte>)
    ensures marker < 0x80 && |packet| == marker ==> SplitFrame([marker] + packet + rest) == Whole(packet, rest)
    ensures marker >= 0x80 && marker !in {0xcc, 0xcd, 0xce, 0xcf} ==> SplitFrame([marker] + rest) == Malformed(BAD_MARKER)
  {
    var data := [marker] + packet + rest;
    if marker < 0x80 && |packet| == marker {
      assert data[1..1 + |packet|] == packet && data[1 + |packet|..] == rest;
    }
  }

  // ---------------------------------------------------------------------
  // A whole stream
  // ---------------------------------------------------------------------

  /** What a reader got out of a stream: items, bytes left over, the first error. */
  datatype Stream<R> = Stream(items: seq<R>, rest: seq<byte>, error: Option<Error>)

  function Prepend<R>(items: seq<R>, s: Stream<R>): Stream<R> {
    s.(items := items + s.items)
  }

  /** Decode until nothing whole is left, or something is wrong. */
  function Drain<R>(data: seq<byte>, parse: seq<byte> -> Result<R>): Stream<R>
    decreases |data|
  {
    match SplitFrame(data)
    case Partial => Stream([], data, None)
    case Malformed(e) => Stream([], data, Some(e))
    case Whole(packet, rest) =>
      match parse(packet)
      case Err(e) => Stream([], rest, Some(e))
      case Ok(item) => Prepend([item], Drain(rest, parse))
  }

  /** The same over a socket that delivers one chunk after another. */
  function DrainChunks<R>(buffered: seq<byte>, chunks: seq<seq<byte>>, parse: seq<byte> -> Result<R>): Stream<R>
    decreases |chunks|
  {
    var got := Drain(buffered, parse);
    if got.error.Some? || chunks == [] then got
    else Prepend(got.items, DrainChunks(got.rest + chunks[0], chunks[1..], parse))
  }

  function Concat(chunks: seq<seq<byte>>): seq<byte> {
    if chunks == [] then [] else chunks[0] + Concat(chunks[1..])
  }

  lemma {:induction false} DrainMore<R>(data: seq<byte>, more: seq<byte>, parse: seq<byte> -> Result<R>)
    ensures var got := Drain(data, parse);
      var all := Drain(data + more, parse);
      if got.error.Some? then all.items == got.items && all.error == got.error
      else all == Prepend(got.items, Drain(got.rest + more, parse))
    decreases |data|
  {
    hide SplitFrame;
    MoreBytesKeepFrame(data, more);
    match SplitFrame(data)
    case Whole(packet, rest) =>
      if parse(packet).Ok? {
        DrainMore(rest, more, parse);
        var got := Drain(rest, parse);
        if got.error.None? {
          var tail := Drain(got.rest + more, parse);
          assert [parse(packet).value] + (got.items + tail.items) == ([parse(packet).value] + got.items) + tail.items;
        }
      }
    case _ =>
  }

  /** However a byte stream is cut into chunks, decoding after each one yields the
      items, first error and (without error) leftover of decoding it whole. */
  lemma {:induction false} ChunkingIsInvisible<R>(
      buffered: seq<byte>, chunks: seq<seq<byte>>, parse: seq<byte> -> Result<R>)
    ensures var pieces := DrainChunks(buffered, chunks, parse);
      var whole := Drain(buffered + Concat(chunks), parse);
      && pieces.items == whole.items && pieces.error == whole.error
      && (whole.error.None? ==> pieces.rest == whole.rest)
    decreases |chunks|
  {
    hide SplitFrame;
    var got := Drain(buffered, parse);
    if chunks == [] {
      assert buffered + Concat(chunks) == buffered;
    } else {
      DrainMore(buffered, Concat(chunks), parse);
      if got.error.None? {
        ChunkingIsInvisible(got.rest + chunks[0], chunks[1..], parse);
        assert got.rest + chunks[0] + Concat(chunks[1..]) == got.rest + Concat(chunks);
      }
    }
  }

  // ---------------------------------------------------------------------
  // The buffer operations
  // ---------------------------------------------------------------------

  class BytesMut {
    var data: seq<byte>

    constructor ()
      ensures data == []
    {
      data := [];
    }
  }

  /** One `decode` call, up to the packet's own parsing: consumes a whole frame or nothing. */
  method Decode<R>(src: BytesMut, parse: seq<byte> -> Result<R>) returns (r: Result<Option<R>>)
    modifies src
    ensures match SplitFrame(old(src.data))
      case Partial => r == Ok(None) && src.data == old(src.data)
      case Malformed(e) => r == Err(e) && src.data == old(src.data)
      case Whole(packet, rest) =>
        && src.data == rest
        && r == match parse(packet) case Ok(item) => Ok(Some(item)) case Err(e) => Err(e)
  {
    if |src.data| == 0 {
      return Ok(None);
    }
    var marker := src.data[0];
    var prefix;
    if marker < 0x80 {
      prefix := 1;
    } else {
      match marker {
        case 0xcc => prefix := 2;
        case 0xcd => prefix := 3;
        case 0xce => prefix := 5;
        case 0xcf => prefix := 9;
        case _ => return Err(BAD_MARKER);
      }
    }
    if |src.data| < prefix {
      return Ok(None);
    }
    var len: nat;
    if prefix == 1 {
      len := marker;
    } else {
      len := FromBigEndian(src.data[1..prefix]);
    }
    if len > MAX_PACKET_LEN {
      return Err(TOO_LONG);
    }
    if |src.data| < prefix + len {
      return Ok(None);
    }
    src.data := src.data[prefix..];
    var packet := src.data[..len];
    src.data := src.data[len..];
    assert old(src.data)[prefix..][..len] == old(src.data)[prefix..prefix + len];
    assert old(src.data)[prefix..][len..] == old(src.data)[prefix + len..];
    var item :- parse(packet);
    return Ok(Some(item));
  }

  method Encode(packet: seq<byte>, dst: BytesMut) returns (r: Result<()>)
    modifies dst
    ensures match EncodeFrame(packet)
      case Ok(frame) => r == Ok(()) && dst.data == old(dst.data) + frame
      case Err(e) => r == Err(e) && dst.data == old(dst.data)
    ensures r.Ok? <==> |packet| < 0x1_0000_0000
    ensures r.Ok? ==> (
      var n := |packet|;
      dst.data == old(dst.data) + [0xce, n / 0x100_0000, n / 0x1_0000 % 256, n / 0x100 % 256, n % 256] + packet)
  {
    if |packet| >= U32_LIMIT {
      return Err(UNSENDABLE);
    }
    dst.data := dst.data + [0xce];
    dst.data := dst.data + BigEndian(|packet|, 4);
    dst.data := dst.data + packet;
    assert dst.data == old(dst.data) + EncodeFrame(packet).value;
    FourBytes(|packet|);
    return Ok(());
  }

  /** `now` is `items` followed by `later`. */
  ghost predicate Continues<R>(now: Stream<R>, items: seq<R>, later: Stream<R>) {
    now.items == items + later.items && now.error == later.error && now.rest == later.rest
  }

  ghost predicate FailsWith<R>(now: Stream<R>, e: Error) {
    now.items == [] && now.error == Some(e)
  }

  /** What one `decode` call at the front of the buffer means for the stream `now`. */
  ghost predicate StepsAs<R>(
      now: Stream<R>, buffered: seq<byte>, chunks: seq<seq<byte>>, parse: seq<byte> -> Result<R>)
  {
    match SplitFrame(buffered)
    case Malformed(e) => FailsWith(now, e)
    case Partial =>
      now == if chunks == [] then Stream([], buffered, None) else DrainChunks(buffered + chunks[0], chunks[1..], parse)
    case Whole(packet, rest) =>
      if parse(packet).Err? then FailsWith(now, parse(packet).error)
      else Continues(now, [parse(packet).value], DrainChunks(rest, chunks, parse))
  }

  lemma WholeFrameStep<R>(buffered: seq<byte>, chunks: seq<seq<byte>>, parse: seq<byte> -> Result<R>)
    requires SplitFrame(buffered).Whole? && parse(SplitFrame(buffered).packet).Ok?
    ensures Continues(DrainChunks(buffered, chunks, parse), [parse(SplitFrame(buffered).packet).value],
                      DrainChunks(SplitFrame(buffered).rest, chunks, parse))
  {
    hide SplitFrame;
    var item, rest := parse(SplitFrame(buffered).packet).value, SplitFrame(buffered).rest;
    var got := Drain(rest, parse);
    assert Drain(buffered, parse) == Prepend([item], got);
    if got.error.None? && chunks != [] {
      var tail := DrainChunks(got.rest + chunks[0], chunks[1..], parse);
      assert [item] + (got.items + tail.items) == ([item] + got.items) + tail.items;
    }
  }

  lemma DrainChunksStep<R>(buffered: seq<byte>, chunks: seq<seq<byte>>, parse: seq<byte> -> Result<R>)
    ensures StepsAs(DrainChunks(buffered, chunks, parse), buffered, chunks, parse)
  {
    hide SplitFrame, Continues;
    if SplitFrame(buffered).Whole? && parse(SplitFrame(buffered).packet).Ok? {
      WholeFrameStep(buffered, chunks, parse);
    } else if SplitFrame(buffered).Partial? && chunks != [] {
      var later := DrainChunks(buffered + chunks[0], chunks[1..], parse);
      assert [] + later.items == later.items;
    }
  }

  /** Feeding a buffer chunk by chunk and decoding until `None` after each. */
  method ReadAll<R>(src: BytesMut, chunks: seq<seq<byte>>, parse: seq<byte> -> Result<R>)
    returns (items: seq<R>, error: Option<Error>)
    modifies src
    ensures var whole := Drain(old(src.data) + Concat(chunks), parse);
      items == whole.items && error == whole.error && (error.None? ==> src.data == whole.rest)
  {
    hide SplitFrame, DrainChunks, Drain;
    items, error := [], None;
    var fed := 0;
    ghost var all := DrainChunks(src.data, chunks, parse);
    ChunkingIsInvisible(src.data, chunks, parse);
    assert chunks[0..] == chunks;
    while true
      invariant fed <= |chunks|
      invariant var now := DrainChunks(src.data, chunks[fed..], parse);
        all.items == items + now.items && all.error == now.error && all.rest == now.rest
      decreases |chunks| - fed, |src.data|
    {
      DrainChunksStep(src.data, chunks[fed..], parse);
      var r := Decode(src, parse);
      match r {
        case Err(e) =>
          return items, Some(e);
        case Ok(Some(item)) =>
          items := items + [item];
        case Ok(None) =>
          if fed == |chunks| {
            return;
          }
          assert chunks[fed..][1..] == chunks[fed + 1..];
          src.data := src.data + chunks[fed];
          fed := fed + 1;
      }
    }
  }
}
