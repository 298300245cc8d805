/** Syntax trees for the families of the MessagePack specification, section
    "Formats", and the proof that the walker measures exactly those trees. */
module Grammar {
  import opened Bytes
  import opened Errors
  import opened MsgPack

  /** One encoded value. `width` is the width of an explicit length prefix. */
  datatype Node =
    | Scalar(marker: byte, payload: seq<byte>)  // nil, bool, int and float families
    | FixStr(text: seq<byte>)
    | Str(width: nat, text: seq<byte>)
    | Bin(width: nat, data: seq<byte>)
    | FixExt(tag: byte, data: seq<byte>)
    | Ext(width: nat, tag: byte, data: seq<byte>)
    | FixArray(items: seq<Node>)
    | Array(width: nat, items: seq<Node>)
    | FixMap(items: seq<Node>)  // keys and values alternate
    | Map(width: nat, items: seq<Node>)

  /** The payload width of a scalar marker, if it is one. */
  function ScalarWidth(marker: byte): Option<nat> {
    if marker < 0x80 || marker >= 0xe0 || marker in {0xc0, 0xc2, 0xc3} then Some(0)
    else if marker in {0xcc, 0xd0} then Some(1)
    else if marker in {0xcd, 0xd1} then Some(2)
    else if marker in {0xca, 0xce, 0xd2} then Some(4)
    else if marker in {0xcb, 0xcf, 0xd3} then Some(8)
    else None
  }

  function Items(node: Node): seq<Node> {
    if node.FixArray? || node.Array? || node.FixMap? || node.Map? then node.items else []
  }

  /** Lengths fit their prefixes, and maps hold whole pairs. */
  predicate HeaderOk(node: Node) {
    match node
    case Scalar(m, p) => ScalarWidth(m) == Some(|p|)
    case FixStr(t) => |t| < 32
    case Str(w, t) => w in {1, 2, 4} && |t| < Limit(w)
    case Bin(w, d) => w in {1, 2, 4} && |d| < Limit(w)
    case FixExt(_, d) => |d| in {1, 2, 4, 8, 16}
    case Ext(w, _, d) => w in {1, 2, 4} && |d| < Limit(w)
    case FixArray(items) => |items| < 16
    case Array(w, items) => w in {2, 4} && |items| < Limit(w)
    case FixMap(items) => |items| % 2 == 0 && |items| < 32
    case Map(w, items) => w in {2, 4} && |items| % 2 == 0 && |items| / 2 < Limit(w)
  }

  ghost predicate WellFormed(node: Node) {
    HeaderOk(node) && forall item | item in Items(node) :: WellFormed(item)
  }

  function Pick(width: nat, one: byte, two: byte, four: byte): byte {
    if width == 1 then one else if width == 2 then two else four
  }

  function Marker(node: Node): byte
    requires HeaderOk(node)
  {
    match node
    case Scalar(m, _) => m
    case FixStr(t) => 0xa0 + |t|
    case Str(w, _) => Pick(w, 0xd9, 0xda, 0xdb)
    case Bin(w, _) => Pick(w, 0xc4, 0xc5, 0xc6)
    case FixExt(_, d) =>
      if |d| == 1 then 0xd4 else if |d| == 2 then 0xd5 else if |d| == 4 then 0xd6 else if |d| == 8 then 0xd7 else 0xd8
    case Ext(w, _, _) => Pick(w, 0xc7, 0xc8, 0xc9)
    case FixArray(items) => 0x90 + |items|
    case Array(w, _) => Pick(w, 0xdc, 0xdc, 0xdd)
    case FixMap(items) => 0x80 + |items| / 2
    case Map(w, _) => Pick(w, 0xde, 0xde, 0xdf)
  }

  /** Width of the explicit length prefix, and the length written there. */
  function Width(node: Node): nat {
    match node
    case Str(w, _) => w
    case Bin(w, _) => w
    case Ext(w, _, _) => w
    case Array(w, _) => w
    case Map(w, _) => w
    case _ => 0
  }

  function Count(node: Node): nat {
    match node
    case Str(_, t) => |t|
    case Bin(_, d) => |d|
    case Ext(_, _, d) => |d|
    case Array(_, items) => |items|
    case Map(_, items) => |items| / 2
    case _ => 0
  }

  function Payload(node: Node): seq<byte> {
    match node
    case Scalar(_, p) => p
    case FixStr(t) => t
    case Str(_, t) => t
    case Bin(_, d) => d
    case FixExt(tag, d) => [tag] + d
    case Ext(_, tag, d) => [tag] + d
    case _ => []
  }

  /** Everything up to the first child. */
  function Header(node: Node): (h: seq<byte>)
    requires HeaderOk(node)
    ensures |h| == 1 + Width(node) + |Payload(node)|
  {
    [Marker(node)] + BigEndian(Count(node), Width(node)) + Payload(node)
  }

  ghost function Encode(node: Node): (b: seq<byte>)
    requires WellFormed(node)
    decreases node, 1
  {
    var items := Items(node);
    Header(node) + if items == [] then [] else EncodeAll(items)
  }

  ghost function EncodeAll(nodes: seq<Node>): seq<byte>
    requires forall node | node in nodes :: WellFormed(node)
    decreases nodes, 0
  {
    if nodes == [] then [] else Encode(nodes[0]) + EncodeAll(nodes[1..])
  }

  predicate At(buf: seq<byte>, pos: nat, bytes: seq<byte>) {
    pos + |bytes| <= |buf| && buf[pos..pos + |bytes|] == bytes
  }

  lemma AtSplit(buf: seq<byte>, pos: nat, a: seq<byte>, b: seq<byte>)
    ensures At(buf, pos, a + b) <==> At(buf, pos, a) && At(buf, pos + |a|, b)
  {
    if pos + |a| + |b| <= |buf| {
      var whole := buf[pos..pos + |a| + |b|];
      assert whole[..|a|] == buf[pos..pos + |a|];
      assert whole[|a|..] == buf[pos + |a|..pos + |a| + |b|];
      assert whole == whole[..|a|] + whole[|a|..];
      assert (a + b)[..|a|] == a && (a + b)[|a|..] == b;
    }
  }

  // ---------------------------------------------------------------------
  // Every tree is measured
  // ---------------------------------------------------------------------

  /** The marker table agrees with each family's own layout. */
  lemma MarkerTable(node: Node, buf: seq<byte>, pos: nat)
    requires HeaderOk(node)
    ensures PrefixWidth(Marker(node)) == Width(node)
    ensures Count(node) < Limit(Width(node))
    ensures ShapeOf(buf, pos, Marker(node))
         == (if Width(node) == 0 then Ok(Shape(|Payload(node)|, |Items(node)|))
             else match Len(buf, pos, Width(node))
               case Ok(n) => Ok(Counted(Marker(node), n))
               case Err(e) => Err(e))
    ensures Width(node) > 0 ==> Counted(Marker(node), Count(node)) == Shape(|Payload(node)|, |Items(node)|)
  {
    hide Len;
    Limits();
  }

  lemma OpenHeader(buf: seq<byte>, pos: nat, node: Node)
    requires HeaderOk(node) && At(buf, pos, Header(node))
    ensures Open(buf, pos) == Some((pos + |Header(node)|, |Items(node)|))
  {
    hide ShapeOf, Counted, PrefixWidth, HeaderOk, Marker, Count, Width, Payload, Items, BigEndian, FromBigEndian, Limit;
    var w, n := Width(node), Count(node);
    MarkerTable(node, buf, pos + 1);
    AtSplit(buf, pos, [Marker(node)] + BigEndian(n, w), Payload(node));
    AtSplit(buf, pos, [Marker(node)], BigEndian(n, w));
    assert buf[pos] == buf[pos..pos + 1][0];
    BigEndianRoundTrip(n, w);
  }

  lemma {:induction false} TreeIsMeasured(buf: seq<byte>, pos: nat, node: Node)
    requires WellFormed(node) && At(buf, pos, Encode(node))
    ensures Skip(buf, pos) == Some(pos + |Encode(node)|)
    decreases node, 1
  {
    hide Open, Header, HeaderOk, At;
    var items := Items(node);
    AtSplit(buf, pos, Header(node), EncodeAll(items));
    OpenHeader(buf, pos, node);
    if items == [] {
      assert EncodeAll(items) == [];
    } else {
      TreesAreMeasured(buf, pos + |Header(node)|, items);
    }
  }

  lemma {:induction false} TreesAreMeasured(buf: seq<byte>, pos: nat, nodes: seq<Node>)
    requires forall node | node in nodes :: WellFormed(node)
    requires At(buf, pos, EncodeAll(nodes))
    ensures pos <= |buf| && SkipMany(buf, pos, |nodes|) == Some(pos + |EncodeAll(nodes)|)
    decreases nodes, 0
  {
    hide Open, Header, HeaderOk;
    if nodes != [] {
      hide At;
      AtSplit(buf, pos, Encode(nodes[0]), EncodeAll(nodes[1..]));
      TreeIsMeasured(buf, pos, nodes[0]);
      TreesAreMeasured(buf, pos + |Encode(nodes[0])|, nodes[1..]);
    }
  }

  // ---------------------------------------------------------------------
  // Everything measured is a tree
  // ---------------------------------------------------------------------

  /** The node with this marker, length, payload and children. */
  lemma NodeFor(m: byte, n: nat, payload: seq<byte>, items: seq<Node>) returns (node: Node)
    requires m != 0xc1 && n < Limit(PrefixWidth(m))
    requires if PrefixWidth(m) > 0 then Counted(m, n) == Shape(|payload|, |items|)
             else n == 0 && ShapeOf([], 0, m) == Ok(Shape(|payload|, |items|))
    ensures HeaderOk(node) && Marker(node) == m && Width(node) == PrefixWidth(m)
    ensures Count(node) == n && Payload(node) == payload && Items(node) == items
  {
    Limits();
    var w := PrefixWidth(m);
    if m in {0xd9, 0xda, 0xdb} {
      node := Str(w, payload);
    } else if m in {0xc4, 0xc5, 0xc6} {
      node := Bin(w, payload);
    } else if m in {0xc7, 0xc8, 0xc9} {
      node := Ext(w, payload[0], payload[1..]);
    } else if m in {0xdc, 0xdd} {
      node := Array(w, items);
    } else if m in {0xde, 0xdf} {
      node := Map(w, items);
    } else if 0x80 <= m < 0x90 {
      node := FixMap(items);
    } else if 0x90 <= m < 0xa0 {
      node := FixArray(items);
    } else if 0xa0 <= m < 0xc0 {
      node := FixStr(payload);
    } else if 0xd4 <= m <= 0xd8 {
      node := FixExt(payload[0], payload[1..]);
    } else {
      node := Scalar(m, payload);
    }
  }

  /** The node whose header is what `Open` stepped over and whose children are `items`. */
  lemma HeaderOfOpen(buf: seq<byte>, pos: nat, items: seq<Node>) returns (node: Node)
    requires Open(buf, pos).Some? && Open(buf, pos).value.1 == |items|
    ensures HeaderOk(node) && Items(node) == items
    ensures Header(node) == buf[pos..Open(buf, pos).value.0]
  {
    hide Counted, HeaderOk, Marker, Count, Width, Payload, Items, BigEndian, FromBigEndian, Limit;
    var end := Open(buf, pos).value.0;
    var m, w := buf[pos], PrefixWidth(buf[pos]);
    var prefix := buf[pos + 1..pos + 1 + w];
    FromBigEndianRoundTrip(prefix);
    node := NodeFor(m, FromBigEndian(prefix), buf[pos + 1 + w..end], items);
    assert buf[pos..end] == [m] + prefix + buf[pos + 1 + w..end];
  }

  lemma {:induction false} MeasuredIsTree(buf: seq<byte>, pos: nat) returns (node: Node)
    requires Skip(buf, pos).Some?
    ensures WellFormed(node) && Encode(node) == buf[pos..Skip(buf, pos).value]
    decreases |buf| - pos, 0, 0
  {
    hide Open, Header, HeaderOk;
    var (start, children) := Open(buf, pos).value;
    var items := MeasuredAreTrees(buf, start, children);
    node := HeaderOfOpen(buf, pos, items);
    var end := Skip(buf, pos).value;
    assert buf[pos..end] == buf[pos..start] + buf[start..end];
    assert items == [] ==> EncodeAll(items) == [];
  }

  lemma {:induction false} MeasuredAreTrees(buf: seq<byte>, pos: nat, k: nat) returns (nodes: seq<Node>)
    requires pos <= |buf| && SkipMany(buf, pos, k).Some?
    ensures |nodes| == k && forall node | node in nodes :: WellFormed(node)
    ensures EncodeAll(nodes) == buf[pos..SkipMany(buf, pos, k).value]
    decreases |buf| - pos, 1, k
  {
    hide Open, Header, HeaderOk;
    if k == 0 {
      nodes := [];
    } else {
      var first := MeasuredIsTree(buf, pos);
      var mid := Skip(buf, pos).value;
      var rest := MeasuredAreTrees(buf, mid, k - 1);
      nodes := [first] + rest;
      assert nodes[1..] == rest;
      var end := SkipMany(buf, pos, k).value;
      assert buf[pos..end] == buf[pos..mid] + buf[mid..end];
    }
  }

  // ---------------------------------------------------------------------
  // Main results
  // ---------------------------------------------------------------------

  /** The walker answers `n` exactly when the bytes from `pos` on, up to `n`, are
      one complete value of the grammar. */
  lemma SkipIsGrammar(buf: seq<byte>, pos: nat, end: nat)
    requires pos <= end <= |buf|
    ensures Skip(buf, pos) == Some(end) <==> exists node :: WellFormed(node) && Encode(node) == buf[pos..end]
  {
    hide Open, Header, HeaderOk;
    if Skip(buf, pos) == Some(end) {
      var node := MeasuredIsTree(buf, pos);
    } else if exists node :: WellFormed(node) && Encode(node) == buf[pos..end] {
      var node :| WellFormed(node) && Encode(node) == buf[pos..end];
      TreeIsMeasured(buf, pos, node);
    }
  }

  /** The answer depends on the value's own bytes alone: whatever precedes or
      follows them, the same bytes measure the same. */
  lemma SkipIsLocal(buf: seq<byte>, pos: nat, other: seq<byte>, at: nat)
    requires Skip(buf, pos).Some? && At(other, at, buf[pos..Skip(buf, pos).value])
    ensures Skip(other, at) == Some(at + Skip(buf, pos).value - pos)
  {
    hide Open, Header, HeaderOk;
    var node := MeasuredIsTree(buf, pos);
    TreeIsMeasured(other, at, node);
  }

  /** `value_len(&buf[pos..])` is the descent at `pos`. */
  lemma SkipTail(buf: seq<byte>, pos: nat)
    requires pos <= |buf|
    ensures Skip(buf[pos..], 0)
         == match Skip(buf, pos) case Some(end) => Some(end - pos) case None => None
  {
    hide Open, Header, HeaderOk;
    var tail := buf[pos..];
    if Skip(buf, pos).Some? {
      SkipIsLocal(buf, pos, tail, 0);
    } else if Skip(tail, 0).Some? {
      SkipIsLocal(tail, 0, buf, pos);
    }
  }

  /** No complete value is a proper prefix of another. */
  lemma PrefixFree(a: Node, b: Node, rest: seq<byte>)
    requires WellFormed(a) && WellFormed(b) && Encode(a) == Encode(b) + rest
    ensures rest == []
  {
    hide Open, Header, HeaderOk;
    TreeIsMeasured(Encode(a), 0, a);
    assert At(Encode(a), 0, Encode(b));
    TreeIsMeasured(Encode(a), 0, b);
  }
}
