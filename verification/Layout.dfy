/** A node as the bytes of its page block: header, elements, keys and values, and back. */
module Layout {
  import opened Wrappers
  import opened Bytes
  import opened BTree
  import F = Freelist
  import C = Committed
  import O = Overlay
  import S = Split

  const TYPE_BRANCH: byte := 1
  const TYPE_LEAF: byte := 2
  const TYPE_META: byte := 3
  const TYPE_FREELIST: byte := 4
  const TYPE_DATA: byte := 0
  const TYPE_BUCKET: byte := 1
  /** Where the elements start: the place of the header's last field. */
  const DATA_OFFSET := 32
  const META_SIZE := 16
  /** The metadata of a database, and one freelist record. */
  const DB_META_SIZE := 72
  const RECORD_SIZE := 16
  const PAGE_HEADER := 40
  const ALIGNMENT := 8

  // ---------- little-endian words ----------

  function LittleEndian(n: nat, width: nat): (s: Bytes)
    ensures |s| == width
  {
    if width == 0 then [] else [(n % 256) as byte] + LittleEndian(n / 256, width - 1)
  }

  function FromLittleEndian(s: Bytes): nat {
    if s == [] then 0 else s[0] as nat + 256 * FromLittleEndian(s[1..])
  }

  lemma {:induction false} LittleEndianRoundTrip(n: nat, width: nat)
    requires n < Pow256(width)
    ensures FromLittleEndian(LittleEndian(n, width)) == n
  {
    if width > 0 {
      LittleEndianRoundTrip(n / 256, width - 1);
      assert LittleEndian(n, width)[1..] == LittleEndian(n / 256, width - 1);
    }
  }

  function Word(n: nat): (s: Bytes)
    ensures |s| == 8
  {
    LittleEndian(n, 8)
  }

  lemma WordRoundTrip(n: nat)
    requires n < TWO_64
    ensures FromLittleEndian(Word(n)) == n
  {
    Width8();
    LittleEndianRoundTrip(n, 8);
  }

  function Zeros(n: nat): (s: Bytes)
    ensures |s| == n && forall i :: 0 <= i < n ==> s[i] == 0
  {
    seq(n, _ => 0)
  }

  // ---------- a node's elements ----------

  /** One element: a child page or a leaf type, with its key and value. */
  datatype Cell = Cell(tag: nat, key: Bytes, value: Bytes)

  function MetaBytes(root: PageId, nextInt: nat): Bytes {
    Word(root) + Word(nextInt)
  }

  function LeafCell(e: Entry): Cell {
    match e.datum
    case Kv(v) => Cell(TYPE_DATA as nat, e.key, v)
    case Sub(root, nextInt) => Cell(TYPE_BUCKET as nat, e.key, MetaBytes(root, nextInt))
  }

  function Cells(d: PageData): (r: seq<Cell>)
    requires d.Branches? ==> |d.seps| == |d.pages|
    ensures |r| == if d.Leaves? then |d.entries| else |d.seps|
  {
    match d
    case Leaves(es) => seq(|es|, i requires 0 <= i < |es| => LeafCell(es[i]))
    case Branches(seps, pages) =>
      seq(|seps|, i requires 0 <= i < |seps| && |pages| == |seps| => Cell(pages[i], seps[i], []))
  }

  function Body(c: Cell): Bytes {
    c.key + c.value
  }

  function BodySize(cs: seq<Cell>, i: nat): nat
    requires i <= |cs|
  {
    if i == 0 then 0 else BodySize(cs, i - 1) + |cs[i - 1].key| + |cs[i - 1].value|
  }

  /** Bytes taken by n elements. */
  function Width(leaf: bool, n: nat): nat {
    if leaf then 32 * n else 24 * n
  }

  /** Where element i's key is, counted from the element itself. */
  function Pos(leaf: bool, cs: seq<Cell>, i: nat): nat
    requires i < |cs|
  {
    Width(leaf, |cs| - i) + BodySize(cs, i)
  }

  function Element(leaf: bool, c: Cell, pos: nat): (s: Bytes)
    ensures |s| == Width(leaf, 1)
  {
    if leaf then [(c.tag % 256) as byte] + Zeros(7) + Word(pos) + Word(|c.key|) + Word(|c.value|)
    else Word(c.tag) + Word(|c.key|) + Word(pos)
  }

  function Elements(leaf: bool, cs: seq<Cell>, i: nat): (s: Bytes)
    requires i <= |cs|
    ensures |s| == Width(leaf, i)
  {
    if i == 0 then [] else Elements(leaf, cs, i - 1) + Element(leaf, cs[i - 1], Pos(leaf, cs, i - 1))
  }

  function Bodies(cs: seq<Cell>, i: nat): (s: Bytes)
    requires i <= |cs|
    ensures |s| == BodySize(cs, i)
  {
    if i == 0 then [] else Bodies(cs, i - 1) + Body(cs[i - 1])
  }

  function Header(id: PageId, leaf: bool, count: nat, overflow: nat): (s: Bytes)
    ensures |s| == DATA_OFFSET
  {
    Word(id) + ([if leaf then TYPE_LEAF else TYPE_BRANCH] + Zeros(7)) + Word(count) + Word(overflow)
  }

  /** The block's contents up to the end of the last value. */
  function Image(id: PageId, overflow: nat, leaf: bool, cs: seq<Cell>): (s: Bytes)
    ensures |s| == DATA_OFFSET + Width(leaf, |cs|) + BodySize(cs, |cs|)
  {
    Header(id, leaf, |cs|, overflow) + Elements(leaf, cs, |cs|) + Bodies(cs, |cs|)
  }

  // ---------- writing in place ----------

  /** The buffer holds s, then zeros. */
  ghost predicate Filled(buf: array<byte>, s: Bytes)
    reads buf
  {
    |s| <= buf.Length && buf[..|s|] == s && forall j :: |s| <= j < buf.Length ==> buf[j] == 0
  }

  method Append(buf: array<byte>, at: nat, b: Bytes, ghost s: Bytes)
    requires at == |s| && Filled(buf, s) && at + |b| <= buf.Length
    modifies buf
    ensures Filled(buf, s + b)
  {
    for k := 0 to |b|
      invariant buf[..at] == s && buf[at..at + k] == b[..k]
      invariant forall j :: at + k <= j < buf.Length ==> buf[j] == 0
    {
      buf[at + k] := b[k];
      assert buf[at..at + k + 1] == buf[at..at + k] + [b[k]];
      assert b[..k + 1] == b[..k] + [b[k]];
    }
    assert buf[..at + |b|] == buf[..at] + buf[at..at + |b|];
    assert b[..|b|] == b;
  }

  /** The element headers, with offsets that shrink by one element and grow by one body. */
  method WriteElements(buf: array<byte>, leaf: bool, cs: seq<Cell>, ghost s: Bytes)
    requires |s| == DATA_OFFSET && Filled(buf, s) && DATA_OFFSET + Width(leaf, |cs|) <= buf.Length
    modifies buf
    ensures Filled(buf, s + Elements(leaf, cs, |cs|))
  {
    hide Filled, Element;
    var size, headerOffsets, dataSize := Width(leaf, 1), Width(leaf, |cs|), 0;
    assert s + Elements(leaf, cs, 0) == s;
    for i := 0 to |cs|
      invariant headerOffsets == Width(leaf, |cs| - i) && dataSize == BodySize(cs, i)
      invariant Filled(buf, s + Elements(leaf, cs, i))
    {
      var pos := headerOffsets + dataSize;
      assert s + Elements(leaf, cs, i) + Element(leaf, cs[i], pos) == s + Elements(leaf, cs, i + 1);
      Append(buf, DATA_OFFSET + Width(leaf, i), Element(leaf, cs[i], pos), s + Elements(leaf, cs, i));
      dataSize := dataSize + |cs[i].key| + |cs[i].value|;
      headerOffsets := headerOffsets - size;
    }
  }

  /** Keys and values, one after another. */
  method WriteBodies(buf: array<byte>, from: nat, cs: seq<Cell>, ghost s: Bytes)
    requires |s| == from && Filled(buf, s) && from + BodySize(cs, |cs|) <= buf.Length
    modifies buf
    ensures Filled(buf, s + Bodies(cs, |cs|))
  {
    hide Filled, Body;
    assert s + Bodies(cs, 0) == s;
    var at := from;
    for i := 0 to |cs|
      invariant at == from + BodySize(cs, i)
      invariant Filled(buf, s + Bodies(cs, i))
    {
      BodyGrows(cs, i);
      assert s + Bodies(cs, i) + Body(cs[i]) == s + Bodies(cs, i + 1);
      BodyLength(cs[i]);
      Append(buf, at, Body(cs[i]), s + Bodies(cs, i));
      at := at + |cs[i].key| + |cs[i].value|;
    }
  }

  /** `write_node`: header, element headers, then the bodies. */
  method WriteNode(buf: array<byte>, id: PageId, overflow: nat, leaf: bool, cs: seq<Cell>)
    requires Filled(buf, []) && |Image(id, overflow, leaf, cs)| <= buf.Length
    modifies buf
    ensures Filled(buf, Image(id, overflow, leaf, cs))
  {
    hide Filled, Header, Elements, Bodies;
    ghost var h := Header(id, leaf, |cs|, overflow);
    assert [] + h == h;
    Append(buf, 0, Header(id, leaf, |cs|, overflow), []);
    WriteElements(buf, leaf, cs, h);
    WriteBodies(buf, DATA_OFFSET + Width(leaf, |cs|), cs, h + Elements(leaf, cs, |cs|));
  }

  lemma BodyLength(c: Cell)
    ensures |Body(c)| == |c.key| + |c.value|
  {
  }

  lemma {:induction false} BodyGrows(cs: seq<Cell>, i: nat)
    requires i < |cs|
    ensures BodySize(cs, i + 1) == BodySize(cs, i) + |cs[i].key| + |cs[i].value| <= BodySize(cs, |cs|)
    decreases |cs| - i
  {
    if i + 1 < |cs| {
      BodyGrows(cs, i + 1);
    }
  }

  // ---------- reading ----------

  /** Bytes of the block, or nothing where the block ends too early. */
  function Part(b: Bytes, at: nat, n: nat): Bytes {
    if at + n <= |b| then b[at..at + n] else []
  }

  function WordAt(b: Bytes, at: nat): nat {
    FromLittleEndian(Part(b, at, 8))
  }

  function Offset(leaf: bool, i: nat): nat {
    DATA_OFFSET + Width(leaf, i)
  }

  function PosAt(b: Bytes, leaf: bool, i: nat): nat {
    WordAt(b, Offset(leaf, i) + if leaf then 8 else 16)
  }

  function KeySizeAt(b: Bytes, leaf: bool, i: nat): nat {
    WordAt(b, Offset(leaf, i) + if leaf then 16 else 8)
  }

  function ValueSizeAt(b: Bytes, leaf: bool, i: nat): nat {
    if leaf then WordAt(b, Offset(leaf, i) + 24) else 0
  }

  function TagAt(b: Bytes, leaf: bool, i: nat): nat {
    if leaf then FromLittleEndian(Part(b, Offset(leaf, i), 1)) else WordAt(b, Offset(leaf, i))
  }

  /** Element i as its accessors read it. */
  function ReadCell(b: Bytes, leaf: bool, i: nat): Cell {
    var start := Offset(leaf, i) + PosAt(b, leaf, i);
    Cell(TagAt(b, leaf, i),
         Part(b, start, KeySizeAt(b, leaf, i)),
         Part(b, start + KeySizeAt(b, leaf, i), ValueSizeAt(b, leaf, i)))
  }

  function ReadDatum(c: Cell): Datum {
    if c.tag == TYPE_BUCKET as nat then Sub(FromLittleEndian(Part(c.value, 0, 8)),
        FromLittleEndian(Part(c.value, 8, 8)))
    else Kv(c.value)
  }

  /** `Node::from_page`: the elements of a branch or leaf page. */
  function ReadNode(b: Bytes): Option<PageData> {
    var n := WordAt(b, 16);
    if Part(b, 8, 1) == [TYPE_LEAF] then
      Some(Leaves(seq(n, i requires 0 <= i < n => Entry(ReadCell(b, true, i).key, ReadDatum(ReadCell(b, true, i))))))
    else if Part(b, 8, 1) == [TYPE_BRANCH] then
      Some(Branches(seq(n, i requires 0 <= i < n => ReadCell(b, false, i).key),
          seq(n, i requires 0 <= i < n => ReadCell(b, false, i).tag)))
    else None
  }

  // ---------- what was written is what is read ----------

  /** Numbers fit their words. */
  ghost predicate CellsFit(leaf: bool, cs: seq<Cell>) {
    && DATA_OFFSET + Width(leaf, |cs|) + BodySize(cs, |cs|) < TWO_64
    && forall i :: 0 <= i < |cs| ==> if leaf then cs[i].tag < 256 else cs[i].tag < TWO_64 && cs[i].value == []
  }

  lemma PartOf(a: Bytes, b: Bytes, c: Bytes)
    ensures Part(a + b + c, |a|, |b|) == b
  {
    assert (a + b + c)[|a|..|a| + |b|] == b;
  }

  lemma Regrouped(h: Bytes, a: Bytes, e: Bytes, r: Bytes, b: Bytes, t: Bytes)
    ensures h + (a + e + r) + b + t == (h + a) + e + (r + b + t)
  {
  }

  lemma PartInside(b: Bytes, at: nat, n: nat, from: nat, m: nat)
    requires at + n <= |b| && from + m <= n
    ensures Part(b, at + from, m) == Part(Part(b, at, n), from, m)
  {
    var x, y := b[at..at + n][from..from + m], b[at + from..at + from + m];
    assert |x| == |y| == m;
    forall k | 0 <= k < m ensures x[k] == y[k] {
      assert x[k] == b[at..at + n][from + k];
    }
    assert x == y;
  }

  lemma {:induction false} ElementsSplit(leaf: bool, cs: seq<Cell>, i: nat, n: nat) returns (rest: Bytes)
    requires i < n <= |cs|
    ensures Elements(leaf, cs, n) == Elements(leaf, cs, i) + Element(leaf, cs[i], Pos(leaf, cs, i)) + rest
    decreases n
  {
    hide Element;
    if n == i + 1 {
      rest := [];
      assert Elements(leaf, cs, n) == Elements(leaf, cs, i) + Element(leaf, cs[i], Pos(leaf, cs, i)) + [];
    } else {
      var front := ElementsSplit(leaf, cs, i, n - 1);
      rest := front + Element(leaf, cs[n - 1], Pos(leaf, cs, n - 1));
      assert Elements(leaf, cs, n) == Elements(leaf, cs, i) + Element(leaf, cs[i], Pos(leaf, cs, i)) + rest;
    }
  }

  lemma {:induction false} BodiesSplit(cs: seq<Cell>, i: nat, n: nat) returns (rest: Bytes)
    requires i < n <= |cs|
    ensures Bodies(cs, n) == Bodies(cs, i) + Body(cs[i]) + rest
    decreases n
  {
    hide Body;
    if n == i + 1 {
      rest := [];
      assert Bodies(cs, n) == Bodies(cs, i) + Body(cs[i]) + [];
    } else {
      var front := BodiesSplit(cs, i, n - 1);
      rest := front + Body(cs[n - 1]);
      assert Bodies(cs, n) == Bodies(cs, i) + Body(cs[i]) + rest;
    }
  }

  lemma ElementThere(id: PageId, overflow: nat, leaf: bool, cs: seq<Cell>, tail: Bytes, i: nat)
    requires i < |cs|
    ensures Part(Image(id, overflow, leaf, cs) + tail, Offset(leaf, i), Width(leaf, 1)) ==
            Element(leaf, cs[i], Pos(leaf, cs, i))
    ensures Offset(leaf, i) + Width(leaf, 1) <= |Image(id, overflow, leaf, cs) + tail|
  {
    hide Element, Header, Elements, Bodies;
    var rest := ElementsSplit(leaf, cs, i, |cs|);
    var h, e := Header(id, leaf, |cs|, overflow), Element(leaf, cs[i], Pos(leaf, cs, i));
    Regrouped(h, Elements(leaf, cs, i), e, rest, Bodies(cs, |cs|), tail);
    PartOf(h + Elements(leaf, cs, i), e, rest + Bodies(cs, |cs|) + tail);
  }

  lemma BodyThere(id: PageId, overflow: nat, leaf: bool, cs: seq<Cell>, tail: Bytes, i: nat)
    requires i < |cs|
    ensures Part(Image(id, overflow, leaf, cs) + tail, Offset(leaf, i) + Pos(leaf, cs, i), |Body(cs[i])|) == Body(cs[i])
    ensures Offset(leaf, i) + Pos(leaf, cs, i) + |Body(cs[i])| <= |Image(id, overflow, leaf, cs)|
  {
    hide Body, Header;
    var rest := BodiesSplit(cs, i, |cs|);
    var h, e := Header(id, leaf, |cs|, overflow), Elements(leaf, cs, |cs|);
    assert Image(id, overflow, leaf, cs) + tail == (h + e + Bodies(cs, i)) + Body(cs[i]) + (rest + tail);
    PartOf(h + e + Bodies(cs, i), Body(cs[i]), rest + tail);
    BodyGrows(cs, i);
    BodyLength(cs[i]);
  }

  lemma ElementFields(leaf: bool, c: Cell, pos: nat)
    requires pos < TWO_64 && |c.key| < TWO_64 && |c.value| < TWO_64 && (if leaf then c.tag < 256 else c.tag < TWO_64)
    ensures var e := Element(leaf, c, pos);
            && FromLittleEndian(Part(e, if leaf then 8 else 16, 8)) == pos
            && FromLittleEndian(Part(e, if leaf then 16 else 8, 8)) == |c.key|
            && (leaf ==> FromLittleEndian(Part(e, 24, 8)) == |c.value| && FromLittleEndian(Part(e, 0, 1)) == c.tag)
            && (!leaf ==> FromLittleEndian(Part(e, 0, 8)) == c.tag)
  {
    hide LittleEndian, Word;
    WordRoundTrip(pos);
    WordRoundTrip(|c.key|);
    WordRoundTrip(|c.value|);
    var e := Element(leaf, c, pos);
    if leaf {
      assert e[8..16] == Word(pos) && e[16..24] == Word(|c.key|) && e[24..32] == Word(|c.value|);
      assert e[0..1] == [(c.tag % 256) as byte];
      assert FromLittleEndian([(c.tag % 256) as byte]) == c.tag;
    } else {
      WordRoundTrip(c.tag);
      assert e[0..8] == Word(c.tag) && e[8..16] == Word(|c.key|) && e[16..24] == Word(pos);
    }
  }

  lemma FieldsThere(id: PageId, overflow: nat, leaf: bool, cs: seq<Cell>, tail: Bytes, i: nat)
    requires i < |cs| && CellsFit(leaf, cs)
    ensures var b := Image(id, overflow, leaf, cs) + tail;
            && PosAt(b, leaf, i) == Pos(leaf, cs, i) && KeySizeAt(b, leaf, i) == |cs[i].key|
            && ValueSizeAt(b, leaf, i) == |cs[i].value| && TagAt(b, leaf, i) == cs[i].tag
  {
    hide Element, Image, FromLittleEndian, Part;
    var b := Image(id, overflow, leaf, cs) + tail;
    ElementThere(id, overflow, leaf, cs, tail, i);
    BodyGrows(cs, i);
    ElementFields(leaf, cs[i], Pos(leaf, cs, i));
    PartInside(b, Offset(leaf, i), Width(leaf, 1), if leaf then 8 else 16, 8);
    PartInside(b, Offset(leaf, i), Width(leaf, 1), if leaf then 16 else 8, 8);
    PartInside(b, Offset(leaf, i), Width(leaf, 1), 0, if leaf then 1 else 8);
    if leaf {
      PartInside(b, Offset(leaf, i), Width(leaf, 1), 24, 8);
    }
  }

  /** Element by element, the accessors find what was written. */
  lemma CellRoundTrip(id: PageId, overflow: nat, leaf: bool, cs: seq<Cell>, tail: Bytes, i: nat)
    requires i < |cs| && CellsFit(leaf, cs)
    ensures ReadCell(Image(id, overflow, leaf, cs) + tail, leaf, i) == cs[i]
  {
    hide Image, PosAt, KeySizeAt, ValueSizeAt, TagAt, Pos, Offset, Part, Body;
    var b, c := Image(id, overflow, leaf, cs) + tail, cs[i];
    FieldsThere(id, overflow, leaf, cs, tail, i);
    BodyThere(id, overflow, leaf, cs, tail, i);
    ReadBody(b, Offset(leaf, i) + Pos(leaf, cs, i), c);
  }

  /** The key and the value of a body found at `start`. */
  lemma ReadBody(b: Bytes, start: nat, c: Cell)
    requires start + |Body(c)| <= |b| && Part(b, start, |Body(c)|) == Body(c)
    ensures Part(b, start, |c.key|) == c.key && Part(b, start + |c.key|, |c.value|) == c.value
  {
    hide Part;
    PartInside(b, start, |Body(c)|, 0, |c.key|);
    PartInside(b, start, |Body(c)|, |c.key|, |c.value|);
    BodyParts(c);
  }

  lemma BodyParts(c: Cell)
    ensures Part(Body(c), 0, |c.key|) == c.key && Part(Body(c), |c.key|, |c.value|) == c.value
    ensures |Body(c)| == |c.key| + |c.value|
  {
  }

  lemma HeaderRoundTrip(id: PageId, overflow: nat, leaf: bool, cs: seq<Cell>, tail: Bytes)
    requires CellsFit(leaf, cs)
    ensures var b := Image(id, overflow, leaf, cs) + tail;
            && WordAt(b, 16) == |cs| && Part(b, 8, 1) == [if leaf then TYPE_LEAF else TYPE_BRANCH]
            && (id < TWO_64 ==> WordAt(b, 0) == id) && (overflow < TWO_64 ==> WordAt(b, 24) == overflow)
  {
    hide LittleEndian, Word, Elements, Bodies, FromLittleEndian;
    var b := Image(id, overflow, leaf, cs) + tail;
    WordRoundTrip(|cs|);
    assert b[0..8] == Word(id) && b[24..32] == Word(overflow);
    if id < TWO_64 {
      WordRoundTrip(id);
    }
    if overflow < TWO_64 {
      WordRoundTrip(overflow);
    }
    assert b[16..24] == Word(|cs|);
    assert b[8..9] == [if leaf then TYPE_LEAF else TYPE_BRANCH];
  }

  /** Page ids and bucket metadata fit a word too. */
  ghost predicate DataFits(d: PageData) {
    && (d.Branches? ==> |d.seps| == |d.pages|) && CellsFit(d.Leaves?, Cells(d))
    && (d.Leaves? ==> forall i :: 0 <= i < |d.entries| && d.entries[i].datum.Sub? ==>
                         d.entries[i].datum.rootPage < TWO_64 && d.entries[i].datum.nextInt < TWO_64)
  }

  lemma DatumRoundTrip(e: Entry)
    requires e.datum.Sub? ==> e.datum.rootPage < TWO_64 && e.datum.nextInt < TWO_64
    ensures LeafCell(e).key == e.key && ReadDatum(LeafCell(e)) == e.datum
  {
    hide LittleEndian, Word, FromLittleEndian;
    if e.datum.Sub? {
      WordRoundTrip(e.datum.rootPage);
      WordRoundTrip(e.datum.nextInt);
      var v := MetaBytes(e.datum.rootPage, e.datum.nextInt);
      assert v[0..8] == Word(e.datum.rootPage) && v[8..16] == Word(e.datum.nextInt);
    }
  }

  /** A written block reads back as the same node. */
  lemma NodeRoundTrip(id: PageId, overflow: nat, d: PageData, tail: Bytes)
    requires DataFits(d)
    ensures ReadNode(Image(id, overflow, d.Leaves?, Cells(d)) + tail) == Some(d)
  {
    hide Image, ReadCell, CellsFit, ReadDatum, LeafCell, WordAt, Part;
    var leaf, cs := d.Leaves?, Cells(d);
    var b := Image(id, overflow, leaf, cs) + tail;
    HeaderRoundTrip(id, overflow, leaf, cs, tail);
    forall i | 0 <= i < |cs| ensures ReadCell(b, leaf, i) == cs[i] {
      CellRoundTrip(id, overflow, leaf, cs, tail, i);
    }
    var r := ReadNode(b).value;
    if leaf {
      forall i | 0 <= i < |cs| ensures r.entries[i] == d.entries[i] {
        DatumRoundTrip(d.entries[i]);
      }
      assert r.entries == d.entries;
    } else {
      assert r.seps == d.seps && r.pages == d.pages;
    }
  }

  // ---------- validation ----------

  ghost predicate CellOk(b: Bytes, leaf: bool, i: nat, limit: nat) {
    var end := PosAt(b, leaf, i) + KeySizeAt(b, leaf, i) + ValueSizeAt(b, leaf, i);
    && (leaf ==> TagAt(b, leaf, i) == TYPE_DATA as nat || (TagAt(b, leaf, i) == TYPE_BUCKET as nat
                 && ValueSizeAt(b, leaf, i) == META_SIZE))
    && end < TWO_64 && Offset(leaf, i) + end <= limit
  }

  predicate IsNode(b: Bytes) {
    Part(b, 8, 1) == [TYPE_LEAF] || Part(b, 8, 1) == [TYPE_BRANCH]
  }

  /** Everything the page's type and count speak of lies before the limit: the metadata, the
      freelist records, or the elements with their keys and values. */
  ghost predicate LayoutOk(b: Bytes, limit: nat) {
    var leaf, kind := Part(b, 8, 1) == [TYPE_LEAF], Part(b, 8, 1);
    if kind == [TYPE_META] then DATA_OFFSET + DB_META_SIZE <= limit
    else if kind == [TYPE_FREELIST] then DATA_OFFSET + WordAt(b, 16) * RECORD_SIZE <= limit
    else
      && IsNode(b) && Offset(leaf, WordAt(b, 16)) <= limit
      && forall i :: 0 <= i < WordAt(b, 16) ==> CellOk(b, leaf, i, limit)
  }

  method ValidateLayout(b: Bytes, limit: nat) returns (ok: bool)
    ensures ok <==> LayoutOk(b, limit)
  {
    hide WordAt, Part, TagAt, PosAt, KeySizeAt, ValueSizeAt;
    var kind := Part(b, 8, 1);
    if kind == [TYPE_META] {
      return DATA_OFFSET + DB_META_SIZE <= limit;
    }
    if kind == [TYPE_FREELIST] {
      return DATA_OFFSET + WordAt(b, 16) * RECORD_SIZE <= limit;
    }
    var leaf := kind == [TYPE_LEAF];
    if !leaf && kind != [TYPE_BRANCH] {
      return false;
    }
    var n := WordAt(b, 16);
    if Offset(leaf, n) > limit {
      return false;
    }
    for i := 0 to n
      invariant forall j :: 0 <= j < i ==> CellOk(b, leaf, j, limit)
    {
      if leaf {
        var tag := TagAt(b, leaf, i);
        if tag != TYPE_DATA as nat && tag != TYPE_BUCKET as nat {
          assert !CellOk(b, leaf, i, limit);
          return false;
        }
        if tag == TYPE_BUCKET as nat && ValueSizeAt(b, leaf, i) != META_SIZE {
          assert !CellOk(b, leaf, i, limit);
          return false;
        }
      }
      var end := PosAt(b, leaf, i) + KeySizeAt(b, leaf, i) + ValueSizeAt(b, leaf, i);
      if end >= TWO_64 || Offset(leaf, i) + end > limit {
        assert !CellOk(b, leaf, i, limit);
        return false;
      }
    }
    ok := true;
  }

  /** In a valid block every key and value is read in full. */
  lemma ValidReads(b: Bytes, limit: nat, leaf: bool, i: nat)
    requires LayoutOk(b, limit) && IsNode(b) && limit <= |b| && i < WordAt(b, 16)
             && leaf == (Part(b, 8, 1) == [TYPE_LEAF])
    ensures |ReadCell(b, leaf, i).key| == KeySizeAt(b, leaf, i)
    ensures |ReadCell(b, leaf, i).value| == ValueSizeAt(b, leaf, i)
  {
    hide WordAt, TagAt, PosAt, KeySizeAt, ValueSizeAt;
    assert CellOk(b, leaf, i, limit);
  }

  lemma LeafCellKind(e: Entry)
    ensures var c := LeafCell(e); c.tag == TYPE_DATA as nat || (c.tag == TYPE_BUCKET as nat && |c.value| == META_SIZE)
  {
  }

  /** What is written passes validation. */
  lemma ImageValid(id: PageId, overflow: nat, d: PageData, tail: Bytes, limit: nat)
    requires DataFits(d) && |Image(id, overflow, d.Leaves?, Cells(d))| <= limit
    ensures LayoutOk(Image(id, overflow, d.Leaves?, Cells(d)) + tail, limit)
  {
    hide Image, PosAt, KeySizeAt, ValueSizeAt, TagAt, WordAt, Part, Width, Pos, LeafCell;
    var leaf, cs := d.Leaves?, Cells(d);
    var b := Image(id, overflow, leaf, cs) + tail;
    HeaderRoundTrip(id, overflow, leaf, cs, tail);
    forall i | 0 <= i < |cs| ensures CellOk(b, leaf, i, limit) {
      FieldsThere(id, overflow, leaf, cs, tail, i);
      BodyThere(id, overflow, leaf, cs, tail, i);
      BodyLength(cs[i]);
      if leaf {
        LeafCellKind(d.entries[i]);
      }
    }
  }

  // ---------- the block is large enough ----------

  lemma {:induction false} SizeOfNode(t: Tree, i: nat)
    requires (t.Branch? ==> |t.seps| == |t.kids|) && i <= |Cells(O.DataOf(t))|
    ensures |C.Sizes(t)| == |Cells(O.DataOf(t))|
    ensures S.Sum(C.Sizes(t)[..i]) == Width(t.Leaf?, i) + BodySize(Cells(O.DataOf(t)), i)
  {
    var cs, sizes := Cells(O.DataOf(t)), C.Sizes(t);
    if i > 0 {
      SizeOfNode(t, i - 1);
      assert sizes[..i][..i - 1] == sizes[..i - 1];
      assert sizes[i - 1] == Width(t.Leaf?, 1) + |cs[i - 1].key| + |cs[i - 1].value|;
    }
  }

  /** The pages allocated for a node's size hold its image before the checksum. */
  lemma BlockHolds(id: PageId, overflow: nat, t: Tree, pagesize: nat)
    requires (t.Branch? ==> |t.seps| == |t.kids|) && pagesize > 0
    ensures |Image(id, overflow, t.Leaf?, Cells(O.DataOf(t)))| + F.CHECKSUM_SIZE
            <= F.PagesFor(F.HEADER_SIZE + S.Sum(C.Sizes(t)), pagesize) * pagesize
  {
    hide Image, Cells, F.PagesFor, S.Sum, C.Sizes;
    var cs := Cells(O.DataOf(t));
    SizeOfNode(t, |cs|);
    assert C.Sizes(t)[..|cs|] == C.Sizes(t);
  }

  /** `seal_block`: the last bytes become the digest of the others. */
  method Seal(buf: array<byte>, digest: Bytes -> Bytes)
    requires buf.Length >= F.CHECKSUM_SIZE && |digest(buf[..buf.Length - F.CHECKSUM_SIZE])| == F.CHECKSUM_SIZE
    modifies buf
    ensures buf[..buf.Length - F.CHECKSUM_SIZE] == old(buf[..buf.Length - F.CHECKSUM_SIZE])
    ensures buf[buf.Length - F.CHECKSUM_SIZE..] == digest(buf[..buf.Length - F.CHECKSUM_SIZE])
  {
    var at := buf.Length - F.CHECKSUM_SIZE;
    var d := digest(buf[..at]);
    for k := 0 to F.CHECKSUM_SIZE
      invariant buf[..at] == old(buf[..at]) && buf[at..at + k] == d[..k]
    {
      buf[at + k] := d[k];
      assert buf[at..at + k + 1] == buf[at..at + k] + [d[k]];
      assert d[..k + 1] == d[..k] + [d[k]];
    }
    assert buf[at..at + F.CHECKSUM_SIZE] == buf[at..] && d[..F.CHECKSUM_SIZE] == d;
  }

  /** From a node to its sealed block: the checksum verifies, the layout validates and the
      node reads back. */
  method StoreNode(id: PageId, t: Tree, pagesize: nat, digest: Bytes -> Bytes) returns (buf: array<byte>)
    requires (t.Branch? ==> |t.seps| == |t.kids|) && pagesize > 0 && DataFits(O.DataOf(t))
    requires forall x: Bytes :: |digest(x)| == F.CHECKSUM_SIZE
    ensures fresh(buf) && buf.Length >= F.CHECKSUM_SIZE
    ensures buf.Length == F.PagesFor(F.HEADER_SIZE + S.Sum(C.Sizes(t)), pagesize) * pagesize
    ensures buf[buf.Length - F.CHECKSUM_SIZE..] == digest(buf[..buf.Length - F.CHECKSUM_SIZE])
    ensures LayoutOk(buf[..], buf.Length - F.CHECKSUM_SIZE)
    ensures IsNode(buf[..]) && ReadNode(buf[..]) == Some(O.DataOf(t))
    ensures id < TWO_64 ==> WordAt(buf[..], 0) == id
    ensures var overflow := F.PagesFor(F.HEADER_SIZE + S.Sum(C.Sizes(t)), pagesize) - 1;
            overflow < TWO_64 ==> WordAt(buf[..], 24) == overflow
  {
    hide Image, Cells, ReadNode, LayoutOk, F.PagesFor, S.Sum, C.Sizes, DataFits, WordAt;
    var d, pages := O.DataOf(t), F.PagesFor(F.HEADER_SIZE + S.Sum(C.Sizes(t)), pagesize);
    BlockHolds(id, pages - 1, t, pagesize);
    buf := FillBlock(id, pages - 1, t.Leaf?, Cells(d), pages * pagesize, digest);
    Sealed(id, pages - 1, d, buf[..], buf.Length - F.CHECKSUM_SIZE);
  }

  /** A zeroed block, filled and sealed. */
  method FillBlock(id: PageId, overflow: nat, leaf: bool, cs: seq<Cell>, length: nat, digest: Bytes -> Bytes)
                   returns (buf: array<byte>)
    requires |Image(id, overflow, leaf, cs)| + F.CHECKSUM_SIZE <= length
             && forall x: Bytes :: |digest(x)| == F.CHECKSUM_SIZE
    ensures fresh(buf) && buf.Length == length && Image(id, overflow, leaf, cs) <= buf[..]
    ensures buf[length - F.CHECKSUM_SIZE..] == digest(buf[..length - F.CHECKSUM_SIZE])
  {
    hide Image;
    buf := new byte[length](_ => 0);
    WriteNode(buf, id, overflow, leaf, cs);
    ghost var image, at := Image(id, overflow, leaf, cs), length - F.CHECKSUM_SIZE;
    assert image <= buf[..at];
    Seal(buf, digest);
    assert buf[..at] <= buf[..];
  }

  lemma Sealed(id: PageId, overflow: nat, d: PageData, block: Bytes, limit: nat)
    requires DataFits(d) && Image(id, overflow, d.Leaves?, Cells(d)) <= block
             && |Image(id, overflow, d.Leaves?, Cells(d))| <= limit
    ensures LayoutOk(block, limit) && IsNode(block) && ReadNode(block) == Some(d)
    ensures (id < TWO_64 ==> WordAt(block, 0) == id) && (overflow < TWO_64 ==> WordAt(block, 24) == overflow)
  {
    hide Image, Cells, ReadNode, LayoutOk, WordAt, CellsFit;
    ghost var image := Image(id, overflow, d.Leaves?, Cells(d));
    var tail := block[|image|..];
    assert block == image + tail;
    ImageValid(id, overflow, d, tail, limit);
    NodeRoundTrip(id, overflow, d, tail);
    HeaderRoundTrip(id, overflow, d.Leaves?, Cells(d), tail);
  }

  // ---------- blocks in the file ----------

  predicate KnownType(b: Bytes) {
    IsNode(b) || Part(b, 8, 1) == [TYPE_META] || Part(b, 8, 1) == [TYPE_FREELIST]
  }

  function BlockLength(b: Bytes, pagesize: nat): nat {
    (WordAt(b, 24) + 1) * pagesize
  }

  /** The block of page `id` lies in the file, aligned, under a header that names it. */
  ghost predicate SpanOk(file: Bytes, id: nat, pagesize: nat) {
    var at := id * pagesize;
    && at + PAGE_HEADER <= |file| && at % ALIGNMENT == 0
    && WordAt(file[at..], 0) == id && KnownType(file[at..])
    && PAGE_HEADER + F.CHECKSUM_SIZE <= BlockLength(file[at..], pagesize) <= |file| - at
  }

  /** `validate_span`: its checks for overflow refuse nothing that lies in the file. */
  method ValidateSpan(file: Bytes, id: nat, pagesize: nat) returns (r: Option<(nat, nat)>)
    requires |file| < TWO_64
    ensures r.Some? <==> SpanOk(file, id, pagesize)
    ensures r.Some? ==> r.value.0 == id * pagesize && r.value.1 == BlockLength(file[id * pagesize..], pagesize)
  {
    hide WordAt, KnownType;
    var at := id * pagesize;
    if at >= TWO_64 || at + PAGE_HEADER >= TWO_64 || at + PAGE_HEADER > |file| || at % ALIGNMENT != 0 {
      return None;
    }
    var page := file[at..];
    if WordAt(page, 0) != id || !KnownType(page) || WordAt(page, 24) + 1 >= TWO_64 {
      return None;
    }
    var length := BlockLength(page, pagesize);
    if length >= TWO_64 || at + length >= TWO_64 || at + length > |file| || length < PAGE_HEADER + F.CHECKSUM_SIZE {
      return None;
    }
    r := Some((at, length));
  }

  /** Span, checksum and layout of page `id`. */
  ghost predicate BlockOk(file: Bytes, id: nat, pagesize: nat, digest: Bytes -> Bytes) {
    && SpanOk(file, id, pagesize)
    && var at, length := id * pagesize, BlockLength(file[id * pagesize..], pagesize);
       var block, limit := file[at..at + length], length - F.CHECKSUM_SIZE;
       block[limit..] == digest(block[..limit]) && LayoutOk(block, limit)
  }

  method ValidateBlock(file: Bytes, id: nat, pagesize: nat, digest: Bytes -> Bytes) returns (ok: bool)
    requires |file| < TWO_64
    ensures ok <==> BlockOk(file, id, pagesize, digest)
  {
    hide WordAt, KnownType, LayoutOk;
    var span := ValidateSpan(file, id, pagesize);
    if span.None? {
      return false;
    }
    var (at, length) := span.value;
    var block, limit := file[at..at + length], length - F.CHECKSUM_SIZE;
    if block[limit..] != digest(block[..limit]) {
      return false;
    }
    ok := ValidateLayout(block, limit);
  }

  /** A stored node's block, wherever its id puts it in the file, passes. */
  lemma StoredAccepted(file: Bytes, id: nat, pagesize: nat, digest: Bytes -> Bytes, block: Bytes)
    requires id * pagesize + |block| <= |file| && file[id * pagesize..id * pagesize + |block|] == block
    requires id * pagesize % ALIGNMENT == 0 && |block| >= PAGE_HEADER + F.CHECKSUM_SIZE
    requires WordAt(block, 0) == id && BlockLength(block, pagesize) == |block| && IsNode(block)
    requires LayoutOk(block, |block| - F.CHECKSUM_SIZE)
    requires block[|block| - F.CHECKSUM_SIZE..] == digest(block[..|block| - F.CHECKSUM_SIZE])
    ensures BlockOk(file, id, pagesize, digest)
  {
    hide WordAt, Part, LayoutOk;
    SameHeader(file[id * pagesize..], block);
  }

  lemma SameHeader(page: Bytes, block: Bytes)
    requires |block| >= PAGE_HEADER && block <= page
    ensures WordAt(page, 0) == WordAt(block, 0) && WordAt(page, 24) == WordAt(block, 24)
            && (IsNode(page) <==> IsNode(block))
  {
    hide FromLittleEndian;
    assert page[..|block|] == block;
    assert Part(page, 0, 8) == Part(block, 0, 8) && Part(page, 24, 8) == Part(block, 24, 8)
           && Part(page, 8, 1) == Part(block, 8, 1);
  }
}
