/** Key codecs that keep order: pairs of strings with escaped zeros, and signed integers. */
module Codec {
  import opened Wrappers
  import opened Bytes

  function Wide(b: byte): Bytes {
    if b == 0 then [0, 255] else [b]
  }

  /** A string's bytes with each zero followed by 255, closed by two zeros. */
  ghost function Escaped(s: Bytes): Bytes {
    if s == [] then [0, 0] else Wide(s[0]) + Escaped(s[1..])
  }

  // ---------- the two loops ----------

  /** Escaping the first i bytes leaves the rest to be escaped. */
  ghost function EscapedPart(s: Bytes): Bytes {
    if s == [] then [] else EscapedPart(s[..|s| - 1]) + Wide(s[|s| - 1])
  }

  lemma PartMore(s: Bytes, b: byte)
    ensures EscapedPart(s + [b]) == EscapedPart(s) + Wide(b)
  {
    hide Wide;
    assert (s + [b])[..|s|] == s;
  }

  lemma Prepended(b: byte, s: Bytes)
    ensures Escaped([b] + s) == Wide(b) + Escaped(s)
  {
    hide Wide;
    assert ([b] + s)[1..] == s;
  }

  lemma Assoc(a: Bytes, b: Bytes, c: Bytes)
    ensures (a + b) + c == a + (b + c)
  {
  }

  lemma {:induction false} EscapedWhole(s: Bytes, t: Bytes)
    ensures EscapedPart(s) + Escaped(t) == Escaped(s + t)
  {
    if s == [] {
      assert s + t == t && EscapedPart(s) == [];
    } else {
      hide Wide, Escaped, EscapedPart;
      var front, last := s[..|s| - 1], s[|s| - 1];
      assert s == front + [last];
      EscapedWhole(front, [last] + t);
      PartMore(front, last);
      Prepended(last, t);
      Assoc(EscapedPart(front), Wide(last), Escaped(t));
      Assoc(front, [last], t);
    }
  }

  method Escape(value: Bytes) returns (r: Bytes)
    ensures r == Escaped(value)
  {
    r := [];
    for i := 0 to |value|
      invariant r == EscapedPart(value[..i])
    {
      PartMore(value[..i], value[i]);
      assert value[..i + 1] == value[..i] + [value[i]];
      if value[i] == 0 {
        r := r + [0, 255];
      } else {
        r := r + [value[i]];
      }
    }
    assert value[..|value|] == value;
    EscapedWhole(value, []);
    assert value + [] == value;
    r := r + [0, 0];
  }

  /** The bytes start with the escaped form of v, n bytes long. */
  ghost predicate Starts(bytes: Bytes, v: Bytes, n: nat) {
    n <= |bytes| && bytes[..n] == Escaped(v)
  }

  lemma {:induction false} EscapedLong(v: Bytes)
    ensures |Escaped(v)| >= |v| + 2
  {
    if v != [] {
      EscapedLong(v[1..]);
    }
  }

  /** One step of reading: what the remaining bytes start with. */
  lemma StartsStep(b: Bytes, v: Bytes)
    ensures (exists n: nat :: Starts(b, v, n)) <==>
            if v == [] then |b| >= 2 && b[0] == 0 && b[1] == 0
            else if v[0] == 0 then |b| >= 2 && b[0] == 0 && b[1] == 255 && exists n: nat :: Starts(b[2..], v[1..], n)
            else |b| >= 1 && b[0] == v[0] && exists n: nat :: Starts(b[1..], v[1..], n)
  {
    var e := Escaped(v);
    EscapedLong(v);
    if n: nat :| Starts(b, v, n) {
      assert n == |e|;
      assert forall i :: 0 <= i < n ==> b[i] == e[i];
      if v != [] {
        var w := if v[0] == 0 then 2 else 1;
        assert e[w..] == Escaped(v[1..]);
        assert b[w..][..n - w] == e[w..];
        assert Starts(b[w..], v[1..], n - w);
      }
    }
    if v == [] && |b| >= 2 && b[0] == 0 && b[1] == 0 {
      assert b[..2] == [0, 0];
      assert Starts(b, v, 2);
    }
    if v != [] {
      var w := if v[0] == 0 then 2 else 1;
      if |b| >= w && b[..w] == (if v[0] == 0 then [0, 255] else [v[0]]) {
        if n: nat :| Starts(b[w..], v[1..], n) {
          assert b[..n + w] == b[..w] + b[w..][..n];
          assert Starts(b, v, n + w);
        }
      }
    }
  }

  /** Reading back: succeeds exactly on bytes that start with an escaped string. */
  method Unescape(bytes: Bytes, utf8: Bytes -> bool) returns (r: Option<(Bytes, nat)>)
    ensures r.Some? ==> Starts(bytes, r.value.0, r.value.1) && utf8(r.value.0)
    ensures r.None? ==> forall v, n: nat :: Starts(bytes, v, n) ==> !utf8(v)
  {
    hide Escaped, Starts;
    var result: Bytes := [];
    var index := 0;
    Aligned(bytes);
    while index < |bytes|
      invariant index <= |bytes| && bytes[..index] == EscapedPart(result)
      invariant forall v, n: nat :: Starts(bytes, v, n) ==> Ahead(bytes, index, result, v)
    {
      ghost var i, before := index, result;
      if bytes[index] != 0 {
        result := result + [bytes[index]];
        index := index + 1;
        ReadOne(bytes, i, before, 1);
      } else if index + 1 < |bytes| && bytes[index + 1] == 255 {
        result := result + [0];
        index := index + 2;
        ReadOne(bytes, i, before, 2);
      } else if index + 1 < |bytes| && bytes[index + 1] == 0 {
        ReadEnd(bytes, index, result);
        if utf8(result) {
          return Some((result, index + 2));
        }
        return None;
      } else {
        forall v, n: nat | Starts(bytes, v, n) ensures false {
          StuckThere(bytes, index, result, v);
        }
        return None;
      }
    }
    forall v, n: nat | Starts(bytes, v, n) ensures false {
      StuckThere(bytes, index, result, v);
    }
    r := None;
  }

  /** v is what was read so far followed by what the rest starts with. */
  ghost predicate Ahead(bytes: Bytes, index: nat, result: Bytes, v: Bytes) {
    index <= |bytes| && result <= v && exists n: nat :: Starts(bytes[index..], v[|result|..], n)
  }

  lemma Aligned(bytes: Bytes)
    ensures forall v, n: nat :: Starts(bytes, v, n) ==> Ahead(bytes, 0, [], v)
  {
    assert bytes[0..] == bytes;
    forall v, n: nat | Starts(bytes, v, n) ensures Ahead(bytes, 0, [], v) {
      assert v[0..] == v;
    }
  }

  lemma ReadPart(bytes: Bytes, index: nat, result: Bytes, w: nat)
    requires index + w <= |bytes| && bytes[..index] == EscapedPart(result)
    requires (w == 1 && bytes[index] != 0) || (w == 2 && bytes[index] == 0 && bytes[index + 1] == 255)
    ensures bytes[..index + w] == EscapedPart(result + [bytes[index]])
  {
    hide EscapedPart;
    PartMore(result, bytes[index]);
    OneWide(bytes, index, w);
  }

  lemma OneWide(bytes: Bytes, index: nat, w: nat)
    requires index + w <= |bytes|
    requires (w == 1 && bytes[index] != 0) || (w == 2 && bytes[index] == 0 && bytes[index + 1] == 255)
    ensures bytes[..index + w] == bytes[..index] + Wide(bytes[index])
  {
  }

  lemma ReadOne(bytes: Bytes, index: nat, result: Bytes, w: nat)
    requires index + w <= |bytes| && bytes[..index] == EscapedPart(result)
    requires (w == 1 && bytes[index] != 0) || (w == 2 && bytes[index] == 0 && bytes[index + 1] == 255)
    requires forall v, n: nat :: Starts(bytes, v, n) ==> Ahead(bytes, index, result, v)
    ensures bytes[..index + w] == EscapedPart(result + [bytes[index]])
    ensures forall v, n: nat :: Starts(bytes, v, n) ==> Ahead(bytes, index + w, result + [bytes[index]], v)
  {
    hide EscapedPart, Starts, Ahead;
    ReadPart(bytes, index, result, w);
    var next := result + [bytes[index]];
    forall v, n: nat | Starts(bytes, v, n) ensures Ahead(bytes, index + w, next, v) {
      assert Ahead(bytes, index, result, v);
      ReadAhead(bytes, index, result, v, w);
    }
  }

  lemma ReadAhead(bytes: Bytes, index: nat, result: Bytes, v: Bytes, w: nat)
    requires index + w <= |bytes| && Ahead(bytes, index, result, v)
    requires (w == 1 && bytes[index] != 0) || (w == 2 && bytes[index] == 0 && bytes[index + 1] == 255)
    ensures Ahead(bytes, index + w, result + [bytes[index]], v)
  {
    var b, u := bytes[index..], v[|result|..];
    StartsStep(b, u);
    assert b[w..] == bytes[index + w..];
    assert u != [] && u[0] == bytes[index];
    assert u[1..] == v[|result| + 1..];
  }

  lemma ReadEnd(bytes: Bytes, index: nat, result: Bytes)
    requires index + 2 <= |bytes| && bytes[..index] == EscapedPart(result) && bytes[index] == 0 && bytes[index + 1] == 0
    requires forall v, n: nat :: Starts(bytes, v, n) ==> Ahead(bytes, index, result, v)
    ensures Starts(bytes, result, index + 2)
    ensures forall v, n: nat :: Starts(bytes, v, n) ==> v == result
  {
    EscapedWhole(result, []);
    assert result + [] == result;
    assert bytes[..index + 2] == bytes[..index] + [0, 0];
    forall v, n: nat | Starts(bytes, v, n) ensures v == result {
      assert Ahead(bytes, index, result, v);
      StartsStep(bytes[index..], v[|result|..]);
      assert v == result + v[|result|..];
    }
  }

  lemma StuckThere(bytes: Bytes, index: nat, result: Bytes, v: Bytes)
    requires Ahead(bytes, index, result, v)
    ensures index < |bytes|
    ensures bytes[index] == 0 ==> index + 1 < |bytes| && (bytes[index + 1] == 0 || bytes[index + 1] == 255)
  {
    StartsStep(bytes[index..], v[|result|..]);
  }

  // ---------- pairs ----------

  /** Escaped strings compare as the strings do, whatever follows them. */
  lemma {:induction false} EscapedOrder(a: Bytes, c: Bytes, x: Bytes, y: Bytes)
    ensures Lex(Escaped(a) + x, Escaped(c) + y) <==> Lex(a, c) || (a == c && Lex(x, y))
    ensures Escaped(a) + x == Escaped(c) + y <==> a == c && x == y
  {
    hide Escaped;
    Unfold(a, x);
    Unfold(c, y);
    if a != [] && c != [] {
      EscapedOrder(a[1..], c[1..], x, y);
      assert a == [a[0]] + a[1..] && c == [c[0]] + c[1..];
      if a[0] == c[0] {
        var w := if a[0] == 0 then [0, 255] else [a[0]];
        SamePrefix(w, Escaped(a[1..]) + x, Escaped(c[1..]) + y);
      }
    } else if a == [] && c == [] {
      SamePrefix([0, 0], x, y);
    }
  }

  lemma Unfold(a: Bytes, x: Bytes)
    ensures a == [] ==> Escaped(a) + x == [0, 0] + x && (Escaped(a) + x)[0] == 0 && (Escaped(a) + x)[1..][0] == 0
    ensures a != [] ==> Escaped(a) + x == (if a[0] == 0 then [0, 255] else [a[0]]) + (Escaped(a[1..]) + x)
    ensures a != [] ==> (Escaped(a) + x)[0] == a[0]
    ensures a != [] && a[0] == 0 ==> |Escaped(a) + x| >= 2 && (Escaped(a) + x)[1..][0] == 255
  {
  }

  lemma SamePrefix(w: Bytes, x: Bytes, y: Bytes)
    ensures Lex(w + x, w + y) <==> Lex(x, y)
    ensures w + x == w + y <==> x == y
  {
    LexAppend(w, w, x, y);
    Irreflexive(w);
    assert (w + x)[|w|..] == x && (w + y)[|w|..] == y;
  }

  lemma {:induction false} Irreflexive(w: Bytes)
    ensures !Lex(w, w)
  {
    if w != [] {
      Irreflexive(w[1..]);
    }
  }

  ghost function Encoded(a: Bytes, b: Bytes): Bytes {
    Escaped(a) + Escaped(b)
  }

  /** Encoded pairs sort as pairs: by the first string, then by the second. */
  lemma PairOrder(a: Bytes, b: Bytes, c: Bytes, d: Bytes)
    ensures Lex(Encoded(a, b), Encoded(c, d)) <==> Lex(a, c) || (a == c && Lex(b, d))
    ensures Encoded(a, b) == Encoded(c, d) <==> a == c && b == d
  {
    hide Escaped;
    EscapedOrder(a, c, Escaped(b), Escaped(d));
    EscapedOrder(b, d, [], []);
    assert Escaped(b) + [] == Escaped(b) && Escaped(d) + [] == Escaped(d);
  }

  lemma StartsOnce(bytes: Bytes, v: Bytes, n: nat, w: Bytes, m: nat)
    requires Starts(bytes, v, n) && Starts(bytes, w, m)
    ensures v == w && n == m
  {
    EscapedOrder(v, w, bytes[n..], bytes[m..]);
    assert bytes == bytes[..n] + bytes[n..] && bytes == bytes[..m] + bytes[m..];
  }

  method EncodePair(a: Bytes, b: Bytes) returns (r: Bytes)
    ensures r == Encoded(a, b)
  {
    r := Escape(a);
    var second := Escape(b);
    r := r + second;
  }

  /** Decoding inverts encoding, and accepts nothing else. */
  method DecodePair(bytes: Bytes, utf8: Bytes -> bool) returns (r: Option<(Bytes, Bytes)>)
    ensures r.Some? ==> bytes == Encoded(r.value.0, r.value.1) && utf8(r.value.0) && utf8(r.value.1)
    ensures r.None? ==> forall a, b :: bytes == Encoded(a, b) ==> !utf8(a) || !utf8(b)
  {
    hide Escaped;
    forall a, b | bytes == Encoded(a, b) ensures Starts(bytes, a, |Escaped(a)|) && bytes[|Escaped(a)|..] == Escaped(b) {
      assert bytes[..|Escaped(a)|] == Escaped(a);
    }
    var first := Unescape(bytes, utf8);
    if first.None? {
      return None;
    }
    var used := first.value.1;
    forall a, b | bytes == Encoded(a, b) ensures a == first.value.0 && Starts(bytes[used..], b, |bytes| - used) {
      StartsOnce(bytes, a, |Escaped(a)|, first.value.0, used);
      assert bytes[used..][..|bytes| - used] == bytes[used..];
    }
    var second := Unescape(bytes[used..], utf8);
    if second.None? {
      return None;
    }
    if used + second.value.1 != |bytes| {
      forall a, b | bytes == Encoded(a, b) ensures false {
        StartsOnce(bytes[used..], b, |bytes| - used, second.value.0, second.value.1);
      }
      return None;
    }
    assert bytes[used..][..second.value.1] == bytes[used..];
    assert bytes == bytes[..used] + bytes[used..];
    r := Some((first.value.0, second.value.0));
  }

  // ---------- signed integers ----------

  const HALF := 0x8000_0000_0000_0000

  function AsUnsigned(k: int): int {
    if k < 0 then k + TWO_64 else k
  }

  function AsSigned(u: int): int {
    if u >= HALF then u - TWO_64 else u
  }

  /** Exclusive or with the top bit of a 64-bit word. */
  function FlipTop(u: int): int {
    if u >= HALF then u - HALF else u + HALF
  }

  function EncodeI64(k: int): Bytes
    requires -HALF <= k < HALF
  {
    BigEndian(FlipTop(AsUnsigned(k)), 8)
  }

  function DecodeI64(bytes: Bytes): Option<int> {
    if |bytes| != 8 then None else Some(AsSigned(FlipTop(FromBigEndian(bytes))))
  }

  /** Negative keys sort before positive ones, and every key reads back. */
  lemma I64Order(k: int, m: int)
    requires -HALF <= k < HALF && -HALF <= m < HALF
    ensures Lex(EncodeI64(k), EncodeI64(m)) <==> k < m
    ensures DecodeI64(EncodeI64(k)) == Some(k)
  {
    Width8();
    BigEndianOrder(FlipTop(AsUnsigned(k)), FlipTop(AsUnsigned(m)), 8);
    BigEndianRoundTrip(FlipTop(AsUnsigned(k)), 8);
  }

  lemma I64Reencodes(bytes: Bytes)
    requires |bytes| == 8
    ensures DecodeI64(bytes).Some? && -HALF <= DecodeI64(bytes).value < HALF
    ensures EncodeI64(DecodeI64(bytes).value) == bytes
  {
    Width8();
    FromBigEndianRoundTrip(bytes);
  }
}
