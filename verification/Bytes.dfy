/** Byte strings, their lexicographic order, and big-endian integers.

    Every key the store compares is a byte string compared byte by byte.  `Rank`
    embeds that order into the reals, so that the modules about trees can compare
    keys by rank; `RankIsOrder` is the bridge between the two views. */
module Bytes {
  newtype byte = x: int | 0 <= x < 256
  type Bytes = seq<byte>

  /** Strict lexicographic order, as Rust compares `[u8]`. */
  predicate Lex(a: Bytes, b: Bytes) {
    b != [] && (a == [] || a[0] < b[0] || (a[0] == b[0] && Lex(a[1..], b[1..])))
  }

  function Rank(s: Bytes): (r: real)
    ensures 0.0 <= r < 1.0
    ensures r == 0.0 <==> s == []
  {
    if s == [] then 0.0 else ((s[0] as int) as real + 1.0 + Rank(s[1..])) / 257.0
  }

  predicate Less(a: Bytes, b: Bytes) {
    Rank(a) < Rank(b)
  }

  /** Rank order is byte order. */
  lemma {:induction false} RankIsOrder(a: Bytes, b: Bytes)
    ensures Less(a, b) <==> Lex(a, b)
    ensures Rank(a) == Rank(b) <==> a == b
  {
    if a != [] && b != [] {
      RankIsOrder(a[1..], b[1..]);
      if a[0] == b[0] {
        assert a == [a[0]] + a[1..] && b == [b[0]] + b[1..];
      }
    }
  }

  lemma RankInjective()
    ensures forall a: Bytes, b: Bytes {:trigger Rank(a), Rank(b)} :: Rank(a) == Rank(b) ==> a == b
  {
    forall a: Bytes, b: Bytes ensures Rank(a) == Rank(b) ==> a == b {
      RankIsOrder(a, b);
    }
  }

  /** On prefixes of equal length the prefix decides first. */
  lemma {:induction false} LexAppend(a: Bytes, b: Bytes, x: Bytes, y: Bytes)
    requires |a| == |b|
    ensures Lex(a + x, b + y) <==> Lex(a, b) || (a == b && Lex(x, y))
  {
    if a == [] {
      assert a + x == x && b + y == y;
    } else {
      LexAppend(a[1..], b[1..], x, y);
      assert (a + x)[1..] == a[1..] + x && (b + y)[1..] == b[1..] + y;
      assert a == [a[0]] + a[1..] && b == [b[0]] + b[1..];
    }
  }

  function Pow256(width: nat): (r: nat)
    ensures r >= 1
  {
    if width == 0 then 1 else 256 * Pow256(width - 1)
  }

  const TWO_64 := 0x1_0000_0000_0000_0000

  lemma Width8()
    ensures Pow256(8) == TWO_64
  {
    assert Pow256(4) == 0x1_0000_0000;
    assert Pow256(8) == 256 * (256 * (256 * (256 * Pow256(4))));
  }

  /** The `width` low-order bytes of n, most significant first. */
  function BigEndian(n: nat, width: nat): (s: Bytes)
    ensures |s| == width
  {
    if width == 0 then [] else BigEndian(n / 256, width - 1) + [(n % 256) as byte]
  }

  function FromBigEndian(s: Bytes): (n: nat)
    ensures n < Pow256(|s|)
  {
    if s == [] then 0
    else FromBigEndian(s[..|s| - 1]) * 256 + s[|s| - 1] as nat
  }

  lemma {:induction false} BigEndianRoundTrip(n: nat, width: nat)
    requires n < Pow256(width)
    ensures FromBigEndian(BigEndian(n, width)) == n
  {
    if width > 0 {
      BigEndianRoundTrip(n / 256, width - 1);
      var s := BigEndian(n, width);
      assert s[..|s| - 1] == BigEndian(n / 256, width - 1);
    }
  }

  lemma {:induction false} FromBigEndianRoundTrip(s: Bytes)
    ensures BigEndian(FromBigEndian(s), |s|) == s
  {
    if s != [] {
      var front, last := s[..|s| - 1], s[|s| - 1];
      FromBigEndianRoundTrip(front);
      var n := FromBigEndian(s);
      assert n / 256 == FromBigEndian(front) && n % 256 == last as nat;
      assert s == front + [last];
    }
  }

  /** Big-endian integers of one width sort as the integers do. */
  lemma {:induction false} BigEndianOrder(n: nat, m: nat, width: nat)
    requires n < Pow256(width) && m < Pow256(width)
    ensures Lex(BigEndian(n, width), BigEndian(m, width)) <==> n < m
    ensures BigEndian(n, width) == BigEndian(m, width) <==> n == m
  {
    BigEndianRoundTrip(n, width);
    BigEndianRoundTrip(m, width);
    if width > 0 {
      BigEndianOrder(n / 256, m / 256, width - 1);
      LexAppend(BigEndian(n / 256, width - 1), BigEndian(m / 256, width - 1),
                [(n % 256) as byte], [(m % 256) as byte]);
    }
  }
}
