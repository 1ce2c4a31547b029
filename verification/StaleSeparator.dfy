/** Two merges after which a search misses an entry that is there: the first leaves a branch
    whose only separator is above a key of its child, the second moves that separator next
    to others. */
module StaleSeparator {
  import opened Bytes
  import opened BTree
  import opened Rebalance
  import opened Searching

  function E(b: byte): Entry {
    Entry([b], Kv([]))
  }

  const LEFT := Branch(3, [[1], [5]], [Leaf(4, [E(1), E(2)]), Leaf(5, [E(5), E(6)])])
  const RIGHT := Branch(6, [[10], [20]], [Leaf(7, [E(10)]), Leaf(8, [E(20), E(21)])])
  /** Leaf 7 has one entry left and is merged into leaf 8. */
  const RIGHT_MERGED := Branch(6, [[20]], [Leaf(8, [E(10), E(20), E(21)])])
  const ROOT := Branch(2, [[1], [10]], [LEFT, RIGHT])
  const ROOT_MERGED := Branch(2, [[1], [10]], [LEFT, RIGHT_MERGED])
  /** Node 6 has one child left and is merged into node 3. */
  const JOINED := Branch(3, [[1], [5], [20]], [Leaf(4, [E(1), E(2)]), Leaf(5, [E(5), E(6)]),
      Leaf(8, [E(10), E(20), E(21)])])

  lemma Below(a: byte, b: byte)
    ensures Less([a], [b]) <==> a < b
  {
    RankIsOrder([a], [b]);
  }

  lemma LeafKeys(t: Tree, k: Key) returns (b: byte)
    requires t.Leaf? && k in KeySet(t) && forall e :: e in t.entries ==> |e.key| == 1
    ensures k == [b] && exists e :: e in t.entries && e.key == k
  {
    b := k[0];
    assert k == [b];
  }

  lemma PairRoutable(page: PageId, s0: byte, s1: byte, a: Tree, b: Tree)
    requires a.Leaf? && b.Leaf? && Sorted(a.entries) && Sorted(b.entries) && s0 < s1
    requires forall e :: e in a.entries ==> |e.key| == 1 && e.key[0] < s1
    requires forall e :: e in b.entries ==> |e.key| == 1 && e.key[0] >= s1
    ensures Routable(Branch(page, [[s0], [s1]], [a, b]))
  {
    hide Rank;
    Below(s0, s1);
    forall k | k in KeySet(a) ensures Less(k, [s1]) {
      var x := LeafKeys(a, k);
      Below(x, s1);
    }
    forall k | k in KeySet(b) ensures !Less(k, [s1]) {
      var x := LeafKeys(b, k);
      Below(x, s1);
    }
  }

  lemma PairKeys(page: PageId, s0: byte, s1: byte, a: Tree, b: Tree, k: Key) returns (x: byte)
    requires a.Leaf? && b.Leaf? && k in KeySet(Branch(page, [[s0], [s1]], [a, b]))
    requires forall e :: e in a.entries + b.entries ==> |e.key| == 1
    ensures k == [x] && (x == s0 || x == s1 || exists e :: e in a.entries + b.entries && e.key == k)
  {
    if k in [[s0], [s1]] {
      x := k[0];
    } else {
      InKeySetAll([a, b], k);
      var i :| 0 <= i < 2 && k in KeySet([a, b][i]);
      x := LeafKeys([a, b][i], k);
    }
  }

  /** Before the merges every search works. */
  lemma HalvesRoutable()
    ensures Routable(LEFT) && Routable(RIGHT)
  {
    hide Rank, KeySet, Routable;
    Below(1, 2);
    Below(5, 6);
    Below(20, 21);
    PairRoutable(3, 1, 5, LEFT.kids[0], LEFT.kids[1]);
    PairRoutable(6, 10, 20, RIGHT.kids[0], RIGHT.kids[1]);
  }

  lemma StartRoutable()
    ensures Routable(ROOT)
  {
    hide Rank, KeySet;
    Below(1, 10);
    HalvesRoutable();
    forall k | k in KeySet(LEFT) ensures Less(k, [10]) {
      var x := PairKeys(3, 1, 5, LEFT.kids[0], LEFT.kids[1], k);
      Below(x, 10);
    }
    forall k | k in KeySet(RIGHT) ensures !Less(k, [10]) {
      var x := PairKeys(6, 10, 20, RIGHT.kids[0], RIGHT.kids[1], k);
      Below(x, 10);
    }
  }

  lemma FirstMerge()
    ensures MayMerge(RIGHT, 0) && MergeChild(RIGHT, 0) == RIGHT_MERGED
  {
    var m := MergeChild(RIGHT, 0);
    assert m.seps == [[20]];
    assert [E(10)] + [E(20), E(21)] == [E(10), E(20), E(21)];
    assert m.kids == [Leaf(8, [E(10), E(20), E(21)])];
  }

  lemma SecondMerge()
    ensures MayMerge(ROOT_MERGED, 1) && MergeChild(ROOT_MERGED, 1) == Branch(2, [[1]], [JOINED])
  {
    var m := MergeChild(ROOT_MERGED, 1);
    assert m.seps == [[1]];
    assert LEFT.seps + RIGHT_MERGED.seps == JOINED.seps;
    assert LEFT.kids + RIGHT_MERGED.kids == JOINED.kids;
    assert m.kids == [JOINED];
  }

  /** The entry with key 10 is in the joined node, but a search for it ends in leaf 5. */
  lemma SearchMisses()
    ensures E(10) in Flatten(JOINED) && !Found(JOINED, E(10))
  {
    hide Rank;
    InFlatten(JOINED.kids, E(10));
    assert E(10) in Flatten(JOINED.kids[2]);
    Below(1, 10);
    Below(5, 10);
    Below(20, 10);
    LowerAt(JOINED.seps, [10], 2);
    assert Index(JOINED.seps, [10]) == 1;
    assert Route(JOINED, [10]) == Leaf(5, [E(5), E(6)]);
    assert [E(5), E(6)][0].key == [5] && [E(5), E(6)][1].key == [6];
  }
}
