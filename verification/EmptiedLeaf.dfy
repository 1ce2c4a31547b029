/** A bucket that commits or not depending on what is merged: every key under one branch node is
    deleted, its sibling was never loaded.  The last emptied leaf of the node cannot be dropped
    and moves to the sibling, which is not visited again. */
module EmptiedLeaf {
  import opened Bytes
  import opened BTree
  import opened Overlay
  import opened Traversal
  import opened Rebalance
  import opened Committed
  import opened Spill
  import opened Handover
  import opened Merging
  import opened Outcome
  import F = Freelist

  const E: Entry := Entry([9], Kv([]))
  const LAST: Tree := Leaf(6, [])
  const KEPT: Tree := Leaf(7, [E])
  const LEFT: Tree := Branch(3, [[1], [5]], [Leaf(5, []), LAST])
  const RIGHT: Tree := Branch(4, [[9]], [KEPT])
  const ROOT: Tree := Branch(2, [[1], [9]], [LEFT, RIGHT])

  const BASE: Base := Base(map[4 := Branches([[9]], [7]), 7 := Leaves([E])], map[2 := 1, 3 := 1, 5 := 1, 6 := 1],
                           map[3 := [1], 5 := [1], 6 := [5]], {4, 7})
  const SIZES: map<PageId, nat> := map[2 := 1, 3 := 1, 4 := 1, 5 := 1, 6 := 1, 7 := 1]
  const ALL: set<PageId> := {2, 3, 4, 5, 6, 7}
  const START: Stage := Stage(BASE, SIZES, ALL, ROOT, 2, {}, ALL)

  /** Leaf 5 is dropped, node 3 goes to node 4, and leaf 6 with it. */
  const DROP: Merge := Merge([0], 0)
  const MOVE: Merge := Merge([], 0)
  const JOINED: Tree := Branch(4, [[5], [9]], [LAST, KEPT])

  lemma Order()
    ensures Less([1], [5]) && Less([5], [9]) && Less([1], [9])
  {
    RankIsOrder([1], [5]);
    RankIsOrder([5], [9]);
    RankIsOrder([1], [9]);
  }

  lemma KeySets()
    ensures KeySet(Leaf(5, [])) == {} && KeySet(LAST) == {} && KeySet(KEPT) == {[9]}
    ensures KeySet(LEFT) == {[1], [5]} && KeySet(RIGHT) == {[9]}
  {
    hide Rank;
    assert KEPT.entries[0].key == [9];
    KeysOfKids([LAST]);
    KeysOfKids([Leaf(5, []), LAST]);
    KeysOfKids([KEPT]);
  }

  lemma KeysOfKids(ts: seq<Tree>)
    requires 0 < |ts| <= 2
    ensures KeySetAll(ts) == if |ts| == 1 then KeySet(ts[0]) else KeySet(ts[0]) + KeySet(ts[1])
  {
    hide KeySet;
    assert |ts| == 1 ==> ts[1..] == [];
    assert |ts| == 2 ==> ts[1..] == [ts[1]] && KeySetAll([ts[1]]) == KeySet(ts[1]) + KeySetAll([ts[1]][1..]);
  }

  lemma InOrder()
    ensures Staged(ROOT)
  {
    hide Rank, KeySet, Less;
    Order();
    KeySets();
    LeftInOrder();
    RightInOrder();
  }

  lemma LeftInOrder()
    ensures Staged(LEFT)
  {
    hide Rank, KeySet, Less;
    Order();
    KeySets();
    assert Staged(Leaf(5, [])) && Staged(LAST);
  }

  lemma RightInOrder()
    ensures Staged(RIGHT)
  {
    hide Rank, KeySet, Less;
    assert Staged(KEPT);
  }

  lemma PagesThere()
    ensures Pages(LEFT) == {3, 5, 6} && Pages(RIGHT) == {4, 7} && Pages(ROOT) == ALL
  {
    assert [LAST][1..] == [] && [Leaf(5, []), LAST][1..] == [LAST] && [KEPT][1..] == [];
    assert [LEFT, RIGHT][1..] == [RIGHT] && [RIGHT][1..] == [];
    assert PagesAll([LAST]) == {6} && PagesAll(LEFT.kids) == {5, 6} && PagesAll(RIGHT.kids) == {7};
    assert PagesAll([RIGHT]) == {4, 7} && PagesAll(ROOT.kids) == {3, 4, 5, 6, 7};
  }

  lemma Loaded()
    ensures Ready(BASE, ROOT)
  {
    hide Pages;
    PagesThere();
    assert Rep(BASE.store, KEPT);
    assert RootPages(RIGHT.kids) == [7];
    assert Rep(BASE.store, RIGHT);
    assert Tight(KEPT) && Keyed(KEPT) && NodeKey(KEPT) == [9];
    assert Tight(RIGHT);
    assert Settled(BASE, [9], RIGHT);
    assert Ready(BASE, LEFT);
  }

  /** Blocks of one page each. */
  lemma UnitBlocks(sizes: map<PageId, nat>, ps: set<PageId>)
    requires forall p :: p in sizes ==> sizes[p] == 1
    ensures Blocks(sizes, ps) == ps * sizes.Keys
  {
    forall p ensures p in Blocks(sizes, ps) <==> p in ps * sizes.Keys {
      if p in ps * sizes.Keys {
        assert p in F.Block(p, sizes[p]);
      }
    }
  }

  lemma UnitTracks(b: Base, sizes: map<PageId, nat>, ps: set<PageId>)
    requires forall p :: p in sizes ==> sizes[p] == 1 && p > 1
    requires forall p :: p in b.counts ==> b.counts[p] == 1 && p > 1
    requires ps <= sizes.Keys && b.keep == ps - b.counts.Keys
    ensures BlocksOk(b) && Tracks(b, sizes, ps)
  {
  }

  lemma Tracking()
    ensures BlocksOk(BASE) && Tracks(BASE, SIZES, ALL) && Blocks(SIZES, ALL) == ALL
    ensures Blocks(SIZES, ALL - BASE.counts.Keys) == BASE.keep
  {
    hide Blocks, BlocksOk, Tracks;
    UnitBlocks(SIZES, ALL);
    UnitBlocks(SIZES, ALL - BASE.counts.Keys);
    UnitTracks(BASE, SIZES, ALL);
  }

  lemma OwnPages()
    ensures Unshared(ROOT) && Balanced(ROOT, 2)
  {
    hide Pages;
    PagesThere();
    PagesOfNode(Leaf(5, []));
    PagesOfNode(LAST);
    PagesOfNode(KEPT);
    assert Balanced(LEFT, 1) && Balanced(RIGHT, 1);
    assert Unshared(LEFT) && Unshared(RIGHT);
  }

  lemma StartStands()
    ensures Stands(START)
  {
    hide Pages, Staged, Ready, BlocksOk, Tracks, Blocks, Unshared, Balanced;
    InOrder();
    PagesThere();
    Loaded();
    Tracking();
    OwnPages();
  }

  lemma AfterDrop()
    ensures Stands(START) && Takes(START, DROP)
    ensures var s := OneMerged(START, DROP);
            s.t == Branch(2, [[1], [9]], [Branch(3, [[5]], [LAST]), RIGHT]) && s.b == BASE && Takes(s, MOVE)
  {
    hide Standing;
    StartStands();
    assert DROP.path[1..] == [];
    assert Applies(LEFT, [], 0) && Removed(LEFT, [], 0) == Leaf(5, []);
    assert MergeAt(LEFT, [], 0, 1) == Branch(3, [[5]], [LAST]);
    assert ROOT.kids[0 := Branch(3, [[5]], [LAST])] == [Branch(3, [[5]], [LAST]), RIGHT];
    assert MergedAt(BASE, SIZES, LEFT, [], 0) == BASE;
    var s := OneMerged(START, DROP);
    assert Applies(s.t, [], 0) && Removed(s.t, [], 0) == Branch(3, [[5]], [LAST]);
  }

  lemma AfterMove()
    ensures Stands(START) && Takes(START, DROP) && Takes(OneMerged(START, DROP), MOVE)
    ensures var s := OneMerged(OneMerged(START, DROP), MOVE);
            s.t == Branch(2, [[9]], [JOINED]) && s.b.counts.Keys == {2, 3, 4, 5, 6}
  {
    hide Standing, MergeChild;
    AfterDrop();
    var s := OneMerged(START, DROP);
    Moved();
    LoadedRight();
    assert OneMerged(s, MOVE).t == MergeChild(s.t, 0);
  }

  lemma LoadedRight()
    ensures var t := Branch(2, [[1], [9]], [Branch(3, [[5]], [LAST]), RIGHT]);
            MayMerge(t, 0) && Merged(BASE, SIZES, t, 0).counts.Keys == {2, 3, 4, 5, 6}
  {
    assert Keyed(RIGHT);
  }

  lemma Moved()
    ensures var t := Branch(2, [[1], [9]], [Branch(3, [[5]], [LAST]), RIGHT]);
            MayMerge(t, 0) && MergeChild(t, 0) == Branch(2, [[9]], [JOINED])
  {
    var t := Branch(2, [[1], [9]], [Branch(3, [[5]], [LAST]), RIGHT]);
    assert [[5]] + [[9]] == [[5], [9]] && [LAST] + [KEPT] == [LAST, KEPT];
    assert Join(4, t.kids[0], t.kids[1]) == JOINED;
    assert t.seps[..0] + t.seps[1..] == [[9]] && t.kids[..0] + [JOINED] + t.kids[2..] == [JOINED];
  }

  /** The bucket neither settles nor is it doomed. */
  lemma Between()
    ensures !Settles(BASE.counts.Keys, ROOT) && !Doomed(BASE.counts.Keys, ROOT, 2)
    ensures !Full(JOINED)
  {
    assert !Full(LEFT.kids[0]) && !Full(JOINED.kids[0]);
    assert !Full(ROOT.kids[0]);
    InFlatten(ROOT.kids, E);
    InFlatten(RIGHT.kids, E);
    assert E in Flatten(RIGHT.kids[0]);
    assert E in Flatten(ROOT.kids[1]);
    assert !Emptied(ROOT.kids[0]);
  }

  /** The merges the source makes here leave a tree it cannot write; one more would help. */
  lemma OrderMatters()
    ensures Stands(START) && !Settles(BASE.counts.Keys, ROOT) && !Doomed(BASE.counts.Keys, ROOT, 2)
    ensures !Commits(START, [DROP, MOVE]) && Commits(START, [DROP, MOVE, DROP])
  {
    hide Standing, Commits, OneMerged, Takes;
    AfterMove();
    var s := OneMerged(OneMerged(START, DROP), MOVE);
    CommitsNext(START, [DROP, MOVE]);
    CommitsNext(START, [DROP, MOVE, DROP]);
    assert [DROP, MOVE][1..] == [MOVE] && [DROP, MOVE, DROP][1..] == [MOVE, DROP];
    CommitsNext(OneMerged(START, DROP), [MOVE]);
    CommitsNext(OneMerged(START, DROP), [MOVE, DROP]);
    assert [MOVE][1..] == [] && [MOVE, DROP][1..] == [DROP];
    CommitsNow(s);
    Between();
    OneMore(s);
  }

  lemma OneMore(s: Stage)
    requires Stands(s) && s.t == Branch(2, [[9]], [JOINED]) && s.b.counts.Keys == {2, 3, 4, 5, 6} && s.h == 2
    ensures Commits(s, [DROP])
  {
    hide Standing, Commits;
    assert DROP.path[1..] == [];
    assert Applies(JOINED, [], 0) && Removed(JOINED, [], 0) == LAST;
    assert Takes(s, DROP);
    CommitsNext(s, [DROP]);
    assert [DROP][1..] == [];
    CommitsNow(OneMerged(s, DROP));
    assert MergeAt(JOINED, [], 0, 1) == Branch(4, [[9]], [KEPT]);
    var rest := Branch(4, [[9]], [KEPT]);
    assert [JOINED][0 := rest] == [rest];
    assert OneMerged(s, DROP).t == Branch(2, [[9]], [rest]);
    StaysLoaded(s, DROP, 4);
    assert Full(KEPT);
  }
}
