/** When a bucket can be written after merging: whatever is merged, for some merges, never. */
module Outcome {
  import opened Bytes
  import opened BTree
  import opened Overlay
  import opened Traversal
  import opened Rebalance
  import opened Committed
  import opened Spill
  import opened Handover
  import opened Merging
  import F = Freelist

  /** A bucket between merges. */
  datatype Stage = Stage(b: Base, sizes: map<PageId, nat>, ps: set<PageId>, t: Tree, h: nat, others: set<PageId>,
                         held: set<PageId>)

  ghost predicate Stands(s: Stage) {
    Standing(s.b, s.sizes, s.ps, s.t, s.h, s.others, s.held)
  }

  /** The merge is possible and its node is loaded. */
  ghost predicate Takes(s: Stage, m: Merge) {
    Applies(s.t, m.path, m.i) && Removed(s.t, m.path, m.i).page in s.b.counts
  }

  ghost function OneMerged(s: Stage, m: Merge): (s': Stage)
    requires Stands(s) && Takes(s, m)
    ensures Stands(s') && Flatten(s'.t) == Flatten(s.t) && s'.h == s.h && s'.t.page == s.t.page
  {
    MergeStep(s.b, s.sizes, s.ps, s.t, s.h, s.others, s.held, m.path, m.i);
    var gone := Removed(s.t, m.path, m.i).page;
    s.(b := MergedAt(s.b, s.sizes, s.t, m.path, m.i), t := MergeAt(s.t, m.path, m.i, s.h),
       held := s.held - F.Block(gone, s.b.counts[gone]))
  }

  /** Whether the picked merges and the promotion leave a tree that can be written. */
  ghost predicate Commits(s: Stage, picks: seq<Merge>)
    requires Stands(s)
  {
    var (b, t) := Pass(s.b, s.sizes, s.ps, s.t, s.h, s.others, s.held, picks); Writable(b, t)
  }

  function Promoted(t: Tree): Tree {
    if t.Branch? && |t.kids| == 1 then t.kids[0] else t
  }

  lemma CommitsNow(s: Stage)
    requires Stands(s)
    ensures Commits(s, []) <==> Writable(s.b, Promoted(s.t))
  {
  }

  lemma CommitsNext(s: Stage, picks: seq<Merge>)
    requires Stands(s) && picks != []
    ensures Commits(s, picks) <==> Commits(if Takes(s, picks[0]) then OneMerged(s, picks[0]) else s, picks[1..])
  {
    hide Standing, MergedAt, MergeAt, Writable;
  }

  // ---------- what a caller can see before merging ----------

  /** The tree, with an only child in place of its root, is loaded and has no empty leaf, or is
      one empty leaf. */
  predicate Settles(loaded: set<PageId>, t: Tree) {
    var r := Promoted(t); r.page in loaded && (r == Leaf(r.page, []) || Full(r))
  }

  predicate Emptied(t: Tree) {
    t.Leaf? && t.entries == []
  }

  /** All children but one are emptied leaves, and that one was never loaded. */
  ghost predicate Stuck(loaded: set<PageId>, t: Tree) {
    t.Branch? && exists u :: StuckAt(loaded, t, u)
  }

  ghost predicate StuckAt(loaded: set<PageId>, t: Tree, u: nat)
    requires t.Branch?
  {
    u < |t.kids| && t.kids[u].page !in loaded && forall j :: 0 <= j < |t.kids| && j != u ==> Emptied(t.kids[j])
  }

  /** Nothing is left of a tree of three levels or more, or the root is stuck. */
  ghost predicate Doomed(loaded: set<PageId>, t: Tree, h: nat) {
    (h >= 2 && Flatten(t) == []) || Stuck(loaded, t)
  }

  // ---------- whatever is merged ----------

  ghost predicate OnlyLoaded(b: Base, t: Tree) {
    t.Branch? && |t.kids| == 1 ==> t.kids[0].page in b.counts
  }

  lemma StaysLoaded(s: Stage, m: Merge, p: PageId)
    requires Stands(s) && Takes(s, m) && p in s.b.counts
    ensures p in OneMerged(s, m).b.counts
  {
    hide Standing, Load, Pages;
    MergedLoads(s.b, s.sizes, s.t, m.path, m.i);
    var x := SiblingAt(s.t, m.path, m.i);
    if x.page in s.sizes {
      LoadKeeps(s.b, x, s.sizes[x.page], p);
    }
  }

  /** A merge that moves data into the last child left loads it. */
  lemma OnlyStaysLoaded(s: Stage, m: Merge)
    requires Stands(s) && Takes(s, m) && OnlyLoaded(s.b, s.t) && (m.path == [] ==> Len(s.t.kids[m.i]) > 0)
    ensures OnlyLoaded(OneMerged(s, m).b, OneMerged(s, m).t)
  {
    hide Pages, F.Block, BlocksOk, Ready, Load, Staged, Unshared, Blocks, Tracks, Flatten;
    var t' := OneMerged(s, m).t;
    if m.path == [] {
      MergeBalanced(s.t, m.i, s.h);
      if |t'.kids| == 1 {
        MergedKid(s.t, m.i, 0);
        JoinedLoaded(s.b, s.sizes, s.ps, s.t, m.i);
      }
    } else if |t'.kids| == 1 {
      InnerMerge(s, m);
      StaysLoaded(s, m, s.t.kids[0].page);
    }
  }

  /** A merge below a child leaves the root's children in place. */
  lemma InnerMerge(s: Stage, m: Merge)
    requires Stands(s) && Takes(s, m) && m.path != []
    ensures s.t.Branch? && s.h >= 2
    ensures var t' := OneMerged(s, m).t;
            && t'.Branch? && |t'.kids| == |s.t.kids| && forall j :: 0 <= j < |t'.kids| ==>
                                                                    t'.kids[j].page == s.t.kids[j].page
  {
    hide Pages, F.Block, BlocksOk, Ready, Load, Staged, Unshared, Blocks, Tracks, Flatten;
    var k := m.path[0];
    MergeAtPage(s.t.kids[k], m.path[1..], m.i, s.h - 1);
    assert s.t.kids[k].Branch?;
  }

  lemma FullMerge(s: Stage, m: Merge)
    requires Stands(s) && Takes(s, m) && Full(s.t)
    ensures Full(OneMerged(s, m).t) && (m.path == [] ==> Len(s.t.kids[m.i]) > 0)
  {
    hide Pages, F.Block, BlocksOk, Ready, Load, Staged, Unshared, Blocks, Tracks, Flatten;
    MergeKeeps(s.t, m.path, m.i, s.h);
  }

  lemma {:induction false} FullCommits(s: Stage, picks: seq<Merge>)
    requires Stands(s) && Full(s.t) && OnlyLoaded(s.b, s.t)
    ensures Commits(s, picks)
    decreases |picks|
  {
    hide Standing, Commits, Full, OneMerged, Takes;
    if picks == [] {
      CommitsNow(s);
      FullWritable(s);
    } else {
      CommitsNext(s, picks);
      if Takes(s, picks[0]) {
        FullMerge(s, picks[0]);
        OnlyStaysLoaded(s, picks[0]);
        FullCommits(OneMerged(s, picks[0]), picks[1..]);
      } else {
        FullCommits(s, picks[1..]);
      }
    }
  }

  lemma FullWritable(s: Stage)
    requires Stands(s) && Full(s.t) && OnlyLoaded(s.b, s.t)
    ensures Writable(s.b, Promoted(s.t))
  {
  }

  lemma {:induction false} NothingToMerge(s: Stage, picks: seq<Merge>)
    requires Stands(s) && Promoted(s.t).Leaf? && Promoted(s.t).page in s.b.counts
    ensures Commits(s, picks)
    decreases |picks|
  {
    hide Standing, Commits, OneMerged;
    if picks == [] {
      CommitsNow(s);
    } else {
      CommitsNext(s, picks);
      assert !Applies(s.t, picks[0].path, picks[0].i);
      NothingToMerge(s, picks[1..]);
    }
  }

  /** A bucket commits whatever is merged exactly if it settles. */
  lemma AlwaysCommits(s: Stage)
    requires Stands(s)
    ensures (forall picks :: Commits(s, picks)) <==> Settles(s.b.counts.Keys, s.t)
  {
    hide Standing, Commits;
    CommitsNow(s);
    if Settles(s.b.counts.Keys, s.t) {
      forall picks ensures Commits(s, picks) {
        if Promoted(s.t).Leaf? {
          NothingToMerge(s, picks);
        } else {
          PromotedFull(s.t);
          FullCommits(s, picks);
        }
      }
    }
  }

  lemma PromotedFull(t: Tree)
    requires Full(Promoted(t))
    ensures Full(t)
  {
  }

  // ---------- never ----------

  /** Merging and promoting keep the leaves, and the depth but for one level. */
  lemma {:induction false} PassKeeps(s: Stage, picks: seq<Merge>)
    requires Stands(s)
    ensures var (b, t) := Pass(s.b, s.sizes, s.ps, s.t, s.h, s.others, s.held, picks);
            Flatten(t) == Flatten(s.t) && (Balanced(t, s.h) || (s.h > 0 && Balanced(t, s.h - 1)))
    decreases |picks|
  {
    hide Standing, Flatten, MergedAt, MergeAt, OneMerged, Takes;
    StandingShape(s.b, s.sizes, s.ps, s.t, s.h, s.others, s.held);
    if picks == [] {
      if s.t.Branch? && |s.t.kids| == 1 {
        PromoteStep(s.b, s.sizes, s.ps, s.t, s.h, s.others, s.held);
      }
    } else {
      PassNext(s, picks);
      PassKeeps(if Takes(s, picks[0]) then OneMerged(s, picks[0]) else s, picks[1..]);
    }
  }

  lemma PassNext(s: Stage, picks: seq<Merge>)
    requires Stands(s) && picks != []
    ensures var s' := if Takes(s, picks[0]) then OneMerged(s, picks[0]) else s;
            Pass(s.b, s.sizes, s.ps, s.t, s.h, s.others, s.held, picks) ==
            Pass(s'.b, s'.sizes, s'.ps, s'.t, s'.h, s'.others, s'.held, picks[1..]) && s'.h == s.h
  {
    hide Standing, MergedAt, MergeAt;
  }

  lemma NothingLeft(s: Stage, picks: seq<Merge>)
    requires Stands(s) && s.h >= 2 && Flatten(s.t) == []
    ensures !Commits(s, picks)
  {
    hide Standing, Pass, Flatten;
    PassKeeps(s, picks);
    var (b, t) := Pass(s.b, s.sizes, s.ps, s.t, s.h, s.others, s.held, picks);
    if Full(t) {
      FullNonempty(t);
    }
  }

  /** A stuck root stays stuck: what can be merged is emptied, and loads nothing. */
  lemma StuckMerge(s: Stage, m: Merge, u: nat)
    requires Stands(s) && Takes(s, m) && s.t.Branch? && StuckAt(s.b.counts.Keys, s.t, u)
    ensures Stuck(OneMerged(s, m).b.counts.Keys, OneMerged(s, m).t)
  {
    hide Pages, F.Block, BlocksOk, Ready, Load, Staged, Unshared, Blocks, Flatten;
    if m.path == [] {
      assert m.i != u && Emptied(s.t.kids[m.i]);
      MergeBalanced(s.t, m.i, s.h);
      var t', u' := OneMerged(s, m).t, if u < m.i then u else u - 1;
      MergedKid(s.t, m.i, u');
      forall j | 0 <= j < |t'.kids| && j != u' ensures Emptied(t'.kids[j]) {
        MergedKid(s.t, m.i, j);
      }
      assert StuckAt(OneMerged(s, m).b.counts.Keys, t', u');
    } else {
      StuckBelow(s, m, u);
    }
  }

  lemma StuckBelow(s: Stage, m: Merge, u: nat)
    requires Stands(s) && s.t.Branch? && StuckAt(s.b.counts.Keys, s.t, u)
    ensures m.path != [] ==> !Takes(s, m)
  {
    hide Pages, F.Block, BlocksOk, Ready, Load, Staged, Unshared, Blocks, Flatten;
    if m.path != [] && Takes(s, m) {
      var k := m.path[0];
      MergedLoads(s.b, s.sizes, s.t.kids[k], m.path[1..], m.i);
      LoadedAbove(s.b, s.sizes, s.ps, s.t, k, Removed(s.t, m.path, m.i).page);
    }
  }

  lemma StuckUnwritable(b: Base, t: Tree)
    requires Stuck(b.counts.Keys, t)
    ensures !Writable(b, Promoted(t))
  {
    var u :| StuckAt(b.counts.Keys, t, u);
    if |t.kids| > 1 {
      var j := if u == 0 then 1 else 0;
      assert Emptied(t.kids[j]);
      assert !Full(t.kids[j]);
    }
  }

  lemma {:induction false} StuckStays(s: Stage, picks: seq<Merge>)
    requires Stands(s) && Stuck(s.b.counts.Keys, s.t)
    ensures !Commits(s, picks)
    decreases |picks|
  {
    hide Standing, Commits, OneMerged, Takes, StuckAt, Writable;
    if picks == [] {
      CommitsNow(s);
      StuckUnwritable(s.b, s.t);
    } else {
      CommitsNext(s, picks);
      if Takes(s, picks[0]) {
        var u :| StuckAt(s.b.counts.Keys, s.t, u);
        StuckMerge(s, picks[0], u);
        StuckStays(OneMerged(s, picks[0]), picks[1..]);
      } else {
        StuckStays(s, picks[1..]);
      }
    }
  }

  // ---------- for some merges ----------

  /** A node without entries, in a tree that has some, can be merged away. */
  lemma {:induction false} FindEmpty(t: Tree) returns (m: Merge)
    requires Staged(t) && Flatten(t) != [] && !Full(t)
    ensures Applies(t, m.path, m.i) && Flatten(Removed(t, m.path, m.i)) == []
    decreases t
  {
    hide Flatten, KeySet, Rank;
    if t.Leaf? {
      LeafFlat(t);
    }
    FlattenBranch(t);
    if i :| 0 <= i < |t.kids| && Flatten(t.kids[i]) == [] {
      if |t.kids| == 1 {
        OnlyKid(t);
      }
      m := Merge([], i);
    } else {
      var i :| 0 <= i < |t.kids| && !Full(t.kids[i]);
      var inner := FindEmpty(t.kids[i]);
      m := Merge([i] + inner.path, inner.i);
      assert m.path[1..] == inner.path;
    }
  }

  lemma OnlyKid(t: Tree)
    requires t.Branch? && |t.kids| == 1
    ensures Flatten(t) == Flatten(t.kids[0])
  {
    hide Flatten;
    FlattenBranch(t);
    assert t.kids == [t.kids[0]];
    FlattenOne(t.kids[0]);
  }

  lemma LeafFlat(t: Tree)
    requires t.Leaf?
    ensures Flatten(t) == t.entries
  {
  }

  lemma {:induction false} FullRemoved(t: Tree, path: seq<nat>, i: nat)
    requires Full(t) && Applies(t, path, i)
    ensures Flatten(Removed(t, path, i)) != []
    decreases t
  {
    if path == [] {
      FullNonempty(t.kids[i]);
    } else {
      FullRemoved(t.kids[path[0]], path[1..], i);
    }
  }

  /** Nodes never loaded have entries. */
  lemma {:induction false} EntrylessLoaded(b: Base, t: Tree, path: seq<nat>, i: nat)
    requires Ready(b, t) && Applies(t, path, i) && Flatten(Removed(t, path, i)) == []
    ensures Removed(t, path, i).page in b.counts
    decreases t
  {
    hide Flatten, NodeKey, Keyed, Pages, Rep;
    var k := if path == [] then i else path[0];
    if t.kids[k].page !in b.counts {
      TightFull(t.kids[k]);
      if path == [] {
        FullNonempty(t.kids[k]);
      } else {
        FullRemoved(t.kids[k], path[1..], i);
      }
    } else if path != [] {
      EntrylessLoaded(b, t.kids[k], path[1..], i);
    }
  }

  /** Merging away a node without entries does not get the root stuck. */
  lemma FreeMerge(s: Stage, m: Merge)
    requires Stands(s) && Takes(s, m) && !Stuck(s.b.counts.Keys, s.t) && Flatten(Removed(s.t, m.path, m.i)) == []
    ensures !Stuck(OneMerged(s, m).b.counts.Keys, OneMerged(s, m).t)
  {
    hide Pages, F.Block, BlocksOk, Ready, Load, Unshared, Blocks, Flatten, KeySet, OneMerged, Stuck, StuckAt;
    var s' := OneMerged(s, m);
    if Stuck(s'.b.counts.Keys, s'.t) {
      var u := StuckWhere(s'.b.counts.Keys, s'.t);
      if m.path == [] && s.t.kids[m.i].Leaf? {
        LeafFlat(s.t.kids[m.i]);
        DroppedLeaf(s, m, u);
      } else {
        BranchMerge(s, m, u);
      }
    }
  }

  lemma StuckWhere(loaded: set<PageId>, t: Tree) returns (u: nat)
    requires Stuck(loaded, t)
    ensures t.Branch? && StuckAt(loaded, t, u)
  {
    u :| StuckAt(loaded, t, u);
  }

  lemma DroppedLeaf(s: Stage, m: Merge, u: nat)
    requires Stands(s) && Takes(s, m) && m.path == [] && Emptied(s.t.kids[m.i])
    requires OneMerged(s, m).t.Branch? && StuckAt(OneMerged(s, m).b.counts.Keys, OneMerged(s, m).t, u)
    ensures Stuck(s.b.counts.Keys, s.t)
  {
    hide Pages, F.Block, BlocksOk, Ready, Load, Staged, Unshared, Blocks, Flatten;
    MergeBalanced(s.t, m.i, s.h);
    var t' := OneMerged(s, m).t;
    var v := if u < m.i then u else u + 1;
    MergedKid(s.t, m.i, u);
    forall j | 0 <= j < |s.t.kids| && j != v ensures Emptied(s.t.kids[j]) {
      if j != m.i {
        var k := if j < m.i then j else j - 1;
        MergedKid(s.t, m.i, k);
        assert Emptied(t'.kids[k]);
      }
    }
    assert StuckAt(s.b.counts.Keys, s.t, v);
  }

  lemma BranchMerge(s: Stage, m: Merge, u: nat)
    requires Stands(s) && Takes(s, m) && (m.path == [] ==> s.t.kids[m.i].Branch?)
    requires OneMerged(s, m).t.Branch? && StuckAt(OneMerged(s, m).b.counts.Keys, OneMerged(s, m).t, u)
    ensures Stuck(s.b.counts.Keys, s.t)
  {
    hide Pages, F.Block, BlocksOk, Ready, Load, Unshared, Blocks, Flatten, KeySet, Tracks;
    var t' := OneMerged(s, m).t;
    AfterShape(s, m);
    assert !Emptied(t'.kids[0]) && (|t'.kids| > 1 ==> !Emptied(t'.kids[1]));
    assert |t'.kids| == 1;
    if OnlyLoaded(s.b, s.t) {
      OnlyStaysLoaded(s, m);
    } else {
      assert StuckAt(s.b.counts.Keys, s.t, 0);
    }
  }

  /** At a height of two or more the root's children are branch nodes. */
  lemma AfterShape(s: Stage, m: Merge)
    requires Stands(s) && Takes(s, m) && (m.path == [] ==> s.t.kids[m.i].Branch?)
    ensures var t' := OneMerged(s, m).t;
            && s.t.Branch? && t'.Branch? && (forall j :: 0 <= j < |t'.kids| ==> t'.kids[j].Branch?)
            && (m.path == [] ==> Len(s.t.kids[m.i]) > 0)
  {
    hide Pages, F.Block, BlocksOk, Ready, Load, Unshared, Blocks, Flatten, KeySet, Tracks;
    if m.path != [] {
      InnerMerge(s, m);
    } else {
      assert Balanced(s.t.kids[m.i], s.h - 1) && Staged(s.t.kids[m.i]);
    }
    StandingShape(OneMerged(s, m).b, s.sizes, s.ps, OneMerged(s, m).t, s.h, s.others, OneMerged(s, m).held);
    assert s.h >= 2;
  }

  lemma {:induction false} Fills(s: Stage) returns (picks: seq<Merge>)
    requires Stands(s) && Flatten(s.t) != [] && !Stuck(s.b.counts.Keys, s.t)
    ensures Commits(s, picks)
    decreases |Pages(s.t)|
  {
    hide Flatten, Pages, OneMerged, Commits, Stuck, Takes, Full, Staged, Unshared, Ready, BlocksOk, Tracks, Blocks,
         Balanced;
    if Full(s.t) {
      NotStuck(s.b, s.t);
      picks := [];
      FullCommits(s, []);
    } else {
      var m := FindEmpty(s.t);
      EntrylessLoaded(s.b, s.t, m.path, m.i);
      TakesIt(s, m);
      FreeMerge(s, m);
      FewerPages(s, m);
      var rest := Fills(OneMerged(s, m));
      picks := [m] + rest;
      assert picks[1..] == rest;
      CommitsNext(s, picks);
    }
  }

  lemma TakesIt(s: Stage, m: Merge)
    requires Applies(s.t, m.path, m.i) && Removed(s.t, m.path, m.i).page in s.b.counts
    ensures Takes(s, m)
  {
  }

  lemma NotStuck(b: Base, t: Tree)
    requires !Stuck(b.counts.Keys, t)
    ensures OnlyLoaded(b, t)
  {
    if t.Branch? && |t.kids| == 1 && t.kids[0].page !in b.counts {
      assert StuckAt(b.counts.Keys, t, 0);
    }
  }

  lemma FewerPages(s: Stage, m: Merge)
    requires Stands(s) && Takes(s, m)
    ensures |Pages(OneMerged(s, m).t)| < |Pages(s.t)|
  {
    hide Pages, Flatten, Staged, Unshared, Ready, BlocksOk, Tracks, Blocks, Full, Removed, MergeAt;
    MergeKeeps(s.t, m.path, m.i, s.h);
    var gone := Removed(s.t, m.path, m.i).page;
    assert Pages(s.t) == Pages(OneMerged(s, m).t) + {gone};
  }

  lemma {:induction false} Drops(s: Stage) returns (picks: seq<Merge>)
    requires Stands(s) && s.h == 1 && Flatten(s.t) == []
    ensures Commits(s, picks)
    decreases |s.t.kids|
  {
    hide Flatten, Pages, OneMerged, Commits, Takes, Staged, Unshared, BlocksOk, Tracks, Blocks;
    EmptyKids(s);
    if |s.t.kids| == 1 {
      picks := [];
      NothingToMerge(s, []);
    } else {
      var m := Merge([], 0);
      EntrylessLoaded(s.b, s.t, [], 0);
      TakesIt(s, m);
      ShorterRoot(s);
      var rest := Drops(OneMerged(s, m));
      picks := [m] + rest;
      assert picks[1..] == rest;
      CommitsNext(s, picks);
    }
  }

  lemma EmptyKids(s: Stage)
    requires Stands(s) && s.h == 1 && Flatten(s.t) == []
    ensures s.t.Branch? && |s.t.kids| == |s.t.seps| > 0
    ensures forall i :: 0 <= i < |s.t.kids| ==>
              s.t.kids[i].Leaf? && Flatten(s.t.kids[i]) == [] && s.t.kids[i].page in s.b.counts
  {
    hide Flatten, Pages, Unshared, BlocksOk, Tracks, Blocks, KeySet, Rank;
    FlattenBranch(s.t);
    assert Staged(s.t);
    forall i | 0 <= i < |s.t.kids|
      ensures s.t.kids[i].Leaf? && Flatten(s.t.kids[i]) == [] && s.t.kids[i].page in s.b.counts
    {
      assert Balanced(s.t.kids[i], 0);
      FlattenSplit(s.t.kids, i);
      KidLoaded(s.b, s.t, i);
    }
  }

  lemma KidLoaded(b: Base, t: Tree, i: nat)
    requires Ready(b, t) && t.Branch? && i < |t.kids| && Flatten(t.kids[i]) == []
    ensures t.kids[i].page in b.counts
  {
    hide Flatten, NodeKey, Keyed, Pages, Rep;
    if t.kids[i].page !in b.counts {
      TightFull(t.kids[i]);
      FullNonempty(t.kids[i]);
    }
  }

  lemma ShorterRoot(s: Stage)
    requires Stands(s) && s.h == 1 && Takes(s, Merge([], 0))
    ensures s.t.Branch? && OneMerged(s, Merge([], 0)).t.Branch?
    ensures |OneMerged(s, Merge([], 0)).t.kids| < |s.t.kids|
  {
    hide Flatten, Pages, Staged, Unshared, Ready, BlocksOk, Tracks, Blocks;
    MergeBalanced(s.t, 0, s.h);
  }

  /** A bucket commits for some merges exactly if it is not doomed. */
  lemma SometimesCommits(s: Stage)
    requires Stands(s)
    ensures (exists picks :: Commits(s, picks)) <==> !Doomed(s.b.counts.Keys, s.t, s.h)
  {
    hide Commits, Stuck, Flatten, Pages, Staged, Unshared, Ready, BlocksOk, Tracks, Blocks;
    if Doomed(s.b.counts.Keys, s.t, s.h) {
      forall picks ensures !Commits(s, picks) {
        if Stuck(s.b.counts.Keys, s.t) {
          StuckStays(s, picks);
        } else {
          NothingLeft(s, picks);
        }
      }
    } else if Flatten(s.t) != [] {
      var picks := Fills(s);
    } else if s.h == 1 {
      var picks := Drops(s);
    } else {
      RootLoaded(s);
      NothingToMerge(s, []);
    }
  }

  /** What the tree says of given merges. */
  lemma Foretold(s: Stage, picks: seq<Merge>)
    requires Stands(s)
    ensures Settles(s.b.counts.Keys, s.t) ==> Commits(s, picks)
    ensures Doomed(s.b.counts.Keys, s.t, s.h) ==> !Commits(s, picks)
  {
    hide Standing, Commits, Settles, Doomed;
    AlwaysCommits(s);
    SometimesCommits(s);
  }

  lemma RootLoaded(s: Stage)
    requires Stands(s) && s.h == 0
    ensures s.t.Leaf? && s.t.page in s.b.counts
  {
  }
}
