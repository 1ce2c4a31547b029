/** From edits to a commit: a bucket edited by any run of puts and deletes, then merged by
    any run of rebalancing steps, is in the state the writing pass relies on. */
module Handover {
  import opened Wrappers
  import opened Bytes
  import opened BTree
  import opened Overlay
  import opened Traversal
  import opened Rebalance
  import opened Committed
  import opened Spill
  import F = Freelist

  // ---------- committed pages ----------

  /** A committed branch page records each child page's first key. */
  ghost predicate TightPage(store: map<PageId, PageData>, p: PageId) {
    p in store && store[p].Branches? ==>
      var seps, pages := store[p].seps, store[p].pages;
      |seps| == |pages| && forall i :: 0 <= i < |pages| ==> pages[i] in store
                                                            && FirstKeyOf(store[pages[i]]) == Some(seps[i])
  }

  ghost predicate TightPages(store: map<PageId, PageData>, ps: set<PageId>) {
    forall p :: p in ps ==> TightPage(store, p)
  }

  lemma {:induction false} CommittedTight(store: map<PageId, PageData>, t: Tree)
    requires Rep(store, t) && TightPages(store, Pages(t)) && FirstKeyOf(store[t.page]).Some?
    ensures Tight(t) && Keyed(t) && NodeKey(t) == FirstKeyOf(store[t.page]).value
    decreases t
  {
    hide Pages;
    PagesOfNode(t);
    assert TightPage(store, t.page);
    if t.Branch? {
      assert |t.seps| == |t.kids|;
      forall i | 0 <= i < |t.kids| ensures Tight(t.kids[i]) && Keyed(t.kids[i]) && t.seps[i] == NodeKey(t.kids[i]) {
        KidPages(t, i);
        RepHasPage(store, t.kids[i]);
        assert FirstKeyOf(store[RootPages(t.kids)[i]]) == Some(t.seps[i]);
        CommittedTight(store, t.kids[i]);
      }
    }
  }

  /** A finished tree leaves such pages behind. */
  lemma {:induction false} TightCommits(view: map<PageId, PageData>, t: Tree, p: PageId)
    requires Rep(view, t) && Tight(t) && p in Pages(t)
    ensures TightPage(view, p)
    decreases t
  {
    hide Pages;
    PagesOfNode(t);
    if t.Branch? {
      if p == t.page {
        forall i | 0 <= i < |t.kids| ensures t.kids[i].page in view
            && FirstKeyOf(view[t.kids[i].page]) == Some(t.seps[i]) {
          RepFirstKey(view, t.kids[i]);
        }
      } else {
        InPagesAll(t.kids, p);
        var i :| 0 <= i < |t.kids| && p in Pages(t.kids[i]);
        TightCommits(view, t.kids[i], p);
      }
    }
  }

  lemma RepFirstKey(view: map<PageId, PageData>, t: Tree)
    requires Rep(view, t) && Tight(t)
    ensures t.page in view && Keyed(t) && FirstKeyOf(view[t.page]) == Some(NodeKey(t))
  {
  }

  // ---------- page blocks ----------

  /** How many pages each node of a tree was read from: disjoint blocks, a loaded node's
      recorded with it, any other's among the pages kept. */
  ghost predicate Tracks(b: Base, sizes: map<PageId, nat>, ps: set<PageId>) {
    && 0 !in b.keep && (forall p :: p in ps ==> p in sizes)
    && (forall p, q :: p in ps && q in ps && p != q ==> F.Block(p, sizes[p]) !! F.Block(q, sizes[q]))
    && (forall p :: p in ps && p in b.counts ==> b.counts[p] == sizes[p])
    && (forall p :: p in ps && p !in b.counts ==> p > 1 && sizes[p] > 0 && F.Block(p, sizes[p]) <= b.keep)
  }

  /** Loading a node that was not loaded: it is remembered under its first key. */
  function Load(b: Base, t: Tree, n: nat): Base {
    if t.page in b.counts || !Keyed(t) then b
    else b.(counts := b.counts[t.page := n], orig := b.orig[t.page := NodeKey(t)], keep := b.keep - F.Block(t.page, n))
  }

  lemma LoadTracks(b: Base, sizes: map<PageId, nat>, ps: set<PageId>, t: Tree)
    requires BlocksOk(b) && Tracks(b, sizes, ps) && t.page in ps && (t.page in b.counts || Keyed(t))
    ensures var b' := Load(b, t, sizes[t.page]); BlocksOk(b') && Tracks(b', sizes, ps) && t.page in b'.counts
  {
    hide F.Block, Keyed;
    var n := sizes[t.page];
    var b' := Load(b, t, n);
    if t.page !in b.counts {
      forall p | p in b.counts ensures F.Block(p, b.counts[p]) !! F.Block(t.page, n) {
      }
    }
  }

  /** A subtree under kept pages has no loaded node. */
  lemma KeptUnloaded(b: Base, p: PageId)
    requires BlocksOk(b) && p in b.keep && p != 0
    ensures p !in b.counts
  {
    assert p in b.counts ==> p in F.Block(p, b.counts[p]);
  }

  lemma {:induction false} LoadReady(b: Base, sizes: map<PageId, nat>, ps: set<PageId>, s: Tree, t: Tree)
    requires BlocksOk(b) && Tracks(b, sizes, ps) && s.page in ps && Pages(t) <= ps && s.page !in Pages(t)
    requires Ready(b, t)
    ensures Ready(Load(b, s, sizes[s.page]), t)
    decreases t
  {
    hide Pages, BlocksOk, F.Block, Keyed, NodeKey;
    PagesOfNode(t);
    var b' := Load(b, s, sizes[s.page]);
    if t.Branch? {
      forall i | 0 <= i < |t.kids|
        ensures t.kids[i].page in b.counts ==> Ready(b', t.kids[i])
        ensures t.kids[i].page !in b.counts ==> Settled(b', t.seps[i], t.kids[i])
        ensures t.kids[i].page != s.page
      {
        KidPages(t, i);
        PagesOfNode(t.kids[i]);
        if t.kids[i].page in b.counts {
          LoadReady(b, sizes, ps, s, t.kids[i]);
        } else {
          LoadSettled(b, sizes, ps, s, t.seps[i], t.kids[i]);
        }
      }
    }
  }

  lemma LoadSettled(b: Base, sizes: map<PageId, nat>, ps: set<PageId>, s: Tree, sep: Key, t: Tree)
    requires BlocksOk(b) && Tracks(b, sizes, ps) && s.page in ps && Pages(t) <= ps && s.page !in Pages(t)
    requires t.page !in b.counts && Settled(b, sep, t)
    ensures Settled(Load(b, s, sizes[s.page]), sep, t)
  {
    hide Pages, F.Block, Keyed, NodeKey, Tight, Rep;
    forall q | q in Pages(t) ensures q in Load(b, s, sizes[s.page]).keep {
      TrackedPage(b, sizes, ps, s.page, q);
    }
  }

  lemma TrackedPage(b: Base, sizes: map<PageId, nat>, ps: set<PageId>, p: PageId, q: PageId)
    requires BlocksOk(b) && Tracks(b, sizes, ps) && p in ps && q in ps && p != q && q in b.keep
    ensures q !in F.Block(p, sizes[p])
  {
    KeptUnloaded(b, q);
    assert F.Block(p, sizes[p]) !! F.Block(q, sizes[q]);
    assert q in F.Block(q, sizes[q]);
  }

  // ---------- merges ----------

  /** The sibling a merge of child i moves data to. */
  function Sibling(p: Tree, i: nat): Tree
    requires MayMerge(p, i)
  {
    if i == 0 then p.kids[1] else p.kids[i - 1]
  }

  /** What is loaded once child i of p is merged away. */
  function Merged(b: Base, sizes: map<PageId, nat>, p: Tree, i: nat): Base
    requires MayMerge(p, i)
  {
    var s := Sibling(p, i);
    if Len(p.kids[i]) == 0 || s.page !in sizes then b else Load(b, s, sizes[s.page])
  }

  /** The two ways a child is fit for writing. */
  ghost predicate Fit(b: Base, sep: Key, t: Tree) {
    if t.page in b.counts then t.page in b.orig && b.orig[t.page] == sep && Ready(b, t) else Settled(b, sep, t)
  }

  lemma ReadyFit(b: Base, t: Tree)
    requires t.Branch?
    ensures Ready(b, t) <==>
            t.page in b.counts && |t.seps| == |t.kids| && forall i :: 0 <= i < |t.kids| ==> Fit(b, t.seps[i], t.kids[i])
  {
  }

  lemma LoadFit(b: Base, sizes: map<PageId, nat>, ps: set<PageId>, s: Tree, sep: Key, t: Tree)
    requires BlocksOk(b) && Tracks(b, sizes, ps) && s.page in ps && Pages(t) <= ps && s.page !in Pages(t)
    requires Fit(b, sep, t)
    ensures Fit(Load(b, s, sizes[s.page]), sep, t)
  {
    hide Pages, BlocksOk, F.Block, Keyed, NodeKey, Ready, Settled;
    PagesOfNode(t);
    if t.page in b.counts {
      LoadReady(b, sizes, ps, s, t);
    } else {
      LoadSettled(b, sizes, ps, s, sep, t);
    }
  }

  lemma FitKeyed(b: Base, sep: Key, t: Tree)
    requires Fit(b, sep, t) && t.page !in b.counts
    ensures Keyed(t) && NodeKey(t) == sep
  {
  }

  /** The children of a sibling just loaded are fit: they were never loaded themselves. */
  lemma SettledKids(b: Base, sizes: map<PageId, nat>, ps: set<PageId>, sep: Key, s: Tree, i: nat)
    requires BlocksOk(b) && Tracks(b, sizes, ps) && Pages(s) <= ps && Unshared(s)
    requires s.page !in b.counts && Settled(b, sep, s) && s.Branch? && i < |s.kids|
    ensures |s.seps| == |s.kids| && Fit(Load(b, s, sizes[s.page]), s.seps[i], s.kids[i])
  {
    hide Pages, F.Block, NodeKey;
    var kid := s.kids[i];
    PagesOfNode(s);
    var b' := Load(b, s, sizes[s.page]);
    KidPages(s, i);
    PagesOfNode(kid);
    OwnPage(s);
    forall q | q in Pages(kid) ensures q in b'.keep {
      TrackedPage(b, sizes, ps, s.page, q);
    }
    KeptUnloaded(b, kid.page);
  }

  /** Where an element of a joined node comes from. */
  lemma JoinedKids(page: PageId, a: Tree, b: Tree, k: nat)
    requires a.Branch? && b.Branch? && |a.seps| == |a.kids| && |b.seps| == |b.kids| && k < |a.kids| + |b.kids|
    ensures var j := Join(page, a, b);
            && j.page == page && |j.kids| == |j.seps| == |a.kids| + |b.kids|
            && j.seps[k] == (if k < |a.kids| then a.seps[k] else b.seps[k - |a.kids|])
            && j.kids[k] == (if k < |a.kids| then a.kids[k] else b.kids[k - |a.kids|])
  {
  }

  /** Every element of the moved node and of its sibling is still fit. */
  lemma JoinReady(b: Base, sizes: map<PageId, nat>, ps: set<PageId>, sep: Key, s: Tree, x: Tree, left: bool)
    requires BlocksOk(b) && Tracks(b, sizes, ps) && Pages(s) <= ps && Pages(x) <= ps && Pages(s) !! Pages(x)
    requires Unshared(s) && Unshared(x) && (s.Leaf? <==> x.Leaf?)
    requires Ready(b, x) && Fit(b, sep, s)
    ensures s.page in ps && Ready(Load(b, s, sizes[s.page]), if left then Join(s.page, s, x) else Join(s.page, x, s))
  {
    hide Pages, F.Block, NodeKey, BlocksOk, Settled;
    PagesOfNode(s);
    if s.page !in b.counts {
      FitKeyed(b, sep, s);
    }
    LoadTracks(b, sizes, ps, s);
    var b' := Load(b, s, sizes[s.page]);
    if s.Branch? {
      ReadyFit(b, x);
      var j := if left then Join(s.page, s, x) else Join(s.page, x, s);
      assert |s.seps| == |s.kids| by {
        FitShape(b, sep, s);
      }
      forall k | 0 <= k < |j.kids| ensures |j.seps| == |j.kids| && Fit(b', j.seps[k], j.kids[k]) {
        if left {
          JoinedKids(s.page, s, x, k);
        } else {
          JoinedKids(s.page, x, s, k);
        }
        var n := if left then |s.kids| else |x.kids|;
        if left == (k < n) {
          SiblingKid(b, sizes, ps, sep, s, if k < n then k else k - n);
        } else {
          var m := if k < n then k else k - n;
          KidPages(x, m);
          PagesOfNode(x);
          LoadFit(b, sizes, ps, s, x.seps[m], x.kids[m]);
        }
      }
      ReadyFit(b', j);
    }
  }

  lemma FitShape(b: Base, sep: Key, t: Tree)
    requires Fit(b, sep, t) && t.Branch?
    ensures |t.seps| == |t.kids| && (t.page !in b.counts ==> Settled(b, sep, t))
    ensures t.page in b.counts ==> Ready(b, t)
  {
  }

  lemma SiblingKid(b: Base, sizes: map<PageId, nat>, ps: set<PageId>, sep: Key, s: Tree, i: nat)
    requires BlocksOk(b) && Tracks(b, sizes, ps) && s.page in ps && Pages(s) <= ps && Unshared(s)
    requires Fit(b, sep, s) && s.Branch? && i < |s.kids| == |s.seps|
    ensures Fit(Load(b, s, sizes[s.page]), s.seps[i], s.kids[i])
  {
    hide Pages, F.Block, NodeKey, BlocksOk, Ready, Settled;
    FitShape(b, sep, s);
    if s.page !in b.counts {
      SettledKids(b, sizes, ps, sep, s, i);
    } else {
      ReadyFit(b, s);
    }
  }

  /** One merge under a node: what is left is fit for writing, with the sibling loaded. */
  lemma MergeReady(b: Base, sizes: map<PageId, nat>, ps: set<PageId>, p: Tree, i: nat, h: nat)
    requires BlocksOk(b) && Tracks(b, sizes, ps) && Pages(p) <= ps && Unshared(p) && Balanced(p, h)
    requires MayMerge(p, i) && Ready(b, p) && p.kids[i].page in b.counts
    ensures p.kids[Left(i)].Leaf? <==> p.kids[Left(i) + 1].Leaf?
    ensures Ready(Merged(b, sizes, p, i), MergeChild(p, i))
  {
    hide Pages, F.Block, NodeKey, BlocksOk, Ready, Unshared, Tracks;
    MergeBalanced(p, i, h);
    ReadyFit(b, p);
    var m, b' := MergeChild(p, i), Merged(b, sizes, p, i);
    forall k | 0 <= k < |m.kids| ensures |m.seps| == |m.kids| && Fit(b', m.seps[k], m.kids[k]) {
      MergedKid(p, i, k);
      if Len(p.kids[i]) == 0 {
        assert Fit(b, m.seps[k], m.kids[k]);
      } else if k == Left(i) {
        JoinedFit(b, sizes, ps, p, i);
      } else {
        OtherFit(b, sizes, ps, p, i, if k < Left(i) then k else k + 1);
      }
    }
    ReadyFit(b', m);
  }

  lemma JoinedFit(b: Base, sizes: map<PageId, nat>, ps: set<PageId>, p: Tree, i: nat)
    requires BlocksOk(b) && Tracks(b, sizes, ps) && Pages(p) <= ps && Unshared(p)
    requires MayMerge(p, i) && Ready(b, p) && p.kids[i].page in b.counts && Len(p.kids[i]) > 0
    requires p.kids[Left(i)].Leaf? <==> p.kids[Left(i) + 1].Leaf?
    ensures var l := Left(i);
            Fit(Merged(b, sizes, p, i), p.seps[if i == 0 then 1 else l],
                Join(Sibling(p, i).page, p.kids[l], p.kids[l + 1]))
  {
    hide Pages, F.Block, BlocksOk, Ready;
    var n := if i == 0 then 1 else i - 1;
    var s := p.kids[n];
    ReadyFit(b, p);
    assert Fit(b, p.seps[n], s) && Fit(b, p.seps[i], p.kids[i]);
    PagesOfNode(p);
    KidPages(p, n);
    KidPages(p, i);
    DisjointPages(p, i, n);
    PagesOfNode(s);
    JoinReady(b, sizes, ps, p.seps[n], s, p.kids[i], i != 0);
    if s.page !in b.counts {
      FitKeyed(b, p.seps[n], s);
    }
    LoadTracks(b, sizes, ps, s);
  }

  lemma OtherFit(b: Base, sizes: map<PageId, nat>, ps: set<PageId>, p: Tree, i: nat, k: nat)
    requires BlocksOk(b) && Tracks(b, sizes, ps) && Pages(p) <= ps && Unshared(p)
    requires MayMerge(p, i) && Ready(b, p) && k < |p.kids| && k != i && k != (if i == 0 then 1 else i - 1)
    ensures Fit(Merged(b, sizes, p, i), p.seps[k], p.kids[k])
  {
    hide Pages, F.Block, BlocksOk, Ready;
    var n := if i == 0 then 1 else i - 1;
    ReadyFit(b, p);
    assert Fit(b, p.seps[k], p.kids[k]);
    PagesOfNode(p);
    KidPages(p, n);
    KidPages(p, k);
    DisjointPages(p, k, n);
    PagesOfNode(p.kids[n]);
    LoadFit(b, sizes, ps, p.kids[n], p.seps[k], p.kids[k]);
  }

  /** A merge finds the child's element by its original key. */
  lemma ChildFound(b: Base, p: Tree, i: nat)
    requires Ready(b, p) && Staged(p) && p.Branch? && i < |p.kids| && p.kids[i].page in b.counts
    ensures p.kids[i].page in b.orig && Hit(p.seps, b.orig[p.kids[i].page])
            && Lower(p.seps, b.orig[p.kids[i].page]) == i
  {
    hide Rank, KeySet;
    LowerAt(p.seps, p.seps[i], i);
  }

  /** Children sorted by their first keys are in the order of their elements, stale
      separators or not. */
  lemma KidsByFirstKey(t: Tree, i: nat, j: nat)
    requires Staged(t) && Full(t) && t.Branch? && i < j < |t.kids|
    ensures Keyed(t.kids[i]) && Keyed(t.kids[j]) && Less(NodeKey(t.kids[i]), NodeKey(t.kids[j]))
  {
    hide Rank;
    FirstInKeys(t.kids[i]);
    FirstInKeys(t.kids[j]);
    assert Precedes(KeySet(t.kids[i]), KeySet(t.kids[j]));
  }

  lemma FirstInKeys(t: Tree)
    requires Staged(t) && Full(t)
    ensures Keyed(t) && NodeKey(t) in KeySet(t)
  {
    if t.Leaf? {
      assert t.entries[0] in t.entries;
    }
  }

  // ---------- merges anywhere in the tree ----------

  function MergedAt(b: Base, sizes: map<PageId, nat>, t: Tree, path: seq<nat>, i: nat): Base
    requires Applies(t, path, i)
  {
    if path == [] then Merged(b, sizes, t, i) else MergedAt(b, sizes, t.kids[path[0]], path[1..], i)
  }

  function SiblingAt(t: Tree, path: seq<nat>, i: nat): Tree
    requires Applies(t, path, i)
  {
    if path == [] then Sibling(t, i) else SiblingAt(t.kids[path[0]], path[1..], i)
  }

  /** A merge changes what is loaded by its sibling at most. */
  lemma {:induction false} MergedLoads(b: Base, sizes: map<PageId, nat>, t: Tree, path: seq<nat>, i: nat)
    requires Applies(t, path, i)
    ensures var s := SiblingAt(t, path, i);
            && s.page in Pages(t) && Removed(t, path, i).page in Pages(t)
            && (MergedAt(b, sizes, t, path, i) == b
                || (s.page in sizes && MergedAt(b, sizes, t, path, i) == Load(b, s, sizes[s.page])))
    decreases t
  {
    hide Pages, Load;
    PagesOfNode(t);
    if path == [] {
      KidPages(t, if i == 0 then 1 else i - 1);
      KidPages(t, i);
      PagesOfNode(Sibling(t, i));
      PagesOfNode(t.kids[i]);
    } else {
      KidPages(t, path[0]);
      MergedLoads(b, sizes, t.kids[path[0]], path[1..], i);
    }
  }

  /** Nodes above a loaded one are loaded. */
  lemma LoadedAbove(b: Base, sizes: map<PageId, nat>, ps: set<PageId>, t: Tree, k: nat, p: PageId)
    requires BlocksOk(b) && Tracks(b, sizes, ps) && Pages(t) <= ps && t.Branch? && Ready(b, t) && k < |t.kids|
    requires p in Pages(t.kids[k]) && p in b.counts
    ensures t.kids[k].page in b.counts && Ready(b, t.kids[k])
  {
    hide Pages, F.Block;
    if t.kids[k].page !in b.counts {
      KeptUnloaded(b, p);
    }
  }

  /** What a run of merges keeps, besides order and contents. */
  ghost predicate Tracked(b: Base, sizes: map<PageId, nat>, ps: set<PageId>, t: Tree) {
    BlocksOk(b) && Tracks(b, sizes, ps) && Pages(t) <= ps && Ready(b, t)
  }

  lemma {:induction false} MergeAtReady(b: Base, sizes: map<PageId, nat>, ps: set<PageId>, t: Tree, path: seq<nat>,
                                        i: nat, h: nat)
    requires Tracked(b, sizes, ps, t) && Unshared(t) && Balanced(t, h)
    requires Applies(t, path, i) && Removed(t, path, i).page in b.counts
    ensures var b' := MergedAt(b, sizes, t, path, i);
            BlocksOk(b') && Tracks(b', sizes, ps) && Ready(b', MergeAt(t, path, i, h))
    decreases t
  {
    hide Pages, F.Block, BlocksOk, Ready, Unshared, Tracks, Load, MergeChild;
    var b' := MergedAt(b, sizes, t, path, i);
    if path == [] {
      MergeReady(b, sizes, ps, t, i, h);
      MergedTracks(b, sizes, ps, t, i);
    } else {
      var k := path[0];
      MergedLoads(b, sizes, t.kids[k], path[1..], i);
      LoadedAbove(b, sizes, ps, t, k, Removed(t, path, i).page);
      PagesOfNode(t);
      KidPages(t, k);
      KidUnshared(t, k);
      MergeAtReady(b, sizes, ps, t.kids[k], path[1..], i, h - 1);
      MergedInside(b, sizes, ps, t, path, i, h);
    }
  }

  lemma MergedTracks(b: Base, sizes: map<PageId, nat>, ps: set<PageId>, p: Tree, i: nat)
    requires Tracked(b, sizes, ps, p) && MayMerge(p, i)
    ensures var b' := Merged(b, sizes, p, i); BlocksOk(b') && Tracks(b', sizes, ps)
  {
    hide Pages, F.Block, BlocksOk, Ready, Load;
    var n := if i == 0 then 1 else i - 1;
    ReadyFit(b, p);
    assert Fit(b, p.seps[n], p.kids[n]);
    if p.kids[n].page !in b.counts {
      FitKeyed(b, p.seps[n], p.kids[n]);
    }
    PagesOfNode(p);
    KidPages(p, n);
    PagesOfNode(p.kids[n]);
    LoadTracks(b, sizes, ps, p.kids[n]);
  }

  /** A merge inside one child leaves the others fit. */
  lemma MergedInside(b: Base, sizes: map<PageId, nat>, ps: set<PageId>, t: Tree, path: seq<nat>, i: nat, h: nat)
    requires Balanced(t, h) && Applies(t, path, i) && path != [] && t.kids[path[0]].page in b.counts
    requires Ready(MergedAt(b, sizes, t, path, i), MergeAt(t.kids[path[0]], path[1..], i, h - 1))
    requires Tracked(b, sizes, ps, t) && Unshared(t)
    ensures Ready(MergedAt(b, sizes, t, path, i), MergeAt(t, path, i, h))
  {
    hide Pages, F.Block, BlocksOk, Ready, Load, MergeChild, Tracks;
    var k, b' := path[0], MergedAt(b, sizes, t, path, i);
    var t' := MergeAt(t, path, i, h);
    var s := SiblingAt(t, path, i);
    MergedLoads(b, sizes, t.kids[k], path[1..], i);
    ReadyFit(b, t);
    PagesOfNode(t);
    KidPages(t, k);
    forall m | 0 <= m < |t.kids| ensures Fit(b', t'.seps[m], t'.kids[m]) {
      assert Fit(b, t.seps[m], t.kids[m]);
      KidPages(t, m);
      if m == k {
        MergeAtPage(t.kids[k], path[1..], i, h - 1);
        LoadKeeps(b, s, if s.page in sizes then sizes[s.page] else 0, t.kids[k].page);
      } else {
        DisjointPages(t, m, k);
        if b' != b {
          LoadFit(b, sizes, ps, s, t.seps[m], t.kids[m]);
        }
      }
    }
    LoadKeeps(b, s, if s.page in sizes then sizes[s.page] else 0, t.page);
    ReadyFit(b', t');
  }

  lemma LoadKeeps(b: Base, s: Tree, n: nat, p: PageId)
    requires p in b.counts
    ensures var b' := Load(b, s, n);
            p in b'.counts && b'.counts[p] == b.counts[p] && (p in b.orig ==> p in b'.orig && b'.orig[p] == b.orig[p])
  {
  }

  lemma MergeAtPage(t: Tree, path: seq<nat>, i: nat, h: nat)
    requires Applies(t, path, i) && Balanced(t, h)
    ensures MergeAt(t, path, i, h).page == t.page
  {
    if path == [] {
      MergeBalanced(t, i, h);
    }
  }

  // ---------- promoting a root's only child ----------

  /** The promoted child can be written exactly if it is loaded. */
  lemma PromotedReady(b: Base, t: Tree)
    requires Ready(b, t) && t.Branch? && |t.kids| == 1
    ensures Ready(b, t.kids[0]) <==> t.kids[0].page in b.counts
  {
  }

  /** A root of two children merges one away and promotes what is left.  The child left over
      is loaded, and so can be written, exactly if the merge had data to move or the
      sibling was loaded before. */
  lemma PromotedLoaded(b: Base, sizes: map<PageId, nat>, ps: set<PageId>, p: Tree, i: nat, h: nat)
    requires Tracked(b, sizes, ps, p) && Unshared(p) && Balanced(p, h)
    requires MayMerge(p, i) && |p.kids| == 2 && p.kids[i].page in b.counts
    ensures p.kids[Left(i)].Leaf? <==> p.kids[Left(i) + 1].Leaf?
    ensures Ready(Merged(b, sizes, p, i), MergeChild(p, i).kids[0]) <==>
            Len(p.kids[i]) > 0 || Sibling(p, i).page in b.counts
  {
    hide Pages, F.Block, BlocksOk, Ready, Load;
    MergeReady(b, sizes, ps, p, i, h);
    var m, b' := MergeChild(p, i), Merged(b, sizes, p, i);
    PromotedReady(b', m);
    MergedKid(p, i, 0);
    var s := Sibling(p, i);
    assert m.kids[0].page == s.page;
    if Len(p.kids[i]) > 0 {
      JoinedLoaded(b, sizes, ps, p, i);
    }
  }

  /** An emptied leaf beside a leaf never loaded: the child promoted is not loaded. */
  lemma UnloadedPromoted()
    ensures var e := Entry([5], Kv([]));
            var p := Branch(2, [[1], [5]], [Leaf(3, []), Leaf(4, [e])]);
            var b := Base(map[4 := Leaves([e])], map[2 := 1, 3 := 1], map[3 := [1]], {4});
            var sizes := map[2 := 1, 3 := 1, 4 := 1];
            && Tracked(b, sizes, {2, 3, 4}, p) && MayMerge(p, 0) && p.kids[0].page in b.counts
            && MergeChild(p, 0).kids == [Leaf(4, [e])] && !Ready(Merged(b, sizes, p, 0), Leaf(4, [e]))
  {
    var e := Entry([5], Kv([]));
    var kid, p := Leaf(4, [e]), Branch(2, [[1], [5]], [Leaf(3, []), Leaf(4, [e])]);
    var b := Base(map[4 := Leaves([e])], map[2 := 1, 3 := 1], map[3 := [1]], {4});
    assert Settled(b, [5], kid);
    assert Fit(b, p.seps[0], p.kids[0]) && Fit(b, p.seps[1], p.kids[1]);
    ReadyFit(b, p);
    PagesOfNode(p);
    PagesAppend([Leaf(3, [])], [kid]);
    PagesOne(Leaf(3, []));
    PagesOne(kid);
    assert p.kids == [Leaf(3, [])] + [kid];
    assert F.Block(2, 1) == {2} && F.Block(3, 1) == {3} && F.Block(4, 1) == {4};
  }

  lemma JoinedLoaded(b: Base, sizes: map<PageId, nat>, ps: set<PageId>, p: Tree, i: nat)
    requires Tracked(b, sizes, ps, p) && MayMerge(p, i) && Len(p.kids[i]) > 0
    ensures Sibling(p, i).page in Merged(b, sizes, p, i).counts
  {
    hide Pages, F.Block, BlocksOk, Ready, Load;
    var n := if i == 0 then 1 else i - 1;
    ReadyFit(b, p);
    assert Fit(b, p.seps[n], p.kids[n]);
    if p.kids[n].page !in b.counts {
      FitKeyed(b, p.seps[n], p.kids[n]);
    }
    PagesOfNode(p);
    KidPages(p, n);
    PagesOfNode(p.kids[n]);
    LoadTracks(b, sizes, ps, p.kids[n]);
  }

  // ---------- from the overlay ----------

  /** What b knows is what the bucket has loaded. */
  ghost predicate KnownTo(k: InnerBucket, b: Base)
    reads k`nodes, k`pageNodeIds
  {
    && b.store == k.store && b.counts.Keys == k.pageNodeIds.Keys
    && forall p :: p in k.pageNodeIds && k.pageNodeIds[p] < |k.nodes| && k.nodes[k.pageNodeIds[p]].originalKey.Some? ==>
                     p in b.orig && b.orig[p] == k.nodes[k.pageNodeIds[p]].originalKey.value
  }

  /** Below a node that is not loaded nothing is. */
  lemma {:induction false} UnloadedBelow(k: InnerBucket, s: Tree, p: PageId)
    requires k.Valid() && Within(k.tree, s) && s.page !in k.pageNodeIds && p in Pages(s)
    ensures p !in k.pageNodeIds
    decreases s
  {
    hide Routable, Rep, Edge, Unshared, Within, k.Shadows;
    PagesOfNode(s);
    if p != s.page {
      InPagesAll(s.kids, p);
      var i :| 0 <= i < |s.kids| && p in Pages(s.kids[i]);
      WithinStep(k.tree, s, i);
      var q := s.kids[i].page;
      RootIsNoChild(k.tree, s.page, q);
      if q in k.pageNodeIds {
        assert k.Attached(q);
        EdgeUnique(k.tree, s.page, k.pageParents[q], q);
        assert false;
      }
      UnloadedBelow(k, s.kids[i], p);
    }
  }

  lemma {:induction false} WithinRep(view: map<PageId, PageData>, t: Tree, s: Tree)
    requires Rep(view, t) && Within(t, s)
    ensures Rep(view, s)
    decreases t
  {
    if s != t {
      var i :| 0 <= i < |t.kids| && Within(t.kids[i], s);
      WithinRep(view, t.kids[i], s);
    }
  }

  lemma {:induction false} WithinPages(t: Tree, s: Tree)
    requires Within(t, s)
    ensures Pages(s) <= Pages(t)
    decreases t
  {
    hide Pages;
    if s != t {
      var i :| 0 <= i < |t.kids| && Within(t.kids[i], s);
      WithinPages(t.kids[i], s);
      KidPages(t, i);
      PagesOfNode(t);
    }
  }

  /** An unloaded subtree is as committed. */
  lemma UnloadedSettled(k: InnerBucket, b: Base, sizes: map<PageId, nat>, s: Tree, sep: Key)
    requires k.Valid() && KnownTo(k, b) && BlocksOk(b) && Tracks(b, sizes, Pages(k.tree))
    requires TightPages(k.store, Pages(k.tree)) && Within(k.tree, s) && s.page !in k.pageNodeIds
    requires s.page in k.store && FirstKeyOf(k.store[s.page]) == Some(sep)
    ensures Settled(b, sep, s)
  {
    hide Routable, Edge, Unshared, Within, Pages, Tight, BlocksOk, F.Block;
    WithinRep(k.view, k.tree, s);
    WithinPages(k.tree, s);
    forall p: PageId | p in Pages(s) ensures SameAt(k.view, k.store, p) && p in b.keep {
      UnloadedBelow(k, s, p);
      InView(k.view, s, p);
      KeptPage(b, sizes, Pages(k.tree), p);
    }
    RepAgree(k.view, k.store, s);
    CommittedTight(k.store, s);
  }

  lemma KeptPage(b: Base, sizes: map<PageId, nat>, ps: set<PageId>, p: PageId)
    requires Tracks(b, sizes, ps) && p in ps && p !in b.counts
    ensures p in b.keep
  {
    assert p in F.Block(p, sizes[p]);
  }

  lemma {:induction false} InView(view: map<PageId, PageData>, t: Tree, p: PageId)
    requires Rep(view, t) && p in Pages(t)
    ensures p in view
    decreases t
  {
    hide Pages;
    PagesOfNode(t);
    if p != t.page {
      InPagesAll(t.kids, p);
      var i :| 0 <= i < |t.kids| && p in Pages(t.kids[i]);
      InView(view, t.kids[i], p);
    }
  }

  /** After any run of edits, a loaded node and its loaded descendants are fit for writing. */
  lemma {:induction false} NodeReady(k: InnerBucket, b: Base, sizes: map<PageId, nat>, s: Tree)
    requires k.Valid() && KnownTo(k, b) && BlocksOk(b) && Tracks(b, sizes, Pages(k.tree))
    requires TightPages(k.store, Pages(k.tree)) && Within(k.tree, s) && s.page in k.pageNodeIds
    ensures Ready(b, s)
    decreases s
  {
    hide Routable, Edge, Unshared, Within, Pages, Tight, BlocksOk, F.Block, Tracks, Settled;
    if s.Branch? {
      BranchPage(k, s);
      forall i | 0 <= i < |s.kids| ensures Fit(b, s.seps[i], s.kids[i]) {
        WithinStep(k.tree, s, i);
        var p := s.kids[i].page;
        assert p == RootPages(s.kids)[i];
        assert p in k.store && FirstKeyOf(k.store[p]) == Some(s.seps[i]);
        if p in k.pageNodeIds {
          NodeReady(k, b, sizes, s.kids[i]);
        } else {
          UnloadedSettled(k, b, sizes, s.kids[i], s.seps[i]);
        }
      }
      ReadyFit(b, s);
    }
  }

  lemma BranchPage(k: InnerBucket, s: Tree)
    requires k.Valid() && TightPages(k.store, Pages(k.tree)) && Within(k.tree, s) && s.Branch?
    ensures s.page in k.store && k.store[s.page] == Branches(s.seps, RootPages(s.kids)) && TightPage(k.store, s.page)
  {
    hide Routable, Edge, Unshared, Within, Pages;
    WithinRep(k.view, k.tree, s);
    WithinPages(k.tree, s);
    PagesOfNode(s);
  }

  /** The whole bucket, once its root is loaded. */
  lemma BucketReady(k: InnerBucket, b: Base, sizes: map<PageId, nat>)
    requires k.Valid() && KnownTo(k, b) && BlocksOk(b) && Tracks(b, sizes, Pages(k.tree))
    requires TightPages(k.store, Pages(k.tree)) && k.rootPage in k.pageNodeIds
    ensures Tracked(b, sizes, Pages(k.tree), k.tree) && Staged(k.tree) && Unshared(k.tree)
  {
    WithinSelf(k.tree);
    NodeReady(k, b, sizes, k.tree);
    RoutableStaged(k.tree);
  }
}
