/** Searching a tree whose separators may be stale: which merges keep every entry within
    reach of a search for its key. */
module Searching {
  import opened Bytes
  import opened BTree
  import opened Overlay
  import opened Traversal
  import opened Rebalance

  /** Every entry is found by a search for its key. */
  ghost predicate Findable(t: Tree) {
    forall e :: e in Flatten(t) ==> Found(t, e)
  }

  ghost predicate Found(t: Tree, e: Entry) {
    Route(t, e.key).Leaf? && e in Route(t, e.key).entries
  }

  ghost predicate NoneBelow(t: Tree, key: Key) {
    forall e :: e in Flatten(t) ==> !Less(e.key, key)
  }

  /** The same said of separators: none but the first of a node is above an entry under it. */
  ghost predicate Searchable(t: Tree) {
    t.Branch? ==>
      && |t.seps| == |t.kids|
      && forall j :: 0 <= j < |t.kids| ==> Searchable(t.kids[j]) && (j > 0 ==> NoneBelow(t.kids[j], t.seps[j]))
  }

  lemma IndexIs(seps: seq<Key>, key: Key, j: nat)
    requires SortedKeys(seps) && j < |seps|
    requires j > 0 ==> !Less(key, seps[j])
    requires j + 1 < |seps| ==> Less(key, seps[j + 1])
    ensures Index(seps, key) == j
  {
    RankInjective();
    if Less(seps[j], key) {
      LowerAt(seps, key, j + 1);
    } else {
      LowerAt(seps, key, j);
    }
  }

  lemma RouteInFlatten(t: Tree, key: Key, e: Entry)
    requires Route(t, key).Leaf? && e in Route(t, key).entries
    ensures e in Flatten(t)
    decreases t
  {
    if t.Branch? {
      var i := Index(t.seps, key);
      RouteInFlatten(t.kids[i], key, e);
      InFlatten(t.kids, e);
    }
  }

  /** An entry of child j not below separator j is searched for in child j. */
  lemma RoutedTo(t: Tree, j: nat, e: Entry)
    requires Staged(t) && t.Branch? && j < |t.kids| && e in Flatten(t.kids[j])
    requires j > 0 ==> !Less(e.key, t.seps[j])
    ensures Found(t, e) <==> Found(t.kids[j], e)
  {
    hide Rank, KeySet, Flatten;
    FlattenKeys(t.kids[j], e);
    assert j + 1 < |t.kids| ==> AllBelow(KeySet(t.kids[j]), t.seps[j + 1]);
    IndexIs(t.seps, e.key, j);
  }

  /** An entry below its own separator is searched for further left, where it is not. */
  lemma Missed(t: Tree, j: nat, e: Entry)
    requires Staged(t) && t.Branch? && 0 < j < |t.kids| && e in Flatten(t.kids[j]) && Less(e.key, t.seps[j])
    ensures e in Flatten(t) && !Found(t, e)
  {
    hide Rank, KeySet, Flatten, Staged;
    FlattenBranch(t);
    InFlatten(t.kids, e);
    var i := SearchedLeft(t, j, e.key);
    if Found(t, e) {
      RouteInFlatten(t.kids[i], e.key, e);
      FlattenKeys(t.kids[i], e);
      FlattenKeys(t.kids[j], e);
      StagedPrecedes(t, i, j);
      assert false;
    }
  }

  lemma StagedPrecedes(t: Tree, i: nat, j: nat)
    requires Staged(t) && t.Branch? && i < j < |t.kids|
    ensures Precedes(KeySet(t.kids[i]), KeySet(t.kids[j]))
  {
  }

  lemma SearchedLeft(t: Tree, j: nat, key: Key) returns (i: nat)
    requires Staged(t) && t.Branch? && 0 < j < |t.kids| && Less(key, t.seps[j])
    ensures i < j && i == Index(t.seps, key)
  {
    hide Rank, KeySet;
    i := Index(t.seps, key);
    IndexBounds(t.seps, key);
  }

  /** Every entry is found exactly if no separator but a first one is above an entry. */
  lemma {:induction false} SearchableExactly(t: Tree)
    requires Staged(t)
    ensures Findable(t) <==> Searchable(t)
    decreases t
  {
    hide Rank, KeySet, Flatten, Found, Route;
    if t.Branch? {
      forall j | 0 <= j < |t.kids| ensures Findable(t.kids[j]) <==> Searchable(t.kids[j]) {
        SearchableExactly(t.kids[j]);
      }
      if Searchable(t) {
        forall e | e in Flatten(t) ensures Found(t, e) {
          FlattenBranch(t);
          InFlatten(t.kids, e);
          var j :| 0 <= j < |t.kids| && e in Flatten(t.kids[j]);
          RoutedTo(t, j, e);
        }
      }
      if Findable(t) {
        forall j | 0 <= j < |t.kids| ensures Findable(t.kids[j]) && (j > 0 ==> NoneBelow(t.kids[j], t.seps[j])) {
          FindableBelow(t, j);
        }
      }
    } else {
      LeafFound(t);
    }
  }

  lemma LeafFound(t: Tree)
    requires t.Leaf?
    ensures Findable(t)
  {
  }

  lemma FindableBelow(t: Tree, j: nat)
    requires Staged(t) && t.Branch? && j < |t.kids| && Findable(t)
    ensures Findable(t.kids[j]) && (j > 0 ==> NoneBelow(t.kids[j], t.seps[j]))
  {
    hide Rank, KeySet, Flatten, Found, Route, Staged;
    FlattenBranch(t);
    forall e | e in Flatten(t.kids[j])
      ensures Found(t.kids[j], e) && (j > 0 ==> |t.seps| > j && !Less(e.key, t.seps[j]))
    {
      InFlatten(t.kids, e);
      StagedShape(t);
      if j > 0 && Less(e.key, t.seps[j]) {
        Missed(t, j, e);
        assert false;
      }
      RoutedTo(t, j, e);
    }
  }

  lemma StagedShape(t: Tree)
    requires Staged(t) && t.Branch?
    ensures |t.seps| == |t.kids| > 0
  {
  }

  // ---------- one merge ----------

  /** Joining two branch nodes keeps every entry findable exactly when both were searchable
      and the first separator of the right node is not above an entry of its first child. */
  lemma JoinFindable(page: PageId, a: Tree, b: Tree)
    requires a.Branch? && b.Branch? && Staged(a) && Staged(b) && Precedes(KeySet(a), KeySet(b))
    ensures Findable(Join(page, a, b)) <==> Findable(a) && Findable(b) && NoneBelow(b.kids[0], b.seps[0])
  {
    hide Rank, KeySet, Flatten, Findable, Staged, Searchable, NoneBelow;
    JoinStaged(page, a, b);
    SearchableExactly(a);
    SearchableExactly(b);
    SearchableExactly(Join(page, a, b));
    StagedShape(a);
    StagedShape(b);
    JoinSearchable(page, a, b);
  }

  lemma SearchableKid(t: Tree, j: nat)
    requires Searchable(t) && t.Branch? && j < |t.kids|
    ensures |t.seps| == |t.kids| && Searchable(t.kids[j]) && (j > 0 ==> NoneBelow(t.kids[j], t.seps[j]))
  {
  }

  lemma SearchableFrom(t: Tree)
    requires t.Branch? && |t.seps| == |t.kids|
    requires forall j :: 0 <= j < |t.kids| ==> Searchable(t.kids[j]) && (j > 0 ==> NoneBelow(t.kids[j], t.seps[j]))
    ensures Searchable(t)
  {
  }

  lemma JoinSearchable(page: PageId, a: Tree, b: Tree)
    requires a.Branch? && b.Branch? && |a.seps| == |a.kids| > 0 && |b.seps| == |b.kids| > 0
    ensures Searchable(Join(page, a, b)) <==> Searchable(a) && Searchable(b) && NoneBelow(b.kids[0], b.seps[0])
  {
    hide NoneBelow, Searchable;
    if Searchable(Join(page, a, b)) {
      JoinedFrom(page, a, b);
    }
    if Searchable(a) && Searchable(b) && NoneBelow(b.kids[0], b.seps[0]) {
      var t, n := Join(page, a, b), |a.kids|;
      forall j | 0 <= j < |t.kids| ensures Searchable(t.kids[j]) && (j > 0 ==> NoneBelow(t.kids[j], t.seps[j])) {
        if j < n {
          SearchableKid(a, j);
        } else {
          SearchableKid(b, j - n);
        }
      }
      SearchableFrom(t);
    }
  }

  lemma JoinedFrom(page: PageId, a: Tree, b: Tree)
    requires a.Branch? && b.Branch? && |a.seps| == |a.kids| > 0 && |b.seps| == |b.kids| > 0
    requires Searchable(Join(page, a, b))
    ensures Searchable(a) && Searchable(b) && NoneBelow(b.kids[0], b.seps[0])
  {
    hide NoneBelow, Searchable;
    var t, n := Join(page, a, b), |a.kids|;
    hide Join;
    forall j | 0 <= j < n ensures Searchable(a.kids[j]) && (j > 0 ==> NoneBelow(a.kids[j], a.seps[j])) {
      JoinLeft(page, a, b, j);
      SearchableKid(t, j);
    }
    SearchableFrom(a);
    forall j | 0 <= j < |b.kids| ensures Searchable(b.kids[j]) && NoneBelow(b.kids[j], b.seps[j]) {
      JoinRight(page, a, b, j);
      SearchableKid(t, n + j);
    }
    SearchableFrom(b);
  }

  lemma JoinLeft(page: PageId, a: Tree, b: Tree, j: nat)
    requires a.Branch? && b.Branch? && |a.seps| == |a.kids| && |b.seps| == |b.kids| && j < |a.kids|
    ensures var t := Join(page, a, b);
            t.Branch? && j < |t.kids| == |t.seps| && t.kids[j] == a.kids[j] && t.seps[j] == a.seps[j]
  {
  }

  lemma JoinRight(page: PageId, a: Tree, b: Tree, j: nat)
    requires a.Branch? && b.Branch? && |a.seps| == |a.kids| && |b.seps| == |b.kids| && j < |b.kids|
    ensures var t, n := Join(page, a, b), |a.kids|;
            t.Branch? && n + j < |t.kids| == |t.seps| && t.kids[n + j] == b.kids[j] && t.seps[n + j] == b.seps[j]
  {
  }

  /** A merge of child i that a search survives: leaves, an emptied child, or branches whose
      right node has a first separator not above an entry of its first child. */
  ghost predicate SafeMerge(p: Tree, i: nat)
    requires MayMerge(p, i)
  {
    var right := p.kids[Left(i) + 1];
    right.Leaf? || Len(p.kids[i]) == 0 || (right.kids != [] && right.seps != []
        && NoneBelow(right.kids[0], right.seps[0]))
  }

  lemma MergedEntry(p: Tree, i: nat, k: nat, e: Entry) returns (s: nat)
    requires MayMerge(p, i) && (p.kids[Left(i)].Leaf? <==> p.kids[Left(i) + 1].Leaf?)
    requires k < |p.kids| - 1 && e in Flatten(MergeChild(p, i).kids[k])
    ensures From(i, Len(p.kids[i]) == 0, k, s) && s < |p.kids| && e in Flatten(p.kids[s])
  {
    hide Flatten;
    MergedKid(p, i, k);
    var empty := Len(p.kids[i]) == 0;
    if !empty && k == Left(i) {
      JoinFlatten(p.kids[if i == 0 then 1 else Left(i)].page, p.kids[k], p.kids[k + 1]);
      s := if e in Flatten(p.kids[k]) then k else k + 1;
    } else {
      s := if empty then (if k < i then k else k + 1) else if k < Left(i) then k else k + 1;
    }
  }

  /** The separators left over are still not above an entry of their child. */
  lemma MergedNoneBelow(p: Tree, i: nat, k: nat)
    requires Staged(p) && MayMerge(p, i) && (p.kids[Left(i)].Leaf? <==> p.kids[Left(i) + 1].Leaf?)
    requires Searchable(p) && 0 < k < |p.kids| - 1
    ensures var p' := MergeChild(p, i); |p'.kids| == |p'.seps| == |p.kids| - 1 && NoneBelow(p'.kids[k], p'.seps[k])
  {
    hide Rank, KeySet, Flatten, MergeChild;
    MergedKid(p, i, k);
    var p' := MergeChild(p, i);
    forall e | e in Flatten(p'.kids[k]) ensures !Less(e.key, p'.seps[k]) {
      var s := MergedEntry(p, i, k, e);
      var own := if k < i then k else k + 1;
      assert own <= s;
      assert NoneBelow(p.kids[s], p.seps[s]);
      assert own == s || Less(p.seps[own], p.seps[s]);
    }
  }

  lemma MergeSearchable(p: Tree, i: nat)
    requires Staged(p) && MayMerge(p, i) && (p.kids[Left(i)].Leaf? <==> p.kids[Left(i) + 1].Leaf?) && Searchable(p)
    ensures Searchable(MergeChild(p, i)) <==> SafeMerge(p, i)
  {
    hide Rank, KeySet, Flatten, MergeChild, Staged, NoneBelow;
    var p', l, n := MergeChild(p, i), Left(i), |p.kids| - 1;
    MergedKid(p, i, 0);
    MergedKid(p, i, l);
    forall k | 0 < k < n ensures NoneBelow(p'.kids[k], p'.seps[k]) {
      MergedNoneBelow(p, i, k);
    }
    forall k | 0 <= k < n && (k != l || Len(p.kids[i]) == 0) ensures Searchable(p'.kids[k]) {
      MergedKid(p, i, k);
    }
    var a, b := p.kids[l], p.kids[l + 1];
    assert Searchable(a) && Searchable(b);
    if Len(p.kids[i]) > 0 {
      if b.Branch? {
        KidShape(p, l);
        KidShape(p, l + 1);
        JoinSearchable(p'.kids[l].page, a, b);
      }
      assert Searchable(p'.kids[l]) <==> SafeMerge(p, i);
    }
    assert (forall k :: 0 <= k < n ==> Searchable(p'.kids[k])) ==> Searchable(p');
  }

  lemma KidShape(t: Tree, i: nat)
    requires Staged(t) && t.Branch? && i < |t.kids| && t.kids[i].Branch?
    ensures |t.kids[i].seps| == |t.kids[i].kids| > 0
  {
  }

  // ---------- a merge anywhere, and runs of them ----------

  ghost predicate SafeAt(t: Tree, path: seq<nat>, i: nat)
    requires Applies(t, path, i)
  {
    if path == [] then SafeMerge(t, i) else SafeAt(t.kids[path[0]], path[1..], i)
  }

  lemma {:induction false} MergeAtSearchable(t: Tree, path: seq<nat>, i: nat, h: nat)
    requires Staged(t) && Unshared(t) && Balanced(t, h) && Applies(t, path, i) && Searchable(t)
    ensures Searchable(MergeAt(t, path, i, h)) <==> SafeAt(t, path, i)
    decreases t
  {
    hide Rank, KeySet, Flatten, MergeChild, Staged, NoneBelow, Unshared;
    if path == [] {
      MergeBalanced(t, i, h);
      MergeSearchable(t, i);
    } else {
      var k := path[0];
      KidFacts(t, k);
      MergeAtSearchable(t.kids[k], path[1..], i, h - 1);
      MergeKeeps(t.kids[k], path[1..], i, h - 1);
      SameEntries(t, k, MergeAt(t.kids[k], path[1..], i, h - 1));
    }
  }

  lemma KidFacts(t: Tree, k: nat)
    requires Staged(t) && Unshared(t) && t.Branch? && k < |t.kids|
    ensures Staged(t.kids[k]) && Unshared(t.kids[k])
  {
  }

  lemma SameEntries(t: Tree, k: nat, kid: Tree)
    requires t.Branch? && k < |t.kids| && Searchable(t) && Flatten(kid) == Flatten(t.kids[k])
    ensures Searchable(Branch(t.page, t.seps, t.kids[k := kid])) <==> Searchable(kid)
  {
    hide Rank, Flatten;
    var t' := Branch(t.page, t.seps, t.kids[k := kid]);
    assert t'.kids[k] == kid;
    if Searchable(kid) {
      forall j | 0 <= j < |t'.kids| ensures Searchable(t'.kids[j]) && (j > 0 ==> NoneBelow(t'.kids[j], t'.seps[j])) {
        assert Searchable(t.kids[j]) && (j > 0 ==> NoneBelow(t.kids[j], t.seps[j]));
      }
    }
  }

  /** A merge at any place of a tree whose entries are all found keeps them all found exactly
      if it is safe. */
  lemma MergeFindable(t: Tree, path: seq<nat>, i: nat, h: nat)
    requires Staged(t) && Unshared(t) && Balanced(t, h) && Applies(t, path, i) && Findable(t)
    ensures Findable(MergeAt(t, path, i, h)) <==> SafeAt(t, path, i)
  {
    hide Findable, Searchable, Staged, Unshared, SafeAt, MergeAt;
    MergeKeeps(t, path, i, h);
    SearchableExactly(t);
    SearchableExactly(MergeAt(t, path, i, h));
    MergeAtSearchable(t, path, i, h);
  }

  ghost predicate SafeRun(t: Tree, h: nat, steps: seq<Merge>)
    requires Balanced(t, h) && Staged(t) && Unshared(t)
    decreases |steps|
  {
    steps == [] ||
    (Applies(t, steps[0].path, steps[0].i) && SafeAt(t, steps[0].path, steps[0].i)
     && (MergeKeeps(t, steps[0].path, steps[0].i, h);
         SafeRun(MergeAt(t, steps[0].path, steps[0].i, h), h, steps[1..])))
  }

  /** Every entry is found before the first merge and after each. */
  ghost predicate FindableRun(t: Tree, h: nat, steps: seq<Merge>)
    requires Balanced(t, h) && Staged(t) && Unshared(t)
    decreases |steps|
  {
    Findable(t) &&
    (steps == [] ||
     (Applies(t, steps[0].path, steps[0].i)
      && (MergeKeeps(t, steps[0].path, steps[0].i, h);
          FindableRun(MergeAt(t, steps[0].path, steps[0].i, h), h, steps[1..]))))
  }

  /** Through a whole run of rebalancing every entry is found after each merge exactly if each
      merge is safe; promoting the last child keeps it so. */
  lemma {:induction false} RebalanceFindable(t: Tree, h: nat, steps: seq<Merge>, t': Tree, freed: set<PageId>)
    requires Balanced(t, h) && Staged(t) && Unshared(t) && Findable(t) && Runs(t, h, steps, t', freed)
    ensures FindableRun(t, h, steps) <==> SafeRun(t, h, steps)
    ensures SafeRun(t, h, steps) ==> Findable(t')
    decreases |steps|
  {
    hide Findable, Staged, Unshared, SafeAt, MergeAt, Applies, Removed, Balanced;
    if steps == [] {
      if t' != t {
        FindableBelow(t, 0);
      }
    } else {
      var path, i := steps[0].path, steps[0].i;
      MergeKeeps(t, path, i, h);
      MergeFindable(t, path, i, h);
      if Findable(MergeAt(t, path, i, h)) {
        RebalanceFindable(MergeAt(t, path, i, h), h, steps[1..], t', freed - {Removed(t, path, i).page});
      }
    }
  }

  // ---------- merging leaves ----------

  /** Merging leaves, anywhere, keeps even the separators exact. */
  lemma {:induction false} LeafMergeRoutable(t: Tree, path: seq<nat>, i: nat, h: nat)
    requires Routable(t) && Unshared(t) && Balanced(t, h) && Applies(t, path, i) && Removed(t, path, i).Leaf?
    ensures Routable(MergeAt(t, path, i, h))
    decreases t
  {
    hide Rank, KeySet, MergeChild, Unshared;
    if path == [] {
      MergeBalanced(t, i, h);
      MergeRoutable(t, i);
    } else {
      var k := path[0];
      RoutableStaged(t);
      KidFacts(t, k);
      MergeKeeps(t.kids[k], path[1..], i, h - 1);
      LeafMergeRoutable(t.kids[k], path[1..], i, h - 1);
      ReplaceRoutable(t, k, MergeAt(t.kids[k], path[1..], i, h - 1));
    }
  }

  lemma ReplaceRoutable(t: Tree, k: nat, kid: Tree)
    requires Routable(t) && t.Branch? && k < |t.kids| && Routable(kid) && KeySet(kid) <= KeySet(t.kids[k])
    ensures Routable(Branch(t.page, t.seps, t.kids[k := kid]))
  {
    hide Rank, KeySet;
    var kids := t.kids[k := kid];
    forall i | 0 <= i < |kids| - 1 ensures AllBelow(KeySet(kids[i]), t.seps[i + 1]) {
      assert AllBelow(KeySet(t.kids[i]), t.seps[i + 1]);
    }
    forall i | 0 < i < |kids| ensures AllFrom(KeySet(kids[i]), t.seps[i]) {
      assert AllFrom(KeySet(t.kids[i]), t.seps[i]);
    }
  }

  lemma MergeRoutable(p: Tree, i: nat)
    requires Routable(p) && MayMerge(p, i) && p.kids[Left(i)].Leaf? && p.kids[Left(i) + 1].Leaf?
    ensures Routable(MergeChild(p, i))
  {
    hide Rank, KeySet;
    RoutableStaged(p);
    MergeStaged(p, i);
    var p', n := MergeChild(p, i), |p.kids| - 1;
    forall k | 0 <= k < n ensures Routable(p'.kids[k]) && |p'.kids| == n == |p'.seps| {
      MergedKid(p, i, k);
    }
    forall k | 0 <= k < n - 1 ensures AllBelow(KeySet(p'.kids[k]), p'.seps[k + 1]) {
      MergeOrder(p, i, k, k + 1);
    }
    forall k | 0 < k < n ensures AllFrom(KeySet(p'.kids[k]), p'.seps[k]) {
      MergedKid(p, i, k);
      forall x | x in KeySet(p'.kids[k]) ensures !Less(x, p'.seps[k]) {
        MergedKeys(p, i, k, x);
        var s: nat :| From(i, Len(p.kids[i]) == 0, k, s) && s < |p.kids| && x in KeySet(p.kids[s]);
        var own := if k < i then k else k + 1;
        assert own <= s;
        assert AllFrom(KeySet(p.kids[s]), p.seps[s]);
        assert own == s || Less(p.seps[own], p.seps[s]);
      }
    }
  }
}
