/** Rebalancing before a commit: underfull nodes are merged into a sibling, emptied ones
    removed, a root with one child replaced by it.  Separators may go stale on the way;
    every sequence of such steps keeps the ordered leaves. */
module Rebalance {
  import opened Bytes
  import opened BTree
  import opened Overlay
  import opened Traversal

  // ---------- order through stale separators ----------

  /** Weaker than Routable: a separator may exceed keys of its own child, but never
      reaches down to an earlier child nor up to a later one. */
  ghost predicate Staged(t: Tree) {
    match t
    case Leaf(_, es) => Sorted(es)
    case Branch(_, seps, kids) =>
      && |seps| == |kids| && |kids| > 0 && SortedKeys(seps)
      && (forall i :: 0 <= i < |kids| ==> Staged(kids[i]))
      && (forall i, j :: 0 <= i < j < |kids| ==> AllBelow(KeySet(kids[i]), seps[j]))
      && (forall i, j :: 0 <= i < j < |kids| ==> Precedes(KeySet(kids[i]), KeySet(kids[j])))
  }

  /** All leaves at the same depth. */
  ghost predicate Balanced(t: Tree, h: nat) {
    match t
    case Leaf(_, _) => h == 0
    case Branch(_, _, kids) => h > 0 && forall i :: 0 <= i < |kids| ==> Balanced(kids[i], h - 1)
  }

  lemma {:induction false} RoutableStaged(t: Tree)
    requires Routable(t)
    ensures Staged(t)
    decreases t
  {
    if t.Branch? {
      hide Rank, KeySet;
      forall i | 0 <= i < |t.kids| ensures Staged(t.kids[i]) {
        RoutableStaged(t.kids[i]);
      }
      forall i, j | 0 <= i < j < |t.kids|
        ensures AllBelow(KeySet(t.kids[i]), t.seps[j])
        ensures Precedes(KeySet(t.kids[i]), KeySet(t.kids[j]))
      {
        assert AllBelow(KeySet(t.kids[i]), t.seps[i + 1]);
        assert i + 1 == j || Less(t.seps[i + 1], t.seps[j]);
        assert AllFrom(KeySet(t.kids[j]), t.seps[j]);
      }
    }
  }

  lemma {:induction false} StagedSorted(t: Tree)
    requires Staged(t)
    ensures Sorted(Flatten(t))
    decreases t, 1
  {
    if t.Branch? {
      StagedSortedAll(t, |t.kids|);
      assert t.kids[..|t.kids|] == t.kids;
    }
  }

  lemma {:induction false} StagedSortedAll(t: Tree, n: nat)
    requires Staged(t) && t.Branch? && n <= |t.kids|
    ensures Sorted(FlattenAll(t.kids[..n]))
    decreases t, 0, n
  {
    hide Rank, KeySet, FlattenAll, Flatten;
    if n > 0 {
      var kids := t.kids;
      StagedSortedAll(t, n - 1);
      StagedSorted(kids[n - 1]);
      FlattenSplit(kids[..n], n - 1);
      assert kids[..n][..n - 1] == kids[..n - 1] && kids[..n][n..] == [];
      FlattenEmpty();
      forall x, y | x in FlattenAll(kids[..n - 1]) && y in Flatten(kids[n - 1]) ensures Less(x.key, y.key) {
        InFlatten(kids[..n - 1], x);
        var i :| 0 <= i < n - 1 && x in Flatten(kids[..n - 1][i]);
        FlattenKeys(kids[i], x);
        FlattenKeys(kids[n - 1], y);
        assert Precedes(KeySet(kids[i]), KeySet(kids[n - 1]));
      }
      SortedAppend(FlattenAll(kids[..n - 1]), Flatten(kids[n - 1]));
      assert FlattenAll(kids[..n]) == FlattenAll(kids[..n - 1]) + Flatten(kids[n - 1]);
    } else {
      FlattenEmpty();
      assert t.kids[..0] == [];
    }
  }

  // ---------- joining two siblings ----------

  /** The data of two neighbouring nodes, in key order, under one page. */
  function Join(page: PageId, a: Tree, b: Tree): Tree
    requires a.Leaf? <==> b.Leaf?
  {
    match a
    case Leaf(_, es) => Leaf(page, es + b.entries)
    case Branch(_, seps, kids) => Branch(page, seps + b.seps, kids + b.kids)
  }

  /** A sort leaves elements with different keys in one order only. */
  lemma {:induction false} SortUnique<T>(r: seq<T>, joined: seq<T>, keys: map<T, Key>)
    requires multiset(r) == multiset(joined) && forall x :: x in joined ==> x in keys
    requires forall i, j :: 0 <= i < j < |joined| ==> Less(keys[joined[i]], keys[joined[j]])
    requires forall i, j :: 0 <= i < j < |r| && r[i] in keys && r[j] in keys ==> !Less(keys[r[j]], keys[r[i]])
    ensures r == joined
    decreases |r|
  {
    hide Rank;
    SameLength(r, joined);
    if r != [] {
      SameHead(r, joined, keys);
      SortUnique(r[1..], joined[1..], keys);
      assert r == [r[0]] + r[1..] && joined == [joined[0]] + joined[1..];
    }
  }

  /** `NodeData::merge` appends and sorts; whatever sort it uses, the outcome is the
      ordered concatenation. */
  lemma SortedEntries(page: PageId, a: Tree, b: Tree, r: seq<Entry>)
    requires a.Leaf? && b.Leaf? && Staged(a) && Staged(b) && Precedes(KeySet(a), KeySet(b))
    requires multiset(r) == multiset(a.entries) + multiset(b.entries)
    requires forall i, j :: 0 <= i < j < |r| ==> !Less(r[j].key, r[i].key)
    ensures r == Join(page, a, b).entries
  {
    hide Rank;
    JoinStaged(page, a, b);
    var joined := a.entries + b.entries;
    SortUnique(r, joined, map e | e in joined :: e.key);
  }

  /** The separators of a branch node with their children. */
  function Elements(t: Tree): seq<(Key, Tree)>
    requires t.Branch? && |t.seps| == |t.kids|
  {
    seq(|t.seps|, i requires 0 <= i < |t.seps| => (t.seps[i], t.kids[i]))
  }

  /** The same for branch nodes. */
  lemma SortedElements(page: PageId, a: Tree, b: Tree, r: seq<(Key, Tree)>)
    requires a.Branch? && b.Branch? && Staged(a) && Staged(b) && Precedes(KeySet(a), KeySet(b))
    requires multiset(r) == multiset(Elements(a)) + multiset(Elements(b))
    requires forall i, j :: 0 <= i < j < |r| ==> !Less(r[j].0, r[i].0)
    ensures Staged(Join(page, a, b)) && r == Elements(Join(page, a, b))
  {
    hide Rank, KeySet, Staged;
    JoinStaged(page, a, b);
    ElementsAppend(page, a, b);
    var joined := Elements(Join(page, a, b));
    SortUnique(r, joined, map e | e in joined :: e.0);
  }

  lemma ElementsAppend(page: PageId, a: Tree, b: Tree)
    requires a.Branch? && b.Branch? && Staged(a) && Staged(b) && Staged(Join(page, a, b))
    ensures var t := Join(page, a, b);
            && |t.seps| == |t.kids| && Elements(t) == Elements(a) + Elements(b)
            && forall i, j :: 0 <= i < j < |Elements(t)| ==> Less(Elements(t)[i].0, Elements(t)[j].0)
  {
    hide Rank, Less, Staged, KeySet;
    var t := Join(page, a, b);
    StagedSeps(a);
    StagedSeps(b);
    StagedSeps(t);
    var es := Elements(a) + Elements(b);
    forall i | 0 <= i < |t.seps| ensures Elements(t)[i] == es[i] && Elements(t)[i].0 == t.seps[i] {
    }
  }

  lemma StagedSeps(t: Tree)
    requires Staged(t) && t.Branch?
    ensures |t.seps| == |t.kids| && SortedKeys(t.seps)
  {
  }

  lemma SameLength<T>(a: seq<T>, b: seq<T>)
    requires multiset(a) == multiset(b)
    ensures |a| == |b|
  {
    assert |a| == |multiset(a)| && |b| == |multiset(b)|;
  }

  lemma SameHead<T>(r: seq<T>, joined: seq<T>, keys: map<T, Key>)
    requires multiset(r) == multiset(joined) && |r| == |joined| > 0 && forall x :: x in joined ==> x in keys
    requires forall i, j :: 0 <= i < j < |joined| ==> Less(keys[joined[i]], keys[joined[j]])
    requires forall i, j :: 0 <= i < j < |r| && r[i] in keys && r[j] in keys ==> !Less(keys[r[j]], keys[r[i]])
    ensures r[0] == joined[0] && multiset(r[1..]) == multiset(joined[1..])
  {
    hide Rank;
    assert r[0] in multiset(r) && joined[0] in multiset(joined);
    var i :| 0 <= i < |joined| && joined[i] == r[0];
    var j :| 0 <= j < |r| && r[j] == joined[0];
    assert i == 0;
    SameTail(r, joined);
  }

  lemma SameTail<T>(a: seq<T>, b: seq<T>)
    requires multiset(a) == multiset(b) && a != [] && b != [] && a[0] == b[0]
    ensures multiset(a[1..]) == multiset(b[1..])
  {
    assert a == [a[0]] + a[1..] && b == [b[0]] + b[1..];
    assert multiset(a[1..]) == multiset(a) - multiset{a[0]};
    assert multiset(b[1..]) == multiset(b) - multiset{b[0]};
  }

  lemma JoinFlatten(page: PageId, a: Tree, b: Tree)
    requires a.Leaf? <==> b.Leaf?
    ensures Flatten(Join(page, a, b)) == Flatten(a) + Flatten(b)
  {
    if a.Branch? {
      FlattenAppend(a.kids, b.kids);
    }
  }

  lemma {:induction false} KeySetAppend(a: seq<Tree>, b: seq<Tree>)
    ensures KeySetAll(a + b) == KeySetAll(a) + KeySetAll(b)
  {
    if a == [] {
      assert a + b == b;
    } else {
      KeySetAppend(a[1..], b);
      assert (a + b)[1..] == a[1..] + b;
    }
  }

  lemma JoinKeys(page: PageId, a: Tree, b: Tree)
    requires a.Leaf? <==> b.Leaf?
    ensures KeySet(Join(page, a, b)) == KeySet(a) + KeySet(b)
  {
    if a.Branch? {
      KeySetAppend(a.kids, b.kids);
    }
  }

  lemma KidKeys(t: Tree, i: nat)
    requires t.Branch? && i < |t.kids|
    ensures KeySet(t.kids[i]) <= KeySet(t)
    ensures i < |t.seps| ==> t.seps[i] in KeySet(t)
  {
    forall k | k in KeySet(t.kids[i]) ensures k in KeySet(t) {
      InKeySetAll(t.kids, k);
    }
  }

  lemma JoinStaged(page: PageId, a: Tree, b: Tree)
    requires Staged(a) && Staged(b) && (a.Leaf? <==> b.Leaf?) && Precedes(KeySet(a), KeySet(b))
    ensures Staged(Join(page, a, b))
  {
    if a.Leaf? {
      SortedAppend(a.entries, b.entries);
    } else {
      hide Rank, KeySet;
      var n := |a.kids|;
      var seps, kids := a.seps + b.seps, a.kids + b.kids;
      forall i | 0 <= i < |kids|
        ensures KeySet(kids[i]) <= (if i < n then KeySet(a) else KeySet(b))
        ensures seps[i] in (if i < n then KeySet(a) else KeySet(b))
      {
        if i < n {
          KidKeys(a, i);
        } else {
          KidKeys(b, i - n);
        }
      }
      assert SortedKeys(seps);
      forall i, j | 0 <= i < j < |kids|
        ensures AllBelow(KeySet(kids[i]), seps[j]) && Precedes(KeySet(kids[i]), KeySet(kids[j]))
      {
        if j < n {
          assert AllBelow(KeySet(a.kids[i]), a.seps[j]) && Precedes(KeySet(a.kids[i]), KeySet(a.kids[j]));
        } else if n <= i {
          assert AllBelow(KeySet(b.kids[i - n]), b.seps[j - n]);
          assert Precedes(KeySet(b.kids[i - n]), KeySet(b.kids[j - n]));
        }
      }
    }
  }

  // ---------- one merge ----------

  /** The two children a merge of child i joins: i with its left neighbour, or the first
      with the second. */
  function Left(i: nat): nat {
    if i == 0 then 0 else i - 1
  }

  predicate MayMerge(p: Tree, i: nat) {
    p.Branch? && |p.seps| == |p.kids| && |p.kids| > 1 && i < |p.kids|
  }

  /** Child i goes away: an emptied one is dropped, any other moves its data to the left
      sibling, or to the right one when it is the first. */
  function MergeChild(p: Tree, i: nat): (m: Tree)
    requires MayMerge(p, i)
    requires p.kids[Left(i)].Leaf? <==> p.kids[Left(i) + 1].Leaf?
    ensures m.Branch? && m.page == p.page && |m.kids| == |p.kids| - 1
  {
    var seps := p.seps[..i] + p.seps[i + 1..];
    if Len(p.kids[i]) == 0 then Branch(p.page, seps, p.kids[..i] + p.kids[i + 1..])
    else
      var l := Left(i);
      var sibling := if i == 0 then p.kids[1] else p.kids[l];
      Branch(p.page, seps, p.kids[..l] + [Join(sibling.page, p.kids[l], p.kids[l + 1])] + p.kids[l + 2..])
  }

  lemma MergeFlatten(p: Tree, i: nat)
    requires MayMerge(p, i) && (p.kids[Left(i)].Leaf? <==> p.kids[Left(i) + 1].Leaf?)
    requires Len(p.kids[i]) == 0 ==> Flatten(p.kids[i]) == []
    ensures Flatten(MergeChild(p, i)) == Flatten(p)
  {
    hide Flatten, FlattenAll;
    var l := Left(i);
    var p' := MergeChild(p, i);
    FlattenBranch(p);
    FlattenBranch(p');
    if Len(p.kids[i]) == 0 {
      FlattenSplit(p.kids, i);
      FlattenAppend(p.kids[..i], p.kids[i + 1..]);
      NoMiddle(FlattenAll(p.kids[..i]), FlattenAll(p.kids[i + 1..]));
    } else {
      FlattenPair(p.kids, l);
      MergedKids(p, i);
      JoinFlatten(p'.kids[l].page, p.kids[l], p.kids[l + 1]);
      FlattenSplit(p'.kids, l);
    }
  }

  lemma NoMiddle<T>(a: seq<T>, b: seq<T>)
    ensures a + [] + b == a + b
  {
  }

  lemma MergedKids(p: Tree, i: nat)
    requires MayMerge(p, i) && (p.kids[Left(i)].Leaf? <==> p.kids[Left(i) + 1].Leaf?) && Len(p.kids[i]) > 0
    ensures var l, kids := Left(i), MergeChild(p, i).kids;
            && l < |kids| && kids[..l] == p.kids[..l] && kids[l + 1..] == p.kids[l + 2..]
            && kids[l] == Join(kids[l].page, p.kids[l], p.kids[l + 1])
  {
  }

  lemma FlattenBranch(t: Tree)
    ensures t.Branch? ==> Flatten(t) == FlattenAll(t.kids)
  {
  }

  /** Child k of the merged parent: an old child, or the joined one. */
  lemma MergedKid(p: Tree, i: nat, k: nat)
    requires MayMerge(p, i) && (p.kids[Left(i)].Leaf? <==> p.kids[Left(i) + 1].Leaf?)
    requires k < |p.kids| - 1
    ensures var p' := MergeChild(p, i);
            && |p'.kids| == |p'.seps| == |p.kids| - 1
            && p'.seps[k] == p.seps[if k < i then k else k + 1]
            && p'.kids[k] == if Len(p.kids[i]) == 0 then p.kids[if k < i then k else k + 1]
                             else if k < Left(i) then p.kids[k]
                             else if k > Left(i) then p.kids[k + 1]
                             else Join(p.kids[if i == 0 then 1 else Left(i)].page, p.kids[k], p.kids[k + 1])
  {
  }

  /** The children of p whose keys child k of the merged parent has. */
  ghost predicate From(i: nat, empty: bool, k: nat, s: nat) {
    if empty then s == (if k < i then k else k + 1)
    else if k < Left(i) then s == k
    else if k > Left(i) then s == k + 1
    else s == k || s == k + 1
  }

  lemma MergedKeys(p: Tree, i: nat, k: nat, key: Key)
    requires MayMerge(p, i) && (p.kids[Left(i)].Leaf? <==> p.kids[Left(i) + 1].Leaf?)
    requires k < |p.kids| - 1 && key in KeySet(MergeChild(p, i).kids[k])
    ensures exists s: nat :: From(i, Len(p.kids[i]) == 0, k, s) && s < |p.kids| && key in KeySet(p.kids[s])
  {
    hide KeySet;
    MergedKid(p, i, k);
    var empty := Len(p.kids[i]) == 0;
    if !empty && k == Left(i) {
      JoinKeys(p.kids[if i == 0 then 1 else Left(i)].page, p.kids[k], p.kids[k + 1]);
      var s := if key in KeySet(p.kids[k]) then k else k + 1;
      assert From(i, empty, k, s);
    } else {
      var s := if empty then (if k < i then k else k + 1) else if k < Left(i) then k else k + 1;
      assert From(i, empty, k, s);
    }
  }

  lemma MergeStaged(p: Tree, i: nat)
    requires Staged(p) && MayMerge(p, i) && (p.kids[Left(i)].Leaf? <==> p.kids[Left(i) + 1].Leaf?)
    ensures Staged(MergeChild(p, i))
  {
    hide Rank, KeySet, MergeChild;
    var p', n := MergeChild(p, i), |p.kids| - 1;
    MergedKid(p, i, 0);
    forall k | 0 <= k < n
      ensures p'.seps[k] == p.seps[if k < i then k else k + 1]
      ensures Staged(p'.kids[k])
    {
      MergedKidStaged(p, i, k);
    }
    assert SortedKeys(p'.seps);
    forall k, m | 0 <= k < m < n
      ensures AllBelow(KeySet(p'.kids[k]), p'.seps[m]) && Precedes(KeySet(p'.kids[k]), KeySet(p'.kids[m]))
    {
      MergeOrder(p, i, k, m);
    }
  }

  lemma MergedKidStaged(p: Tree, i: nat, k: nat)
    requires Staged(p) && MayMerge(p, i) && (p.kids[Left(i)].Leaf? <==> p.kids[Left(i) + 1].Leaf?)
    requires k < |p.kids| - 1
    ensures var p' := MergeChild(p, i);
            && |p'.kids| == |p'.seps| == |p.kids| - 1
            && p'.seps[k] == p.seps[if k < i then k else k + 1] && Staged(p'.kids[k])
  {
    hide Rank, KeySet;
    MergedKid(p, i, k);
    if Len(p.kids[i]) > 0 && k == Left(i) {
      assert Precedes(KeySet(p.kids[k]), KeySet(p.kids[k + 1]));
      JoinStaged(p.kids[if i == 0 then 1 else Left(i)].page, p.kids[k], p.kids[k + 1]);
    }
  }

  lemma MergeOrder(p: Tree, i: nat, k: nat, m: nat)
    requires Staged(p) && MayMerge(p, i) && (p.kids[Left(i)].Leaf? <==> p.kids[Left(i) + 1].Leaf?)
    requires k < m < |p.kids| - 1
    ensures var p' := MergeChild(p, i);
            && |p'.kids| == |p'.seps| == |p.kids| - 1
            && AllBelow(KeySet(p'.kids[k]), p'.seps[m]) && Precedes(KeySet(p'.kids[k]), KeySet(p'.kids[m]))
  {
    hide Rank, KeySet;
    var p', empty := MergeChild(p, i), Len(p.kids[i]) == 0;
    MergedKid(p, i, m);
    var sm := if m < i then m else m + 1;
    forall x | x in KeySet(p'.kids[k]) ensures Less(x, p'.seps[m]) {
      MergedKeys(p, i, k, x);
      var s: nat :| From(i, empty, k, s) && s < |p.kids| && x in KeySet(p.kids[s]);
      assert s < sm;
      assert AllBelow(KeySet(p.kids[s]), p.seps[sm]);
    }
    forall x, y | x in KeySet(p'.kids[k]) && y in KeySet(p'.kids[m]) ensures Less(x, y) {
      MergedKeys(p, i, k, x);
      MergedKeys(p, i, m, y);
      var s: nat :| From(i, empty, k, s) && s < |p.kids| && x in KeySet(p.kids[s]);
      var u: nat :| From(i, empty, m, u) && u < |p.kids| && y in KeySet(p.kids[u]);
      assert s < u;
      assert Precedes(KeySet(p.kids[s]), KeySet(p.kids[u]));
    }
  }

  lemma MergeKeySet(p: Tree, i: nat)
    requires MayMerge(p, i) && (p.kids[Left(i)].Leaf? <==> p.kids[Left(i) + 1].Leaf?)
    ensures KeySet(MergeChild(p, i)) <= KeySet(p)
  {
    var p' := MergeChild(p, i);
    forall x | x in KeySet(p') ensures x in KeySet(p) {
      if x in KeySetAll(p'.kids) {
        InKeySetAll(p'.kids, x);
        var k :| 0 <= k < |p'.kids| && x in KeySet(p'.kids[k]);
        MergedKid(p, i, k);
        MergedKeys(p, i, k, x);
        var u: nat :| u < |p.kids| && x in KeySet(p.kids[u]);
        InKeySetAll(p.kids, x);
      }
    }
  }

  lemma MergeBalanced(p: Tree, i: nat, h: nat)
    requires MayMerge(p, i) && Balanced(p, h)
    ensures p.kids[Left(i)].Leaf? <==> p.kids[Left(i) + 1].Leaf?
    ensures Balanced(MergeChild(p, i), h)
    ensures Full(p) ==> Full(MergeChild(p, i))
  {
    var a, b := p.kids[Left(i)], p.kids[Left(i) + 1];
    assert Balanced(a, h - 1) && Balanced(b, h - 1);
    var p' := MergeChild(p, i);
    forall k | 0 <= k < |p'.kids| ensures Balanced(p'.kids[k], h - 1) && (Full(p) ==> Full(p'.kids[k])) {
      MergedKid(p, i, k);
      if Full(p) {
        JoinFull(p'.kids[k].page, a, b);
      }
    }
  }

  lemma JoinFull(page: PageId, a: Tree, b: Tree)
    requires (a.Leaf? <==> b.Leaf?) && Full(a) && Full(b)
    ensures Full(Join(page, a, b))
  {
    if a.Branch? {
      var kids := a.kids + b.kids;
      forall i | 0 <= i < |kids| ensures Full(kids[i]) {
        assert kids[i] == if i < |a.kids| then a.kids[i] else b.kids[i - |a.kids|];
      }
    }
  }

  // ---------- pages ----------

  lemma {:induction false} PagesAppend(a: seq<Tree>, b: seq<Tree>)
    ensures PagesAll(a + b) == PagesAll(a) + PagesAll(b)
  {
    if a == [] {
      assert a + b == b;
    } else {
      PagesAppend(a[1..], b);
      assert (a + b)[1..] == a[1..] + b;
    }
  }

  /** The pages below a node. */
  ghost function Below(t: Tree): set<PageId> {
    if t.Leaf? then {} else PagesAll(t.kids)
  }

  lemma PagesOfNode(t: Tree)
    ensures Pages(t) == {t.page} + Below(t)
  {
  }

  lemma JoinPages(page: PageId, a: Tree, b: Tree)
    requires a.Leaf? <==> b.Leaf?
    ensures Pages(Join(page, a, b)) == {page} + Below(a) + Below(b)
  {
    if a.Branch? {
      PagesAppend(a.kids, b.kids);
    }
  }

  lemma DisjointPages(t: Tree, i: nat, j: nat)
    requires Unshared(t) && t.Branch? && i < |t.kids| && j < |t.kids| && i != j
    ensures Pages(t.kids[i]) !! Pages(t.kids[j])
  {
  }

  /** Joining keeps pages unshared and loses exactly one node's page. */
  lemma JoinUnshared(page: PageId, a: Tree, b: Tree)
    requires (a.Leaf? <==> b.Leaf?) && Unshared(a) && Unshared(b) && Pages(a) !! Pages(b)
    requires page == a.page || page == b.page
    ensures Unshared(Join(page, a, b))
    ensures Pages(Join(page, a, b)) == Pages(a) + Pages(b) - {if page == a.page then b.page else a.page}
  {
    PagesOfNode(a);
    PagesOfNode(b);
    JoinPages(page, a, b);
    OwnPage(a);
    OwnPage(b);
    if a.Branch? {
      var n, kids := |a.kids|, a.kids + b.kids;
      forall i | 0 <= i < |kids|
        ensures Unshared(kids[i]) && Pages(kids[i]) <= (if i < n then Below(a) else Below(b))
      {
        KidPages(if i < n then a else b, if i < n then i else i - n);
      }
    }
  }

  lemma OwnPage(t: Tree)
    requires Unshared(t)
    ensures t.page !in Below(t)
  {
    if t.Branch? {
      InPagesAll(t.kids, t.page);
    }
  }

  lemma KidPages(t: Tree, i: nat)
    requires t.Branch? && i < |t.kids|
    ensures Pages(t.kids[i]) <= Below(t)
  {
    forall p | p in Pages(t.kids[i]) ensures p in Below(t) {
      InPagesAll(t.kids, p);
    }
  }

  /** A merge frees exactly the page of the node it removes. */
  lemma MergePages(p: Tree, i: nat)
    requires MayMerge(p, i) && (p.kids[Left(i)].Leaf? <==> p.kids[Left(i) + 1].Leaf?) && Unshared(p)
    requires Len(p.kids[i]) == 0 ==> p.kids[i].Leaf?
    ensures Unshared(MergeChild(p, i))
    ensures Pages(MergeChild(p, i)) == Pages(p) - {p.kids[i].page}
  {
    hide Unshared, Pages;
    var p' := MergeChild(p, i);
    MergeUnshared(p, i);
    PagesOfNode(p);
    PagesOfNode(p');
    OwnPage(p);
    KidPages(p, i);
    PagesOfNode(p.kids[i]);
    forall q ensures q in Below(p') <==> q in Below(p) && q != p.kids[i].page {
      MergedBelow(p, i, q);
    }
  }

  lemma MergeUnshared(p: Tree, i: nat)
    requires MayMerge(p, i) && (p.kids[Left(i)].Leaf? <==> p.kids[Left(i) + 1].Leaf?) && Unshared(p)
    ensures Unshared(MergeChild(p, i))
  {
    hide Pages;
    var p' := MergeChild(p, i);
    forall k | 0 <= k < |p'.kids| ensures Unshared(p'.kids[k]) && p'.page !in Pages(p'.kids[k]) {
      MergedKid(p, i, k);
      if Len(p.kids[i]) > 0 && k == Left(i) {
        DisjointPages(p, k, k + 1);
        JoinUnshared(p'.kids[k].page, p.kids[k], p.kids[k + 1]);
      }
    }
    forall k, m | 0 <= k < m < |p'.kids| ensures Pages(p'.kids[k]) !! Pages(p'.kids[m]) {
      forall q | q in Pages(p'.kids[k]) && q in Pages(p'.kids[m]) ensures false {
        var a := MergedPage(p, i, k, q);
        var b := MergedPage(p, i, m, q);
        DisjointPages(p, a, b);
      }
    }
  }

  /** The old child a page of merged child k comes from. */
  lemma MergedPage(p: Tree, i: nat, k: nat, q: PageId) returns (u: nat)
    requires MayMerge(p, i) && (p.kids[Left(i)].Leaf? <==> p.kids[Left(i) + 1].Leaf?)
    requires k < |p.kids| - 1 && q in Pages(MergeChild(p, i).kids[k])
    ensures From(i, Len(p.kids[i]) == 0, k, u) && u < |p.kids| && q in Pages(p.kids[u])
  {
    hide Pages;
    MergedKid(p, i, k);
    var empty := Len(p.kids[i]) == 0;
    if !empty && k == Left(i) {
      JoinPages(p.kids[if i == 0 then 1 else Left(i)].page, p.kids[k], p.kids[k + 1]);
      PagesOfNode(p.kids[k]);
      PagesOfNode(p.kids[k + 1]);
      u := if q in Pages(p.kids[k]) then k else k + 1;
    } else {
      u := if empty then (if k < i then k else k + 1) else if k < Left(i) then k else k + 1;
    }
  }

  lemma MergedBelow(p: Tree, i: nat, q: PageId)
    requires MayMerge(p, i) && (p.kids[Left(i)].Leaf? <==> p.kids[Left(i) + 1].Leaf?) && Unshared(p)
    requires Len(p.kids[i]) == 0 ==> p.kids[i].Leaf?
    ensures q in Below(MergeChild(p, i)) <==> q in Below(p) && q != p.kids[i].page
  {
    hide Pages, Unshared;
    var p' := MergeChild(p, i);
    InPagesAll(p.kids, q);
    InPagesAll(p'.kids, q);
    if q in Below(p') {
      var k :| 0 <= k < |p'.kids| && q in Pages(p'.kids[k]);
      var u := MergedPage(p, i, k, q);
      assert q in Below(p);
      NotRemoved(p, i, k, q);
    }
    if q in Below(p) && q != p.kids[i].page {
      var u :| 0 <= u < |p.kids| && q in Pages(p.kids[u]);
      var k := MergedInto(p, i, u, q);
    }
  }

  /** The removed node's page is in no child of the merged parent. */
  lemma NotRemoved(p: Tree, i: nat, k: nat, q: PageId)
    requires MayMerge(p, i) && (p.kids[Left(i)].Leaf? <==> p.kids[Left(i) + 1].Leaf?) && Unshared(p)
    requires k < |p.kids| - 1 && q in Pages(MergeChild(p, i).kids[k])
    ensures q != p.kids[i].page
  {
    hide Pages, Unshared;
    PagesOfNode(p.kids[i]);
    MergedKid(p, i, k);
    if Len(p.kids[i]) > 0 && k == Left(i) {
      DisjointPages(p, k, k + 1);
      KidUnshared(p, k);
      KidUnshared(p, k + 1);
      JoinUnshared(p.kids[if i == 0 then 1 else Left(i)].page, p.kids[k], p.kids[k + 1]);
      PagesOfNode(p.kids[k]);
      PagesOfNode(p.kids[k + 1]);
    } else {
      var u := MergedPage(p, i, k, q);
      DisjointPages(p, u, i);
    }
  }

  lemma KidUnshared(t: Tree, i: nat)
    requires Unshared(t) && t.Branch? && i < |t.kids|
    ensures Unshared(t.kids[i])
  {
  }

  lemma MergedInto(p: Tree, i: nat, u: nat, q: PageId) returns (k: nat)
    requires MayMerge(p, i) && (p.kids[Left(i)].Leaf? <==> p.kids[Left(i) + 1].Leaf?)
    requires Len(p.kids[i]) == 0 ==> p.kids[i].Leaf?
    requires u < |p.kids| && q in Pages(p.kids[u]) && q != p.kids[i].page
    ensures k < |p.kids| - 1 && q in Pages(MergeChild(p, i).kids[k])
  {
    hide Pages;
    PagesOfNode(p.kids[i]);
    if Len(p.kids[i]) == 0 {
      assert u != i;
      k := if u < i then u else u - 1;
      MergedKid(p, i, k);
    } else {
      var l := Left(i);
      k := if u <= l then u else u - 1;
      MergedKid(p, i, k);
      if k == l {
        JoinPages(p.kids[if i == 0 then 1 else l].page, p.kids[l], p.kids[l + 1]);
        PagesOfNode(p.kids[l]);
        PagesOfNode(p.kids[l + 1]);
      }
    }
  }

  // ---------- merges anywhere in the tree, in any order ----------

  /** A merge of child i of the node reached by `path`. */
  datatype Merge = Merge(path: seq<nat>, i: nat)

  predicate Applies(t: Tree, path: seq<nat>, i: nat) {
    if path == [] then MayMerge(t, i)
    else t.Branch? && path[0] < |t.kids| && Applies(t.kids[path[0]], path[1..], i)
  }

  /** The node a merge removes. */
  function Removed(t: Tree, path: seq<nat>, i: nat): Tree
    requires Applies(t, path, i)
  {
    if path == [] then t.kids[i] else Removed(t.kids[path[0]], path[1..], i)
  }

  function MergeAt(t: Tree, path: seq<nat>, i: nat, ghost h: nat): Tree
    requires Applies(t, path, i) && Balanced(t, h)
  {
    if path == [] then
      MergeBalanced(t, i, h);
      MergeChild(t, i)
    else Branch(t.page, t.seps, t.kids[path[0] := MergeAt(t.kids[path[0]], path[1..], i, h - 1)])
  }

  /** Every sibling merge and every removal of an emptied leaf keeps the ordered leaves,
      the order of separators, the depth and full leaves, and loses one page. */
  lemma {:induction false} MergeKeeps(t: Tree, path: seq<nat>, i: nat, h: nat)
    requires Applies(t, path, i) && Balanced(t, h) && Staged(t) && Unshared(t)
    ensures var t' := MergeAt(t, path, i, h);
            && t'.page == t.page && Balanced(t', h) && Staged(t') && Unshared(t')
            && Flatten(t') == Flatten(t) && KeySet(t') <= KeySet(t)
            && (Full(t) ==> Full(t'))
            && Removed(t, path, i).page in Pages(t)
            && Pages(t') == Pages(t) - {Removed(t, path, i).page}
    decreases t
  {
    if path == [] {
      MergeBalanced(t, i, h);
      EmptyIsLeaf(t, i);
      MergeFlatten(t, i);
      MergeStaged(t, i);
      MergeKeySet(t, i);
      MergePages(t, i);
      KidPages(t, i);
      PagesOfNode(t);
      PagesOfNode(t.kids[i]);
    } else {
      var k := path[0];
      MergeKeeps(t.kids[k], path[1..], i, h - 1);
      var kid := MergeAt(t.kids[k], path[1..], i, h - 1);
      ReplaceStaged(t, k, kid);
      ReplaceFlatten(t, k, kid);
      ReplaceKeys(t, k, kid);
      ReplacePages(t, k, kid, Removed(t, path, i).page);
      ReplaceShape(t, k, kid, h);
    }
  }

  lemma EmptyIsLeaf(t: Tree, i: nat)
    requires Staged(t) && t.Branch? && i < |t.kids|
    ensures Len(t.kids[i]) == 0 ==> t.kids[i].Leaf? && Flatten(t.kids[i]) == []
  {
  }

  lemma ReplaceShape(t: Tree, k: nat, kid: Tree, h: nat)
    requires t.Branch? && k < |t.kids| && Balanced(t, h) && h > 0 && Balanced(kid, h - 1)
    requires Full(t) ==> Full(kid)
    ensures var t' := Branch(t.page, t.seps, t.kids[k := kid]); Balanced(t', h) && (Full(t) ==> Full(t'))
  {
  }

  lemma ReplaceFlatten(t: Tree, k: nat, kid: Tree)
    requires t.Branch? && k < |t.kids| && Flatten(kid) == Flatten(t.kids[k])
    ensures Flatten(Branch(t.page, t.seps, t.kids[k := kid])) == Flatten(t)
  {
    hide Flatten, FlattenAll;
    var kids := t.kids[k := kid];
    FlattenBranch(t);
    FlattenBranch(Branch(t.page, t.seps, kids));
    FlattenSplit(t.kids, k);
    FlattenSplit(kids, k);
    assert kids[..k] == t.kids[..k] && kids[k + 1..] == t.kids[k + 1..];
  }

  lemma ReplaceKeys(t: Tree, k: nat, kid: Tree)
    requires t.Branch? && k < |t.kids| && KeySet(kid) <= KeySet(t.kids[k])
    ensures KeySet(Branch(t.page, t.seps, t.kids[k := kid])) <= KeySet(t)
  {
    var kids := t.kids[k := kid];
    forall x | x in KeySetAll(kids) ensures x in KeySetAll(t.kids) {
      InKeySetAll(kids, x);
      var j :| 0 <= j < |kids| && x in KeySet(kids[j]);
      assert x in KeySet(t.kids[j]);
      InKeySetAll(t.kids, x);
    }
  }

  lemma ReplaceStaged(t: Tree, k: nat, kid: Tree)
    requires Staged(t) && t.Branch? && k < |t.kids| && Staged(kid) && KeySet(kid) <= KeySet(t.kids[k])
    ensures Staged(Branch(t.page, t.seps, t.kids[k := kid]))
  {
    hide Rank, KeySet;
    var kids := t.kids[k := kid];
    forall i, j | 0 <= i < j < |kids|
      ensures AllBelow(KeySet(kids[i]), t.seps[j]) && Precedes(KeySet(kids[i]), KeySet(kids[j]))
    {
      assert AllBelow(KeySet(t.kids[i]), t.seps[j]) && Precedes(KeySet(t.kids[i]), KeySet(t.kids[j]));
      assert KeySet(kids[i]) <= KeySet(t.kids[i]) && KeySet(kids[j]) <= KeySet(t.kids[j]);
    }
  }

  lemma ReplacePages(t: Tree, k: nat, kid: Tree, gone: PageId)
    requires Unshared(t) && t.Branch? && k < |t.kids| && Unshared(kid) && gone in Pages(t.kids[k])
    requires Pages(kid) == Pages(t.kids[k]) - {gone}
    ensures var t' := Branch(t.page, t.seps, t.kids[k := kid]);
            Unshared(t') && gone in Pages(t) && Pages(t') == Pages(t) - {gone}
  {
    hide Pages;
    var kids := t.kids[k := kid];
    var t' := Branch(t.page, t.seps, kids);
    PagesOfNode(t);
    PagesOfNode(t');
    KidPages(t, k);
    OwnPage(t);
    forall i, j | 0 <= i < j < |kids| ensures Pages(kids[i]) !! Pages(kids[j]) {
      DisjointPages(t, i, j);
    }
    forall q ensures q in Below(t') <==> q in Below(t) && q != gone {
      InPagesAll(t.kids, q);
      InPagesAll(kids, q);
      if j :| 0 <= j < |kids| && q in Pages(kids[j]) {
        assert q in Pages(t.kids[j]);
        if j != k {
          DisjointPages(t, j, k);
        }
      }
      if j :| 0 <= j < |t.kids| && q in Pages(t.kids[j]) && q != gone {
        assert q in Pages(kids[j]);
      }
    }
  }

  /** A run of merges, ending possibly with the promotion of a root's only child. */
  ghost predicate Runs(t: Tree, h: nat, steps: seq<Merge>, t': Tree, freed: set<PageId>)
    requires Balanced(t, h) && Staged(t) && Unshared(t)
    decreases |steps|, h
  {
    if steps == [] then
      || (t' == t && freed == {})
      || (t.Branch? && |t.kids| == 1 && freed == {t.page} && t' == t.kids[0])
    else
      && Applies(t, steps[0].path, steps[0].i)
      && (MergeKeeps(t, steps[0].path, steps[0].i, h);
          var gone := Removed(t, steps[0].path, steps[0].i).page;
          gone in freed && Runs(MergeAt(t, steps[0].path, steps[0].i, h), h, steps[1..], t', freed - {gone}))
  }

  /** Rebalancing, in whatever order nodes are visited, keeps the ordered leaves and frees
      exactly the pages of the nodes it removes. */
  lemma {:induction false} RebalanceKeeps(t: Tree, h: nat, steps: seq<Merge>, t': Tree, freed: set<PageId>)
    requires Balanced(t, h) && Staged(t) && Unshared(t) && Runs(t, h, steps, t', freed)
    ensures Flatten(t') == Flatten(t) && Staged(t') && Unshared(t')
    ensures Full(t) ==> Full(t')
    ensures freed <= Pages(t) && Pages(t') == Pages(t) - freed
    decreases |steps|
  {
    hide Flatten, Pages, Staged, Unshared, Full, Applies, Removed, MergeAt, Balanced;
    if steps == [] {
      if t' != t {
        PromoteKeeps(t);
      }
    } else {
      MergeKeeps(t, steps[0].path, steps[0].i, h);
      var gone := Removed(t, steps[0].path, steps[0].i).page;
      var t1 := MergeAt(t, steps[0].path, steps[0].i, h);
      RebalanceKeeps(t1, h, steps[1..], t', freed - {gone});
      assert freed <= Pages(t1) + {gone};
      assert Pages(t1) - (freed - {gone}) == Pages(t) - freed;
    }
  }

  lemma PromoteKeeps(t: Tree)
    requires t.Branch? && |t.kids| == 1 && Staged(t) && Unshared(t)
    ensures var kid := t.kids[0];
            && Flatten(kid) == Flatten(t) && Staged(kid) && Unshared(kid) && (Full(t) ==> Full(kid))
            && t.page in Pages(t) && Pages(kid) == Pages(t) - {t.page}
  {
    hide Flatten, Pages, KeySet;
    var kid := t.kids[0];
    FlattenOne(kid);
    FlattenBranch(t);
    assert t.kids == [kid];
    PagesOfNode(t);
    OwnPage(t);
    PagesOne(kid);
  }

  lemma PagesOne(t: Tree)
    ensures PagesAll([t]) == Pages(t)
  {
    assert PagesAll([t][1..]) == {};
  }
}
