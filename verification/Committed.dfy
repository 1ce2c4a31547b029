/** Trees as a commit leaves them: every separator is the first key below it.  Such a tree
    routes every key, and may be cut into several without losing an entry. */
module Committed {
  import opened Bytes
  import opened BTree
  import opened Traversal
  import opened Rebalance
  import S = Split

  predicate Keyed(t: Tree) {
    Len(t) > 0 && (t.Branch? ==> |t.seps| == |t.kids|)
  }

  /** `NodeData::first_key`, the key a parent records for a node. */
  function NodeKey(t: Tree): Key
    requires Keyed(t)
  {
    match t
    case Leaf(_, es) => es[0].key
    case Branch(_, seps, _) => seps[0]
  }

  function NodeKeys(ts: seq<Tree>): (ks: seq<Key>)
    requires forall i :: 0 <= i < |ts| ==> Keyed(ts[i])
    ensures |ks| == |ts| && forall i :: 0 <= i < |ts| ==> ks[i] == NodeKey(ts[i])
  {
    seq(|ts|, i requires 0 <= i < |ts| => NodeKey(ts[i]))
  }

  ghost predicate Tight(t: Tree) {
    match t
    case Leaf(_, es) => es != []
    case Branch(_, seps, kids) =>
      |seps| == |kids| && |kids| > 0 && forall i :: 0 <= i < |kids| ==> Tight(kids[i]) && Keyed(kids[i])
                                                                        && seps[i] == NodeKey(kids[i])
  }

  lemma {:induction false} TightFirst(t: Tree)
    requires Tight(t)
    ensures Keyed(t) && Flatten(t) != [] && Flatten(t)[0].key == NodeKey(t)
    decreases t
  {
    if t.Branch? {
      TightFirst(t.kids[0]);
      FlattenSplit(t.kids, 0);
      FlattenEmpty();
    }
  }

  lemma {:induction false} TightFull(t: Tree)
    requires Tight(t)
    ensures Full(t)
    decreases t
  {
    if t.Branch? {
      forall i | 0 <= i < |t.kids| ensures Full(t.kids[i]) {
        TightFull(t.kids[i]);
      }
    }
  }

  /** A tight tree has no key that is not some entry's. */
  lemma {:induction false} TightKeys(t: Tree, k: Key) returns (e: Entry)
    requires Tight(t) && k in KeySet(t)
    ensures e in Flatten(t) && e.key == k
    decreases t
  {
    if t.Leaf? {
      e :| e in t.entries && e.key == k;
    } else {
      var i: nat;
      if k in t.seps {
        i :| 0 <= i < |t.seps| && t.seps[i] == k;
        TightFirst(t.kids[i]);
        e := Flatten(t.kids[i])[0];
      } else {
        InKeySetAll(t.kids, k);
        i :| 0 <= i < |t.kids| && k in KeySet(t.kids[i]);
        e := TightKeys(t.kids[i], k);
      }
      InFlatten(t.kids, e);
    }
  }

  /** Where the entries of child i sit among the ordered leaves. */
  lemma KidEntries(kids: seq<Tree>, i: nat, j: nat, x: Entry, y: Entry)
    requires Sorted(FlattenAll(kids)) && i < j < |kids|
    requires x in Flatten(kids[i]) && y in Flatten(kids[j])
    ensures Less(x.key, y.key)
  {
    hide Rank, Flatten, FlattenAll, Sorted;
    FlattenSplit(kids, i);
    InFlatten(kids[i + 1..], y);
    assert kids[i + 1..][j - i - 1] == kids[j];
    InOrder(FlattenAll(kids[..i]), Flatten(kids[i]), FlattenAll(kids[i + 1..]), x, y);
  }

  lemma InOrder(a: seq<Entry>, b: seq<Entry>, c: seq<Entry>, x: Entry, y: Entry)
    requires Sorted(a + b + c) && x in b && y in c
    ensures Less(x.key, y.key)
  {
    hide Rank;
    var m, n :| 0 <= m < |b| && b[m] == x && 0 <= n < |c| && c[n] == y;
    assert (a + b + c)[|a| + m] == x && (a + b + c)[|a| + |b| + n] == y;
  }

  lemma KidSorted(kids: seq<Tree>, i: nat)
    requires Sorted(FlattenAll(kids)) && i < |kids|
    ensures Sorted(Flatten(kids[i]))
  {
    hide Rank, Flatten, FlattenAll;
    FlattenSplit(kids, i);
    var a, b := FlattenAll(kids[..i]), Flatten(kids[i]);
    forall m, n | 0 <= m < n < |b| ensures Less(b[m].key, b[n].key) {
      assert FlattenAll(kids)[|a| + m] == b[m] && FlattenAll(kids)[|a| + n] == b[n];
    }
  }

  lemma FirstLeast(es: seq<Entry>, e: Entry)
    requires Sorted(es) && e in es
    ensures !Less(e.key, es[0].key)
  {
  }

  ghost predicate AllTight(ts: seq<Tree>) {
    forall i :: 0 <= i < |ts| ==> Tight(ts[i]) && Keyed(ts[i])
  }

  /** Nodes over ordered leaves have ordered first keys. */
  lemma FirstKeysSorted(ts: seq<Tree>)
    requires AllTight(ts) && Sorted(FlattenAll(ts))
    ensures SortedKeys(NodeKeys(ts))
  {
    hide Rank, Flatten, FlattenAll, Tight, NodeKey, Keyed;
    var ks := NodeKeys(ts);
    forall i, j | 0 <= i < j < |ks| ensures Less(ks[i], ks[j]) {
      TightFirst(ts[i]);
      TightFirst(ts[j]);
      KidEntries(ts, i, j, Flatten(ts[i])[0], Flatten(ts[j])[0]);
    }
  }

  lemma KidBelow(kids: seq<Tree>, i: nat, k: Key)
    requires AllTight(kids) && Sorted(FlattenAll(kids)) && i + 1 < |kids| && k in KeySet(kids[i])
    ensures Less(k, NodeKey(kids[i + 1]))
  {
    hide Rank, Flatten, FlattenAll, Tight, NodeKey, Keyed, KeySet;
    var e := TightKeys(kids[i], k);
    TightFirst(kids[i + 1]);
    KidEntries(kids, i, i + 1, e, Flatten(kids[i + 1])[0]);
  }

  lemma KidFrom(t: Tree, k: Key)
    requires Tight(t) && Keyed(t) && Sorted(Flatten(t)) && k in KeySet(t)
    ensures !Less(k, NodeKey(t))
  {
    hide Rank, Flatten, Tight, NodeKey, Keyed, KeySet;
    var e := TightKeys(t, k);
    TightFirst(t);
    FirstLeast(Flatten(t), e);
  }

  /** A tight tree over ordered leaves routes every key to its leaf. */
  lemma {:induction false} TightRoutable(t: Tree)
    requires Tight(t) && Sorted(Flatten(t))
    ensures Routable(t)
    decreases t
  {
    if t.Branch? {
      hide Rank, Flatten, FlattenAll, KeySet, Keyed, NodeKey;
      FlattenBranch(t);
      assert t.seps == NodeKeys(t.kids);
      FirstKeysSorted(t.kids);
      forall i | 0 <= i < |t.kids| ensures Routable(t.kids[i]) && AllFrom(KeySet(t.kids[i]), t.seps[i]) {
        KidSorted(t.kids, i);
        TightRoutable(t.kids[i]);
        forall k | k in KeySet(t.kids[i]) ensures !Less(k, t.seps[i]) {
          KidFrom(t.kids[i], k);
        }
      }
      forall i | 0 <= i < |t.kids| - 1 ensures AllBelow(KeySet(t.kids[i]), t.seps[i + 1]) {
        forall k | k in KeySet(t.kids[i]) ensures Less(k, t.seps[i + 1]) {
          KidBelow(t.kids, i, k);
        }
      }
    }
  }

  // ---------- sizes and cuts ----------

  const LEAF_SIZE := 32
  const BRANCH_SIZE := 24
  const META_SIZE := 16

  function EntrySize(e: Entry): nat {
    LEAF_SIZE + |e.key| + match e.datum
                          case Kv(v) => |v|
                          case Sub(_, _) => META_SIZE
  }

  function Sizes(t: Tree): (s: seq<nat>)
    requires t.Branch? ==> |t.seps| == |t.kids|
    ensures |s| == Len(t)
  {
    match t
    case Leaf(_, es) => seq(|es|, i requires 0 <= i < |es| => EntrySize(es[i]))
    case Branch(_, seps, _) => seq(|seps|, i requires 0 <= i < |seps| => BRANCH_SIZE + |seps[i]|)
  }

  /** Elements a .. b of a node, under another page. */
  function Slice(t: Tree, page: PageId, a: nat, b: nat): (s: Tree)
    requires (t.Branch? ==> |t.seps| == |t.kids|) && a <= b <= Len(t)
    ensures s.page == page && Len(s) == b - a && (s.Branch? ==> |s.seps| == |s.kids|) && (s.Leaf? <==> t.Leaf?)
  {
    match t
    case Leaf(_, es) => Leaf(page, es[a..b])
    case Branch(_, seps, kids) => Branch(page, seps[a..b], kids[a..b])
  }

  /** The nodes a cut leaves, each under its own page. */
  ghost predicate IsCut(t: Tree, cuts: seq<nat>, pages: seq<PageId>, out: seq<Tree>) {
    && (t.Branch? ==> |t.seps| == |t.kids|)
    && (cuts == [] || S.Cuts(cuts, Len(t)))
    && |out| == |pages| == |cuts| + 1
    && forall k :: 0 <= k < |out| ==>
         && S.Start(cuts, k) <= S.End(cuts, Len(t), k) <= Len(t)
         && out[k] == Slice(t, pages[k], S.Start(cuts, k), S.End(cuts, Len(t), k))
  }

  lemma SliceOfSlice(t: Tree, p: PageId, q: PageId, n: nat, a: nat, b: nat)
    requires (t.Branch? ==> |t.seps| == |t.kids|) && a <= b <= n <= Len(t)
    ensures Slice(Slice(t, p, 0, n), q, a, b) == Slice(t, q, a, b)
  {
    if t.Leaf? {
      assert t.entries[0..n][a..b] == t.entries[a..b];
    } else {
      assert t.seps[0..n][a..b] == t.seps[a..b];
      assert t.kids[0..n][a..b] == t.kids[a..b];
    }
  }

  lemma SliceAll(t: Tree, p: PageId)
    requires t.Branch? ==> |t.seps| == |t.kids|
    ensures Slice(t, p, 0, Len(t)) == t.(page := p)
  {
    if t.Leaf? {
      assert t.entries[0..Len(t)] == t.entries;
    } else {
      assert t.seps[0..Len(t)] == t.seps && t.kids[0..Len(t)] == t.kids;
    }
  }

  /** The loop of `split`: chunks are broken off from the right, the first one stays. */
  method CutNode(t: Tree, cuts: seq<nat>) returns (pieces: seq<Tree>)
    requires (t.Branch? ==> |t.seps| == |t.kids|) && (cuts == [] || S.Cuts(cuts, Len(t)))
    ensures |pieces| == |cuts| + 1
    ensures IsCut(t, cuts, seq(|pieces|, _ => 0), pieces)
  {
    hide Slice, Len, S.Cuts, CutFrom;
    S.CutsInside(cuts, Len(t));
    SliceAll(t, 0);
    var rest := t.(page := 0);
    pieces := [];
    NothingCut(t, cuts);
    for m := |cuts| downto 0
      invariant rest == Slice(t, 0, 0, S.End(cuts, Len(t), m))
      invariant CutFrom(t, cuts, m, pieces)
    {
      CutMore(t, cuts, m, pieces);
      pieces := [Slice(rest, 0, cuts[m], Len(rest))] + pieces;
      rest := Slice(rest, 0, 0, cuts[m]);
    }
    CutWhole(t, cuts, pieces);
    pieces := [rest] + pieces;
  }

  /** The pieces after the m-th cut. */
  ghost predicate CutFrom(t: Tree, cuts: seq<nat>, m: nat, pieces: seq<Tree>)
    requires (t.Branch? ==> |t.seps| == |t.kids|) && m <= |cuts|
  {
    && (forall k :: 0 <= k <= |cuts| ==> S.Start(cuts, k) <= S.End(cuts, Len(t), k) <= Len(t))
    && |pieces| == |cuts| - m
    && forall k :: 0 <= k < |pieces| ==>
         pieces[k] == Slice(t, 0, S.Start(cuts, m + 1 + k), S.End(cuts, Len(t), m + 1 + k))
  }

  lemma NothingCut(t: Tree, cuts: seq<nat>)
    requires (t.Branch? ==> |t.seps| == |t.kids|)
    requires forall k :: 0 <= k <= |cuts| ==> S.Start(cuts, k) <= S.End(cuts, Len(t), k) <= Len(t)
    ensures CutFrom(t, cuts, |cuts|, [])
  {
  }

  lemma CutMore(t: Tree, cuts: seq<nat>, m: nat, pieces: seq<Tree>)
    requires (t.Branch? ==> |t.seps| == |t.kids|) && m < |cuts| && CutFrom(t, cuts, m + 1, pieces)
    ensures cuts[m] <= S.End(cuts, Len(t), m + 1) <= Len(t)
    ensures var rest := Slice(t, 0, 0, S.End(cuts, Len(t), m + 1));
            && (rest.Branch? ==> |rest.seps| == |rest.kids|) && cuts[m] <= Len(rest)
            && CutFrom(t, cuts, m, [Slice(rest, 0, cuts[m], Len(rest))] + pieces)
            && Slice(rest, 0, 0, cuts[m]) == Slice(t, 0, 0, S.End(cuts, Len(t), m))
  {
    hide Slice;
    var i, n := cuts[m], S.End(cuts, Len(t), m + 1);
    assert S.Start(cuts, m + 1) == i == S.End(cuts, Len(t), m);
    SliceOfSlice(t, 0, 0, n, i, n);
    SliceOfSlice(t, 0, 0, n, 0, i);
    SliceLen(t, 0, n);
    var more := [Slice(Slice(t, 0, 0, n), 0, i, n)] + pieces;
    forall k | 0 <= k < |more|
      ensures more[k] == Slice(t, 0, S.Start(cuts, m + 1 + k), S.End(cuts, Len(t), m + 1 + k))
    {
      assert k > 0 ==> more[k] == pieces[k - 1];
    }
  }

  lemma CutWhole(t: Tree, cuts: seq<nat>, pieces: seq<Tree>)
    requires (t.Branch? ==> |t.seps| == |t.kids|) && (cuts == [] || S.Cuts(cuts, Len(t))) && CutFrom(t, cuts, 0, pieces)
    ensures var all := [Slice(t, 0, 0, S.End(cuts, Len(t), 0))] + pieces; IsCut(t, cuts, seq(|all|, _ => 0), all)
  {
    hide Slice, S.Cuts;
    var all := [Slice(t, 0, 0, S.End(cuts, Len(t), 0))] + pieces;
    forall k | 0 <= k < |all| ensures all[k] == Slice(t, 0, S.Start(cuts, k), S.End(cuts, Len(t), k)) {
      assert k > 0 ==> all[k] == pieces[k - 1];
    }
  }

  lemma SliceLen(t: Tree, a: nat, b: nat)
    requires (t.Branch? ==> |t.seps| == |t.kids|) && a <= b <= Len(t)
    ensures var s := Slice(t, 0, a, b); Len(s) == b - a && (s.Branch? ==> |s.seps| == |s.kids|)
  {
  }

  lemma SliceSplit<T>(s: seq<T>, a: nat, b: nat, c: nat)
    requires a <= b <= c <= |s|
    ensures s[a..c] == s[a..b] + s[b..c]
  {
  }

  lemma SliceFlatten(t: Tree, page: PageId, a: nat, b: nat, c: nat)
    requires (t.Branch? ==> |t.seps| == |t.kids|) && a <= b <= c <= Len(t)
    ensures Flatten(Slice(t, page, a, c)) == Flatten(Slice(t, page, a, b)) + Flatten(Slice(t, page, b, c))
  {
    if t.Leaf? {
      SliceSplit(t.entries, a, b, c);
    }
    if t.Branch? {
      SliceSplit(t.kids, a, b, c);
      FlattenAppend(t.kids[a..b], t.kids[b..c]);
    }
  }

  lemma SlicePage(t: Tree, p: PageId, q: PageId, a: nat, b: nat)
    requires (t.Branch? ==> |t.seps| == |t.kids|) && a <= b <= Len(t)
    ensures Flatten(Slice(t, p, a, b)) == Flatten(Slice(t, q, a, b))
  {
  }

  lemma {:induction false} CutPrefix(t: Tree, cuts: seq<nat>, pages: seq<PageId>, out: seq<Tree>, k: nat)
    requires IsCut(t, cuts, pages, out) && k <= |out|
    ensures var n := if k == 0 then 0 else S.End(cuts, Len(t), k - 1);
            n <= Len(t) && FlattenAll(out[..k]) == Flatten(Slice(t, 0, 0, n))
  {
    hide Flatten, FlattenAll, Slice;
    if k == 0 {
      FlattenEmpty();
      EmptySlice(t);
      assert out[..0] == [];
    } else {
      CutPrefix(t, cuts, pages, out, k - 1);
      FlattenSplit(out[..k], k - 1);
      assert out[..k][..k - 1] == out[..k - 1] && out[..k][k..] == [];
      FlattenEmpty();
      var a, b := S.Start(cuts, k - 1), S.End(cuts, Len(t), k - 1);
      SliceFlatten(t, 0, 0, a, b);
      SlicePage(t, 0, pages[k - 1], a, b);
    }
  }

  lemma EmptySlice(t: Tree)
    requires t.Branch? ==> |t.seps| == |t.kids|
    ensures Flatten(Slice(t, 0, 0, 0)) == []
  {
  }

  /** Cutting a node keeps its leaves. */
  lemma CutFlatten(t: Tree, cuts: seq<nat>, pages: seq<PageId>, out: seq<Tree>)
    requires IsCut(t, cuts, pages, out)
    ensures FlattenAll(out) == Flatten(t)
  {
    hide Flatten, FlattenAll;
    CutPrefix(t, cuts, pages, out, |out|);
    assert out[..|out|] == out;
    WholeSlice(t);
  }

  lemma WholeSlice(t: Tree)
    requires t.Branch? ==> |t.seps| == |t.kids|
    ensures Flatten(Slice(t, 0, 0, Len(t))) == Flatten(t)
  {
    if t.Branch? {
      assert t.kids[0..Len(t)] == t.kids;
    } else {
      assert t.entries[0..Len(t)] == t.entries;
    }
  }

  lemma CutTight(t: Tree, cuts: seq<nat>, pages: seq<PageId>, out: seq<Tree>)
    requires IsCut(t, cuts, pages, out) && Tight(t)
    ensures forall k :: 0 <= k < |out| ==> Tight(out[k])
  {
    forall k | 0 <= k < |out| ensures Tight(out[k]) {
      SliceTight(t, pages[k], S.Start(cuts, k), S.End(cuts, Len(t), k));
    }
  }

  lemma SliceTight(t: Tree, page: PageId, a: nat, b: nat)
    requires Tight(t) && a < b <= Len(t)
    ensures Tight(Slice(t, page, a, b))
  {
  }
}
