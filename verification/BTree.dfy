/** The B+ tree of one bucket, as a value, and what its pages mean. */
module BTree {
  import opened Bytes

  type PageId = nat
  type Key = Bytes


  /** A leaf element's payload: a value, or the metadata of a nested bucket. */
  datatype Datum = Kv(value: Bytes) | Sub(rootPage: PageId, nextInt: nat)
  datatype Entry = Entry(key: Key, datum: Datum)

  /** The elements of one branch or leaf page. */
  datatype PageData = Leaves(entries: seq<Entry>) | Branches(seps: seq<Key>, pages: seq<PageId>)

  datatype Tree =
    | Leaf(page: PageId, entries: seq<Entry>)
    | Branch(page: PageId, seps: seq<Key>, kids: seq<Tree>)

  // ---------- key sequences ----------

  ghost predicate SortedKeys(ks: seq<Key>) {
    forall i, j :: 0 <= i < j < |ks| ==> Less(ks[i], ks[j])
  }

  ghost predicate Sorted(es: seq<Entry>) {
    forall i, j :: 0 <= i < j < |es| ==> Less(es[i].key, es[j].key)
  }

  function KeysOf(es: seq<Entry>): (ks: seq<Key>)
    ensures |ks| == |es| && forall i :: 0 <= i < |es| ==> ks[i] == es[i].key
  {
    seq(|es|, i requires 0 <= i < |es| => es[i].key)
  }

  /** How many leading keys are below `key`: the insertion point of a binary search. */
  function Lower(ks: seq<Key>, key: Key): (i: nat)
    ensures i <= |ks|
    ensures forall k :: 0 <= k < i ==> Less(ks[k], key)
    ensures i < |ks| ==> !Less(ks[i], key)
  {
    if ks == [] || !Less(ks[0], key) then 0 else 1 + Lower(ks[1..], key)
  }

  predicate Hit(ks: seq<Key>, key: Key) {
    var i := Lower(ks, key);
    i < |ks| && ks[i] == key
  }

  /** `PageNode::index`: the match, or the element just before the missing key. */
  function Index(ks: seq<Key>, key: Key): (i: nat)
    ensures ks != [] ==> i < |ks|
  {
    var i := Lower(ks, key);
    if Hit(ks, key) || i == 0 then i else i - 1
  }

  lemma LowerSplits(ks: seq<Key>, key: Key)
    requires SortedKeys(ks)
    ensures forall k :: Lower(ks, key) <= k < |ks| ==> !Less(ks[k], key)
    ensures Hit(ks, key) <==> key in ks
  {
    RankInjective();
    var i := Lower(ks, key);
    if key in ks {
      var k :| 0 <= k < |ks| && ks[k] == key;
      assert i <= k;
    }
  }

  /** Everything before the indexed element is smaller, everything after it larger. */
  lemma IndexBounds(ks: seq<Key>, key: Key)
    requires SortedKeys(ks) && ks != []
    ensures var i := Index(ks, key);
            && (i > 0 ==> !Less(key, ks[i]))
            && (i + 1 < |ks| ==> Less(key, ks[i + 1]))
  {
    LowerSplits(ks, key);
    RankInjective();
  }

  lemma LowerAt(ks: seq<Key>, key: Key, i: nat)
    requires i <= |ks|
    requires forall k :: 0 <= k < i ==> Less(ks[k], key)
    requires i < |ks| ==> !Less(ks[i], key)
    ensures Lower(ks, key) == i
  {
  }

  // ---------- contents ----------

  ghost function Flatten(t: Tree): seq<Entry>
    decreases t, 1
  {
    match t
    case Leaf(_, es) => es
    case Branch(_, _, kids) => FlattenAll(kids)
  }

  ghost function FlattenAll(ts: seq<Tree>): seq<Entry>
    decreases ts, 0
  {
    if ts == [] then [] else Flatten(ts[0]) + FlattenAll(ts[1..])
  }

  lemma {:induction false} FlattenAppend(a: seq<Tree>, b: seq<Tree>)
    ensures FlattenAll(a + b) == FlattenAll(a) + FlattenAll(b)
  {
    hide Flatten, FlattenAll;
    if a == [] {
      assert a + b == b;
      FlattenEmpty();
    } else {
      FlattenAppend(a[1..], b);
      FlattenFirst(a);
      FlattenFirst(a + b);
      assert (a + b)[1..] == a[1..] + b;
      JoinThree(Flatten(a[0]), FlattenAll(a[1..]), FlattenAll(b));
    }
  }

  lemma FlattenFirst(ts: seq<Tree>)
    requires ts != []
    ensures FlattenAll(ts) == Flatten(ts[0]) + FlattenAll(ts[1..])
  {
  }

  lemma JoinThree<T>(a: seq<T>, b: seq<T>, c: seq<T>)
    ensures (a + b) + c == a + (b + c)
  {
  }

  lemma FlattenOne(t: Tree)
    ensures FlattenAll([t]) == Flatten(t)
  {
    assert FlattenAll([t][1..]) == [];
  }

  lemma FlattenSplit(ts: seq<Tree>, i: nat)
    requires i < |ts|
    ensures FlattenAll(ts) == FlattenAll(ts[..i]) + Flatten(ts[i]) + FlattenAll(ts[i + 1..])
  {
    hide Flatten, FlattenAll;
    SplitAt(ts, i);
    FlattenAppend(ts[..i], ts[i..]);
    FlattenFirst(ts[i..]);
    JoinThree(FlattenAll(ts[..i]), Flatten(ts[i]), FlattenAll(ts[i + 1..]));
  }

  lemma SplitAt<T>(s: seq<T>, i: nat)
    requires i < |s|
    ensures s == s[..i] + s[i..] && s[i..][0] == s[i] && s[i..][1..] == s[i + 1..]
  {
  }

  /** Two neighbours among the trees. */
  lemma FlattenPair(ts: seq<Tree>, l: nat)
    requires l + 1 < |ts|
    ensures FlattenAll(ts) == FlattenAll(ts[..l]) + (Flatten(ts[l]) + Flatten(ts[l + 1])) + FlattenAll(ts[l + 2..])
  {
    hide Flatten, FlattenAll;
    FlattenSplit(ts, l);
    SplitAt(ts, l + 1);
    FlattenFirst(ts[l + 1..]);
    FourParts(FlattenAll(ts[..l]), Flatten(ts[l]), Flatten(ts[l + 1]), FlattenAll(ts[l + 2..]));
  }

  lemma FourParts<T>(a: seq<T>, b: seq<T>, c: seq<T>, d: seq<T>)
    ensures (a + b) + (c + d) == a + (b + c) + d
  {
  }

  lemma Regroup<T>(a: seq<T>, b: seq<T>, c: seq<T>, d: seq<T>, e: seq<T>)
    ensures a + (b + c + d) + e == (a + b) + c + (d + e)
  {
  }

  lemma {:induction false} InFlatten(ts: seq<Tree>, e: Entry)
    ensures e in FlattenAll(ts) <==> exists i :: 0 <= i < |ts| && e in Flatten(ts[i])
  {
    if ts != [] {
      InFlatten(ts[1..], e);
      if i :| 0 <= i < |ts| && e in Flatten(ts[i]) {
        assert i > 0 ==> ts[1..][i - 1] == ts[i];
      }
      if e in FlattenAll(ts[1..]) {
        var i :| 0 <= i < |ts[1..]| && e in Flatten(ts[1..][i]);
        assert ts[i + 1] == ts[1..][i];
      }
    }
  }

  /** The sorted map a tree stands for. */
  ghost function ToMap(es: seq<Entry>): map<Key, Datum> {
    if es == [] then map[] else ToMap(es[..|es| - 1])[es[|es| - 1].key := es[|es| - 1].datum]
  }

  ghost function Contents(t: Tree): map<Key, Datum> {
    ToMap(Flatten(t))
  }

  lemma {:induction false} ToMapContents(es: seq<Entry>)
    requires Sorted(es)
    ensures forall k :: k in ToMap(es) <==> exists i :: 0 <= i < |es| && es[i].key == k
    ensures forall i :: 0 <= i < |es| ==> ToMap(es)[es[i].key] == es[i].datum
  {
    if es != [] {
      var front, last := es[..|es| - 1], es[|es| - 1];
      ToMapContents(front);
      forall k ensures k in ToMap(es) <==> exists i :: 0 <= i < |es| && es[i].key == k {
        if i :| 0 <= i < |es| && es[i].key == k {
          assert i < |front| ==> front[i].key == k;
        }
        if k in ToMap(front) {
          var i :| 0 <= i < |front| && front[i].key == k;
          assert es[i].key == k;
        }
        assert es[|es| - 1].key == last.key;
      }
      forall i | 0 <= i < |es| ensures ToMap(es)[es[i].key] == es[i].datum {
        if i < |front| {
          assert front[i] == es[i];
          assert Less(es[i].key, last.key);
        }
      }
    }
  }

  // ---------- order ----------

  /** Every key in the tree: its entries' keys and its separators. */
  ghost function KeySet(t: Tree): set<Key>
    decreases t, 1
  {
    match t
    case Leaf(_, es) => set e | e in es :: e.key
    case Branch(_, seps, kids) => (set k | k in seps) + KeySetAll(kids)
  }

  ghost function KeySetAll(ts: seq<Tree>): set<Key>
    decreases ts, 0
  {
    if ts == [] then {} else KeySet(ts[0]) + KeySetAll(ts[1..])
  }

  lemma {:induction false} InKeySetAll(ts: seq<Tree>, k: Key)
    ensures k in KeySetAll(ts) <==> exists i :: 0 <= i < |ts| && k in KeySet(ts[i])
  {
    if ts != [] {
      InKeySetAll(ts[1..], k);
      if i :| 0 <= i < |ts| && k in KeySet(ts[i]) {
        assert i > 0 ==> ts[1..][i - 1] == ts[i];
      }
      if k in KeySetAll(ts[1..]) {
        var i :| 0 <= i < |ts[1..]| && k in KeySet(ts[1..][i]);
        assert ts[i + 1] == ts[1..][i];
      }
    }
  }

  lemma {:induction false} FlattenKeys(t: Tree, e: Entry)
    requires e in Flatten(t)
    ensures e.key in KeySet(t)
    decreases t
  {
    match t
    case Leaf(_, es) =>
    case Branch(_, seps, kids) =>
      InFlatten(kids, e);
      var i :| 0 <= i < |kids| && e in Flatten(kids[i]);
      FlattenKeys(kids[i], e);
      InKeySetAll(kids, e.key);
  }

  ghost predicate AllBelow(ks: set<Key>, bound: Key) {
    forall k :: k in ks ==> Less(k, bound)
  }

  ghost predicate AllFrom(ks: set<Key>, bound: Key) {
    forall k :: k in ks ==> !Less(k, bound)
  }

  ghost predicate Precedes(a: set<Key>, b: set<Key>) {
    forall k, l :: k in a && l in b ==> Less(k, l)
  }

  /** Separators route every key to the child that may hold it; the first child also
      takes everything below its separator. */
  ghost predicate Routable(t: Tree) {
    match t
    case Leaf(_, es) => Sorted(es)
    case Branch(_, seps, kids) =>
      && |seps| == |kids| && |kids| > 0 && SortedKeys(seps)
      && (forall i :: 0 <= i < |kids| ==> Routable(kids[i]))
      && (forall i :: 0 <= i < |kids| - 1 ==> AllBelow(KeySet(kids[i]), seps[i + 1]))
      && (forall i :: 0 < i < |kids| ==> AllFrom(KeySet(kids[i]), seps[i]))
  }

  // ---------- routing ----------

  ghost function Route(t: Tree, key: Key): Tree
  {
    match t
    case Leaf(_, _) => t
    case Branch(_, seps, kids) =>
      if Index(seps, key) < |kids| then Route(kids[Index(seps, key)], key) else t
  }

  /** The same tree with the entries of the routed leaf replaced. */
  ghost function SetLeaf(t: Tree, key: Key, es: seq<Entry>): Tree
  {
    match t
    case Leaf(p, _) => Leaf(p, es)
    case Branch(p, seps, kids) =>
      var i := Index(seps, key);
      if i < |kids| then Branch(p, seps, kids[i := SetLeaf(kids[i], key, es)]) else t
  }

  ghost function Before(t: Tree, key: Key): seq<Entry>
  {
    match t
    case Leaf(_, _) => []
    case Branch(_, seps, kids) =>
      var i := Index(seps, key);
      if i < |kids| then FlattenAll(kids[..i]) + Before(kids[i], key) else []
  }

  ghost function After(t: Tree, key: Key): seq<Entry>
  {
    match t
    case Leaf(_, _) => []
    case Branch(_, seps, kids) =>
      var i := Index(seps, key);
      if i < |kids| then After(kids[i], key) + FlattenAll(kids[i + 1..]) else []
  }

  /** Flattening splits around the routed leaf, before and after an edit of it. */
  lemma {:induction false} RouteSplits(t: Tree, key: Key, es: seq<Entry>)
    requires Routable(t)
    ensures Route(t, key).Leaf?
    ensures Flatten(t) == Before(t, key) + Route(t, key).entries + After(t, key)
    ensures Flatten(SetLeaf(t, key, es)) == Before(t, key) + es + After(t, key)
    decreases t
  {
    match t
    case Leaf(_, _) =>
    case Branch(p, seps, kids) =>
      RouteSplits(kids[Index(seps, key)], key, es);
      RouteStep(t, key, es);
  }

  lemma RouteStep(t: Tree, key: Key, es: seq<Entry>)
    requires t.Branch? && Index(t.seps, key) < |t.kids|
    requires var kid := t.kids[Index(t.seps, key)];
             && Route(kid, key).Leaf?
             && Flatten(kid) == Before(kid, key) + Route(kid, key).entries + After(kid, key)
             && Flatten(SetLeaf(kid, key, es)) == Before(kid, key) + es + After(kid, key)
    ensures Flatten(t) == Before(t, key) + Route(t, key).entries + After(t, key)
    ensures Flatten(SetLeaf(t, key, es)) == Before(t, key) + es + After(t, key)
  {
    var i := Index(t.seps, key);
    var kid, kids' := t.kids[i], t.kids[i := SetLeaf(t.kids[i], key, es)];
    FlattenSplit(t.kids, i);
    FlattenSplit(kids', i);
    assert kids'[..i] == t.kids[..i] && kids'[i + 1..] == t.kids[i + 1..];
    var a, b, d, e := FlattenAll(t.kids[..i]), Before(kid, key), After(kid, key), FlattenAll(t.kids[i + 1..]);
    assert Before(t, key) == a + b && After(t, key) == d + e;
    assert Flatten(t) == FlattenAll(t.kids) && Flatten(SetLeaf(t, key, es)) == FlattenAll(kids');
    hide Flatten, FlattenAll, Before, After, SetLeaf, Index;
    Regroup(a, b, Route(kid, key).entries, d, e);
    Regroup(a, b, es, d, e);
  }

  /** Entries left of the routed leaf are below the key, entries right of it above. */
  lemma {:induction false} RouteBounds(t: Tree, key: Key)
    requires Routable(t)
    ensures forall e :: e in Before(t, key) ==> Less(e.key, key)
    ensures forall e :: e in After(t, key) ==> Less(key, e.key)
    decreases t
  {
    match t
    case Leaf(_, _) =>
    case Branch(p, seps, kids) =>
      RouteBounds(kids[Index(seps, key)], key);
      LeftBound(t, key);
      RightBound(t, key);
  }

  lemma LeftBound(t: Tree, key: Key)
    requires Routable(t) && t.Branch?
    ensures forall e :: e in FlattenAll(t.kids[..Index(t.seps, key)]) ==> Less(e.key, key)
  {
    hide Rank, Flatten, FlattenAll, KeySet, Index;
    var i := Index(t.seps, key);
    IndexBounds(t.seps, key);
    forall e | e in FlattenAll(t.kids[..i]) ensures Less(e.key, key) {
      InFlatten(t.kids[..i], e);
      var j :| 0 <= j < i && e in Flatten(t.kids[..i][j]);
      FlattenKeys(t.kids[j], e);
      assert AllBelow(KeySet(t.kids[j]), t.seps[j + 1]);
      assert j + 1 == i || Less(t.seps[j + 1], t.seps[i]);
    }
  }

  lemma RightBound(t: Tree, key: Key)
    requires Routable(t) && t.Branch?
    ensures forall e :: e in FlattenAll(t.kids[Index(t.seps, key) + 1..]) ==> Less(key, e.key)
  {
    hide Rank, Flatten, FlattenAll, KeySet, Index;
    var i := Index(t.seps, key);
    IndexBounds(t.seps, key);
    forall e | e in FlattenAll(t.kids[i + 1..]) ensures Less(key, e.key) {
      InFlatten(t.kids[i + 1..], e);
      var j :| 0 <= j < |t.kids| - i - 1 && e in Flatten(t.kids[i + 1..][j]);
      FlattenKeys(t.kids[i + 1 + j], e);
      assert AllFrom(KeySet(t.kids[i + 1 + j]), t.seps[i + 1 + j]);
      assert j == 0 || Less(t.seps[i + 1], t.seps[i + 1 + j]);
    }
  }

  lemma {:induction false} RouteLeafSorted(t: Tree, key: Key)
    requires Routable(t)
    ensures Route(t, key).Leaf? && Sorted(Route(t, key).entries)
    decreases t
  {
    match t
    case Leaf(_, _) =>
    case Branch(p, seps, kids) => RouteLeafSorted(kids[Index(seps, key)], key);
  }

  lemma SortedAppend(a: seq<Entry>, b: seq<Entry>)
    requires Sorted(a) && Sorted(b)
    requires forall x, y :: x in a && y in b ==> Less(x.key, y.key)
    ensures Sorted(a + b)
  {
    forall i, j | 0 <= i < j < |a + b| ensures Less((a + b)[i].key, (a + b)[j].key) {
      if i < |a| <= j {
        assert a[i] in a && b[j - |a|] in b;
      }
    }
  }

  lemma {:induction false} RoutableSorted(t: Tree)
    requires Routable(t)
    ensures Sorted(Flatten(t))
    decreases t, 1
  {
    match t
    case Leaf(_, _) =>
    case Branch(p, seps, kids) =>
      RoutableSortedAll(t, |kids|);
      assert kids[..|kids|] == kids;
  }

  lemma {:induction false} RoutableSortedAll(t: Tree, n: nat)
    requires Routable(t) && t.Branch? && n <= |t.kids|
    ensures Sorted(FlattenAll(t.kids[..n]))
    decreases t, 0, n
  {
    hide Flatten, FlattenAll, Rank, KeySet;
    assert t.kids[..0] == [];
    FlattenEmpty();
    if n > 0 {
      var kids := t.kids;
      RoutableSortedAll(t, n - 1);
      RoutableSorted(kids[n - 1]);
      FlattenSplit(kids[..n], n - 1);
      assert kids[..n][..n - 1] == kids[..n - 1] && kids[..n][n..] == [];
      forall x, y | x in FlattenAll(kids[..n - 1]) && y in Flatten(kids[n - 1]) ensures Less(x.key, y.key) {
        EarlierKid(t, n - 1, x, y);
      }
      SortedAppend(FlattenAll(kids[..n - 1]), Flatten(kids[n - 1]));
      assert FlattenAll(kids[..n]) == FlattenAll(kids[..n - 1]) + Flatten(kids[n - 1]);
    }
  }

  lemma FlattenEmpty()
    ensures FlattenAll([]) == []
  {
  }

  lemma EarlierKid(t: Tree, n: nat, x: Entry, y: Entry)
    requires Routable(t) && t.Branch? && n < |t.kids| && x in FlattenAll(t.kids[..n]) && y in Flatten(t.kids[n])
    ensures Less(x.key, y.key)
  {
    hide Flatten, FlattenAll, Rank, KeySet, Routable;
    InFlatten(t.kids[..n], x);
    var i :| 0 <= i < n && x in Flatten(t.kids[..n][i]);
    FlattenKeys(t.kids[i], x);
    FlattenKeys(t.kids[n], y);
    SepBetween(t, i, n);
  }

  lemma SepBetween(t: Tree, i: nat, n: nat)
    requires Routable(t) && t.Branch? && i < n < |t.kids|
    ensures |t.seps| == |t.kids| && AllBelow(KeySet(t.kids[i]), t.seps[n]) && AllFrom(KeySet(t.kids[n]), t.seps[n])
  {
    hide Rank, KeySet;
    assert AllBelow(KeySet(t.kids[i]), t.seps[i + 1]);
    assert i + 1 == n || Less(t.seps[i + 1], t.seps[n]);
  }
}
