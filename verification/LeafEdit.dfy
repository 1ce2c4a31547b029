/** Point edits of one leaf, and what they do to the whole tree. */
module LeafEdit {
  import opened Bytes
  import opened BTree

  /** `Node::insert_data`: overwrite on a hit, insert at the search position otherwise. */
  function InsertData(es: seq<Entry>, e: Entry): seq<Entry> {
    var i := Lower(KeysOf(es), e.key);
    if Hit(KeysOf(es), e.key) then es[i := e] else es[..i] + [e] + es[i..]
  }

  /** `Node::delete` */
  function RemoveAt(es: seq<Entry>, i: nat): seq<Entry>
    requires i < |es|
  {
    es[..i] + es[i + 1..]
  }

  lemma LowerOfSorted(es: seq<Entry>, key: Key)
    requires Sorted(es)
    ensures var i := Lower(KeysOf(es), key);
            && (forall k :: 0 <= k < i ==> Less(es[k].key, key))
            && (forall k :: i <= k < |es| ==> !Less(es[k].key, key))
            && (Hit(KeysOf(es), key) <==> exists k :: 0 <= k < |es| && es[k].key == key)
            && (!Hit(KeysOf(es), key) ==> forall k :: i <= k < |es| ==> Less(key, es[k].key))
            && (Hit(KeysOf(es), key) ==> forall k :: i < k < |es| ==> Less(key, es[k].key))
  {
    var ks := KeysOf(es);
    assert SortedKeys(ks);
    LowerSplits(ks, key);
    RankInjective();
    if k :| 0 <= k < |es| && es[k].key == key {
      assert ks[k] == key;
    }
    if !Hit(ks, key) {
      forall k | Lower(ks, key) <= k < |es| ensures Less(key, es[k].key) {
        assert ks[k] in ks;
      }
    }
  }

  lemma InsertSorted(es: seq<Entry>, e: Entry)
    requires Sorted(es)
    ensures Sorted(InsertData(es, e))
    ensures forall x :: x in InsertData(es, e) <==> x == e || (x in es && x.key != e.key)
  {
    hide Rank, Lower, KeysOf;
    LowerOfSorted(es, e.key);
    var i := Lower(KeysOf(es), e.key);
    if Hit(KeysOf(es), e.key) {
      Spliced(es, i, e, i + 1, InsertData(es, e));
    } else {
      Spliced(es, i, e, i, InsertData(es, e));
    }
  }

  /** Replacing es[i..j], at most the entry with e's key, by e. */
  lemma Spliced(es: seq<Entry>, i: nat, e: Entry, j: nat, r: seq<Entry>)
    requires i <= j <= |es| && r == es[..i] + [e] + es[j..] && Sorted(es)
    requires forall k :: 0 <= k < i ==> Less(es[k].key, e.key)
    requires forall k :: j <= k < |es| ==> Less(e.key, es[k].key)
    requires forall k :: i <= k < j ==> es[k].key == e.key
    ensures Sorted(r)
    ensures forall x :: x in r <==> x == e || (x in es && x.key != e.key)
  {
    hide Rank;
    forall x | x in es && x.key != e.key ensures x in r {
      var k :| 0 <= k < |es| && es[k] == x;
      assert x == if k < i then r[k] else r[k - j + i + 1];
    }
    assert r[i] == e;
  }

  lemma RemoveKeepsOrder(es: seq<Entry>, i: nat)
    requires Sorted(es) && i < |es|
    ensures Sorted(RemoveAt(es, i))
  {
    hide Rank;
    var r := RemoveAt(es, i);
    forall a, b | 0 <= a < b < |r| ensures Less(r[a].key, r[b].key) {
      assert r[a] == es[if a < i then a else a + 1] && r[b] == es[if b < i then b else b + 1];
    }
  }

  lemma RemoveSorted(es: seq<Entry>, i: nat)
    requires Sorted(es) && i < |es|
    ensures Sorted(RemoveAt(es, i))
    ensures forall x :: x in RemoveAt(es, i) <==> x in es && x.key != es[i].key
  {
    hide Rank;
    var r := RemoveAt(es, i);
    assert forall k :: 0 <= k < |r| ==> r[k] == es[if k < i then k else k + 1];
    RemoveKeepsOrder(es, i);
    forall x | x in es && x.key != es[i].key ensures x in r {
      var k :| 0 <= k < |es| && es[k] == x;
      assert x == if k < i then r[k] else r[k - 1];
    }
    forall x | x in r ensures x in es && x.key != es[i].key {
      var k :| 0 <= k < |r| && r[k] == x;
      assert x == if k < i then es[k] else es[k + 1];
    }
  }

  // ---------- maps ----------

  lemma MapMembers(s: seq<Entry>)
    requires Sorted(s)
    ensures forall k :: k in ToMap(s) ==> Entry(k, ToMap(s)[k]) in s
    ensures forall x :: x in s ==> x.key in ToMap(s) && ToMap(s)[x.key] == x.datum
  {
    ToMapContents(s);
    forall k | k in ToMap(s) ensures Entry(k, ToMap(s)[k]) in s {
      var i :| 0 <= i < |s| && s[i].key == k;
      assert s[i] == Entry(k, ToMap(s)[k]);
    }
  }

  lemma PutMap(s: seq<Entry>, s': seq<Entry>, e: Entry)
    requires Sorted(s) && Sorted(s')
    requires forall x :: x in s' <==> x == e || (x in s && x.key != e.key)
    ensures ToMap(s') == ToMap(s)[e.key := e.datum]
  {
    MapMembers(s);
    MapMembers(s');
    var m, m' := ToMap(s)[e.key := e.datum], ToMap(s');
    forall k ensures k in m <==> k in m' {
      if k in m && k != e.key {
        assert Entry(k, ToMap(s)[k]) in s';
      }
      if k in m' {
        assert Entry(k, m'[k]) in s';
      }
      assert e in s';
    }
    forall k | k in m ensures m[k] == m'[k] {
      if k != e.key {
        assert Entry(k, ToMap(s)[k]) in s';
      }
    }
  }

  lemma DeleteMap(s: seq<Entry>, s': seq<Entry>, key: Key)
    requires Sorted(s) && Sorted(s')
    requires forall x :: x in s' <==> x in s && x.key != key
    ensures ToMap(s') == ToMap(s) - {key}
  {
    MapMembers(s);
    MapMembers(s');
    var m, m' := ToMap(s) - {key}, ToMap(s');
    forall k ensures k in m <==> k in m' {
      if k in m {
        assert Entry(k, ToMap(s)[k]) in s';
      }
      if k in m' {
        assert Entry(k, m'[k]) in s;
      }
    }
    forall k | k in m ensures m[k] == m'[k] {
      assert Entry(k, ToMap(s)[k]) in s';
    }
  }

  // ---------- whole trees ----------

  /** `es` may replace the routed leaf: its keys are old ones or the routed key. */
  ghost predicate MayReplace(old': seq<Entry>, key: Key, es: seq<Entry>) {
    Sorted(es) && forall x :: x in es ==> x.key == key || exists y :: y in old' && y.key == x.key
  }

  lemma {:induction false} SetLeafKeys(t: Tree, key: Key, es: seq<Entry>)
    requires Routable(t) && Route(t, key).Leaf? && MayReplace(Route(t, key).entries, key, es)
    ensures KeySet(SetLeaf(t, key, es)) <= KeySet(t) + {key}
    decreases t
  {
    match t
    case Leaf(_, old') =>
      forall k | k in KeySet(SetLeaf(t, key, es)) ensures k in KeySet(t) + {key} {
        var x :| x in es && x.key == k;
        if k != key {
          var y :| y in old' && y.key == x.key;
        }
      }
    case Branch(p, seps, kids) =>
      var i := Index(seps, key);
      SetLeafKeys(kids[i], key, es);
      var kids' := kids[i := SetLeaf(kids[i], key, es)];
      forall k | k in KeySetAll(kids') ensures k in KeySetAll(kids) + {key} {
        InKeySetAll(kids', k);
        var j :| 0 <= j < |kids'| && k in KeySet(kids'[j]);
        if k != key {
          assert k in KeySet(kids[j]);
        }
        InKeySetAll(kids, k);
      }
  }

  /** Editing the routed leaf keeps the tree routable. */
  lemma {:induction false} SetLeafRoutable(t: Tree, key: Key, es: seq<Entry>)
    requires Routable(t) && Route(t, key).Leaf? && MayReplace(Route(t, key).entries, key, es)
    ensures Routable(SetLeaf(t, key, es))
    decreases t
  {
    match t
    case Leaf(_, _) =>
    case Branch(p, seps, kids) =>
      var i := Index(seps, key);
      SetLeafRoutable(kids[i], key, es);
      SetLeafKeys(kids[i], key, es);
      IndexBounds(seps, key);
      ReplaceKid(t, i, SetLeaf(kids[i], key, es), key);
  }

  /** A child may be replaced by one whose keys are old ones or fit its separators. */
  lemma ReplaceKid(t: Tree, i: nat, kid: Tree, key: Key)
    requires Routable(t) && t.Branch? && i < |t.kids| && Routable(kid)
    requires KeySet(kid) <= KeySet(t.kids[i]) + {key}
    requires i > 0 ==> !Less(key, t.seps[i])
    requires i + 1 < |t.kids| ==> Less(key, t.seps[i + 1])
    ensures Routable(Branch(t.page, t.seps, t.kids[i := kid]))
  {
    hide Rank, KeySet;
    var kids' := t.kids[i := kid];
    forall j | 0 <= j < |kids'| - 1 ensures AllBelow(KeySet(kids'[j]), t.seps[j + 1]) {
      assert AllBelow(KeySet(t.kids[j]), t.seps[j + 1]);
    }
    forall j | 0 < j < |kids'| ensures AllFrom(KeySet(kids'[j]), t.seps[j]) {
      assert AllFrom(KeySet(t.kids[j]), t.seps[j]);
    }
  }

  /** The stored key, when present, is found in the routed leaf and nowhere else. */
  lemma RouteFinds(t: Tree, key: Key)
    requires Routable(t)
    ensures Route(t, key).Leaf?
    ensures var leaf := Route(t, key).entries;
            var i := Lower(KeysOf(leaf), key);
            && (Hit(KeysOf(leaf), key) <==> key in Contents(t))
            && (Hit(KeysOf(leaf), key) ==> Contents(t)[key] == leaf[i].datum)
  {
    hide Rank, Routable, Flatten, ToMap, Lower, KeysOf, Before, After;
    RouteSplits(t, key, []);
    RouteBounds(t, key);
    RouteLeafSorted(t, key);
    RoutableSorted(t);
    var leaf := Route(t, key).entries;
    LowerOfSorted(leaf, key);
    MapMembers(Flatten(t));
    FoundInMiddle(Before(t, key), leaf, After(t, key), key, Flatten(t));
  }

  lemma FoundInMiddle(b: seq<Entry>, l: seq<Entry>, a: seq<Entry>, key: Key, s: seq<Entry>)
    requires s == b + l + a && Sorted(s)
    requires forall e :: e in b ==> Less(e.key, key)
    requires forall e :: e in a ==> Less(key, e.key)
    ensures key in ToMap(s) <==> exists k :: 0 <= k < |l| && l[k].key == key
    ensures forall k :: 0 <= k < |l| && l[k].key == key ==> ToMap(s)[key] == l[k].datum
  {
    hide Rank, ToMap;
    MapMembers(s);
    if key in ToMap(s) {
      var x := Entry(key, ToMap(s)[key]);
      assert x in s && x !in b && x !in a;
      var k :| 0 <= k < |l| && l[k] == x;
    }
    forall k | 0 <= k < |l| && l[k].key == key ensures key in ToMap(s) && ToMap(s)[key] == l[k].datum {
      assert s[|b| + k] == l[k];
    }
  }

  lemma EditedFlatten(t: Tree, key: Key, es: seq<Entry>)
    requires Routable(t) && Route(t, key).Leaf? && MayReplace(Route(t, key).entries, key, es)
    ensures Sorted(Flatten(SetLeaf(t, key, es))) && Sorted(Flatten(t))
    ensures forall x :: x in Flatten(SetLeaf(t, key, es)) <==>
                        x in es || (x in Flatten(t) && x !in Route(t, key).entries)
  {
    SetLeafRoutable(t, key, es);
    RoutableSorted(SetLeaf(t, key, es));
    RoutableSorted(t);
    RouteSplits(t, key, es);
    var b, l, a := Before(t, key), Route(t, key).entries, After(t, key);
    Separate(b, l, a, Flatten(t));
  }

  /** The parts of a sorted sequence share no entry. */
  lemma Separate(b: seq<Entry>, l: seq<Entry>, a: seq<Entry>, s: seq<Entry>)
    requires s == b + l + a && Sorted(s)
    ensures forall x :: x in l ==> x !in b && x !in a
  {
    hide Rank;
    forall i, j | 0 <= i < |b| && 0 <= j < |l| ensures b[i] != l[j] {
      assert s[i] == b[i] && s[|b| + j] == l[j];
    }
    forall i, j | 0 <= i < |a| && 0 <= j < |l| ensures a[i] != l[j] {
      assert s[|b| + |l| + i] == a[i] && s[|b| + j] == l[j];
    }
  }

  /** Inserting into the routed leaf is a map update. */
  lemma PutContents(t: Tree, key: Key, datum: Datum)
    requires Routable(t)
    ensures Route(t, key).Leaf?
    ensures var t' := SetLeaf(t, key, InsertData(Route(t, key).entries, Entry(key, datum)));
            Routable(t') && Contents(t') == Contents(t)[key := datum]
  {
    RouteLeafSorted(t, key);
    var leaf, e := Route(t, key).entries, Entry(key, datum);
    InsertSorted(leaf, e);
    var es := InsertData(leaf, e);
    SetLeafRoutable(t, key, es);
    EditedFlatten(t, key, es);
    RouteSplits(t, key, es);
    RouteBounds(t, key);
    PutMap(Flatten(t), Flatten(SetLeaf(t, key, es)), e);
  }

  /** Removing the found element is a map removal. */
  lemma DeleteContents(t: Tree, key: Key)
    requires Routable(t) && Route(t, key).Leaf? && Hit(KeysOf(Route(t, key).entries), key)
    ensures var leaf := Route(t, key).entries;
            var t' := SetLeaf(t, key, RemoveAt(leaf, Lower(KeysOf(leaf), key)));
            Routable(t') && Contents(t') == Contents(t) - {key}
  {
    RouteLeafSorted(t, key);
    var leaf := Route(t, key).entries;
    LowerOfSorted(leaf, key);
    var i := Lower(KeysOf(leaf), key);
    RemoveSorted(leaf, i);
    var es := RemoveAt(leaf, i);
    SetLeafRoutable(t, key, es);
    EditedFlatten(t, key, es);
    RouteSplits(t, key, es);
    RouteBounds(t, key);
    DeleteMap(Flatten(t), Flatten(SetLeaf(t, key, es)), key);
  }
}
