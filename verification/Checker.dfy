/** The consistency check of a snapshot: a worklist over the page graph.  It accepts exactly
    the files whose pages form an unshared tree that claims every page once. */
module Checker {
  import opened Wrappers
  import opened Bytes
  import opened BTree
  import F = Freelist

  datatype Kind = DataItem | BucketItem(root: PageId) | OtherItem
  datatype Item = Item(key: Key, kind: Kind)
  datatype Child = Child(key: Key, page: PageId)
  datatype Content =
    | BranchPage(children: seq<Child>)
    | LeafPage(items: seq<Item>)
    | FreelistPage(records: seq<F.RetiredPage>)
    | OtherPage
  datatype Block = Block(overflow: nat, content: Content)

  /** The blocks that pass validation, and what the metadata says. */
  datatype File = File(blocks: map<PageId, Block>, root: PageId, freelist: PageId, numPages: nat, txId: F.TxId)

  // ---------- what a page links to and claims ----------

  function ChildPages(cs: seq<Child>): (r: seq<PageId>)
    ensures |r| == |cs|
  {
    seq(|cs|, i requires 0 <= i < |cs| => cs[i].page)
  }

  function ChildKeys(cs: seq<Child>): (r: seq<Key>)
    ensures |r| == |cs| && forall i :: 0 <= i < |cs| ==> r[i] == cs[i].key
  {
    seq(|cs|, i requires 0 <= i < |cs| => cs[i].key)
  }

  function ItemKeys(items: seq<Item>): (r: seq<Key>)
    ensures |r| == |items| && forall i :: 0 <= i < |items| ==> r[i] == items[i].key
  {
    seq(|items|, i requires 0 <= i < |items| => items[i].key)
  }

  function BucketRoots(items: seq<Item>): seq<PageId> {
    if items == [] then []
    else
      var last := items[|items| - 1].kind;
      BucketRoots(items[..|items| - 1]) + (if last.BucketItem? then [last.root] else [])
  }

  function Overflow(p: PageId, n: nat): seq<PageId> {
    if n == 0 then [] else Overflow(p, n - 1) + [p + n]
  }

  function RecordPages(rs: seq<F.RetiredPage>): (r: seq<PageId>)
    ensures |r| == |rs|
  {
    seq(|rs|, i requires 0 <= i < |rs| => rs[i].pageId)
  }

  function Links(b: Block): seq<PageId> {
    match b.content
    case BranchPage(cs) => ChildPages(cs)
    case LeafPage(items) => BucketRoots(items)
    case _ => []
  }

  function Listed(b: Block): seq<PageId> {
    if b.content.FreelistPage? then RecordPages(b.content.records) else []
  }

  /** Its own pages, and for the freelist every page it lists. */
  function Claims(p: PageId, b: Block): seq<PageId> {
    ([p] + Overflow(p, b.overflow)) + Listed(b)
  }

  ghost predicate Fine(f: File, p: PageId) {
    && p in f.blocks
    && match f.blocks[p].content
       case BranchPage(cs) => SortedKeys(ChildKeys(cs))
       case LeafPage(items) => SortedKeys(ItemKeys(items)) && forall i :: 0 <= i < |items| ==> !items[i].kind.OtherItem?
       case FreelistPage(rs) => p == f.freelist && forall i :: 0 <= i < |rs| ==> rs[i].retiredTx <= f.txId
       case OtherPage => false
  }

  datatype Relation = Linked | Claimed

  ghost function Of(f: File, r: Relation, p: PageId): multiset<PageId> {
    if p !in f.blocks then multiset{}
    else if r.Linked? then multiset(Links(f.blocks[p])) else multiset(Claims(p, f.blocks[p]))
  }

  ghost function Total(f: File, r: Relation, s: seq<PageId>): multiset<PageId> {
    if s == [] then multiset{} else Total(f, r, s[..|s| - 1]) + Of(f, r, s[|s| - 1])
  }

  function Universe(f: File): set<PageId> {
    F.Block(2, if f.numPages < 2 then 0 else f.numPages - 2)
  }

  ghost predicate Rooted(f: File, order: seq<PageId>, i: nat)
    requires i < |order|
  {
    order[i] == f.root || order[i] == f.freelist || exists j :: 0 <= j < i && order[i] in Of(f, Linked, order[j])
  }

  /** The pages of a sound file, parents first: each is fine and linked exactly once, and
      together they claim every page of the file exactly once. */
  ghost predicate Certificate(f: File, order: seq<PageId>) {
    && (forall i :: 0 <= i < |order| ==> Fine(f, order[i]) && Rooted(f, order, i))
    && multiset(order) == multiset{f.root, f.freelist} + Total(f, Linked, order)
    && Total(f, Claimed, order) == multiset(Universe(f))
  }

  // ---------- what a certificate means ----------

  function Without<T>(s: seq<T>, i: nat): seq<T>
    requires i < |s|
  {
    s[..i] + s[i + 1..]
  }

  lemma WithoutOne<T>(s: seq<T>, i: nat)
    requires i < |s|
    ensures multiset(s) == multiset(Without(s, i)) + multiset{s[i]}
    ensures i == |s| - 1 ==> Without(s, i) == s[..|s| - 1]
    ensures i < |s| - 1 ==> Without(s, i) == Without(s[..|s| - 1], i) + [s[|s| - 1]]
  {
    assert s == s[..i] + [s[i]] + s[i + 1..];
  }

  lemma Cancel<T>(a: multiset<T>, b: multiset<T>, c: multiset<T>)
    requires a + c <= b + c
    ensures a <= b
  {
    forall x | x in a ensures a[x] <= b[x] {
      assert (a + c)[x] <= (b + c)[x];
    }
  }

  lemma TotalLast(f: File, r: Relation, s: seq<PageId>, p: PageId)
    ensures Total(f, r, s + [p]) == Total(f, r, s) + Of(f, r, p)
  {
    assert (s + [p])[..|s|] == s;
  }

  lemma {:induction false} TotalHas(f: File, r: Relation, s: seq<PageId>, i: nat)
    requires i < |s|
    ensures Total(f, r, s) == Of(f, r, s[i]) + Total(f, r, Without(s, i))
  {
    hide Of, Without;
    WithoutOne(s, i);
    if i < |s| - 1 {
      var front, x := s[..|s| - 1], s[|s| - 1];
      TotalHas(f, r, front, i);
      TotalLast(f, r, Without(front, i), x);
    }
  }

  lemma {:induction false} TotalMonotone(f: File, r: Relation, a: seq<PageId>, b: seq<PageId>)
    requires multiset(a) <= multiset(b)
    ensures Total(f, r, a) <= Total(f, r, b)
    decreases |a|
  {
    hide Of, Without;
    if a != [] {
      WithoutOne(a, |a| - 1);
      var x, front := a[|a| - 1], a[..|a| - 1];
      assert x in multiset(b);
      var i :| 0 <= i < |b| && b[i] == x;
      WithoutOne(b, i);
      Cancel(multiset(front), multiset(Without(b, i)), multiset{x});
      TotalMonotone(f, r, front, Without(b, i));
      TotalHas(f, r, b, i);
    }
  }

  lemma TwoOf(f: File, r: Relation, s: seq<PageId>, i: nat, j: nat, p: PageId)
    requires i < j < |s| && p in Of(f, r, s[i]) && p in Of(f, r, s[j])
    ensures Total(f, r, s)[p] >= 2
  {
    hide Of;
    TotalHas(f, r, s, i);
    var rest := Without(s, i);
    assert rest[j - 1] == s[j];
    TotalHas(f, r, rest, j - 1);
  }

  lemma ClaimsSelf(f: File, p: PageId)
    requires p in f.blocks
    ensures p in Of(f, Claimed, p)
  {
    assert p == Claims(p, f.blocks[p])[0];
  }

  /** No page is visited twice. */
  lemma Unshared(f: File, order: seq<PageId>)
    requires Certificate(f, order)
    ensures forall i, j :: 0 <= i < j < |order| ==> order[i] != order[j]
  {
    hide Of;
    forall i, j | 0 <= i < j < |order| ensures order[i] != order[j] {
      if order[i] == order[j] {
        ClaimsSelf(f, order[i]);
        TwoOf(f, Claimed, order, i, j, order[i]);
      }
    }
  }

  /** Every link leads from an earlier page to a later one: the graph has no cycle. */
  lemma Acyclic(f: File, order: seq<PageId>, i: nat, j: nat)
    requires Certificate(f, order) && i < |order| && j < |order| && order[i] in Of(f, Linked, order[j])
    ensures j < i
  {
    hide Of;
    Unshared(f, order);
    var p := order[i];
    OnceIn(order, i);
    TotalHas(f, Linked, order, j);
    assert Rooted(f, order, i);
    assert Total(f, Linked, order)[p] >= 1;
    if p != f.root && p != f.freelist {
      var k :| 0 <= k < i && p in Of(f, Linked, order[k]);
      if k != j {
        TwoOf(f, Linked, order, if k < j then k else j, if k < j then j else k, p);
      }
    }
  }

  lemma OnceIn(s: seq<PageId>, i: nat)
    requires i < |s| && forall j, k :: 0 <= j < k < |s| ==> s[j] != s[k]
    ensures multiset(s)[s[i]] == 1
  {
    assert s == s[..i] + [s[i]] + s[i + 1..];
    assert s[i] !in s[..i] && s[i] !in s[i + 1..];
  }

  // ---------- the check ----------

  /** Removes ids one by one; fails at the first that is not there. */
  method RemoveAll(unused: set<PageId>, ids: seq<PageId>) returns (ok: bool, rest: set<PageId>)
    ensures ok <==> multiset(ids) <= multiset(unused)
    ensures ok ==> multiset(rest) + multiset(ids) == multiset(unused)
  {
    rest := unused;
    for i := 0 to |ids|
      invariant multiset(rest) + multiset(ids[..i]) == multiset(unused)
    {
      assert ids[..i + 1] == ids[..i] + [ids[i]];
      if ids[i] !in rest {
        assert multiset(ids[..i + 1])[ids[i]] > multiset(unused)[ids[i]];
        assert ids == ids[..i + 1] + ids[i + 1..];
        return false, rest;
      }
      rest := rest - {ids[i]};
    }
    assert ids[..|ids|] == ids;
    ok := true;
  }

  /** Each key is compared with the one before it. */
  method InOrder(keys: seq<Key>) returns (ok: bool)
    ensures ok <==> SortedKeys(keys)
  {
    var last: Option<Key> := None;
    for i := 0 to |keys|
      invariant SortedKeys(keys[..i])
      invariant last == if i == 0 then None else Some(keys[i - 1])
    {
      if last.Some? && !Less(last.value, keys[i]) {
        return false;
      }
      forall j | 0 <= j < i ensures Less(keys[j], keys[i]) {
        assert j < i - 1 ==> Less(keys[..i][j], keys[..i][i - 1]);
      }
      last := Some(keys[i]);
    }
    assert keys[..|keys|] == keys;
    ok := true;
  }

  /** A leaf's elements: keys in order, known types; nested buckets are to be visited. */
  method CheckItems(items: seq<Item>) returns (ok: bool, roots: seq<PageId>)
    ensures ok <==> SortedKeys(ItemKeys(items)) && forall i :: 0 <= i < |items| ==> !items[i].kind.OtherItem?
    ensures ok ==> roots == BucketRoots(items)
  {
    hide SortedKeys;
    roots := [];
    for i := 0 to |items|
      invariant roots == BucketRoots(items[..i])
      invariant forall j :: 0 <= j < i ==> !items[j].kind.OtherItem?
    {
      assert items[..i + 1][..i] == items[..i];
      match items[i].kind {
        case BucketItem(root) => roots := roots + [root];
        case DataItem =>
        case OtherItem => return false, roots;
      }
    }
    assert items[..|items|] == items;
    ok := InOrder(ItemKeys(items));
  }

  method CheckRecords(rs: seq<F.RetiredPage>, txId: F.TxId) returns (ok: bool)
    ensures ok <==> forall i :: 0 <= i < |rs| ==> rs[i].retiredTx <= txId
  {
    for i := 0 to |rs|
      invariant forall j :: 0 <= j < i ==> rs[j].retiredTx <= txId
    {
      if rs[i].retiredTx > txId {
        return false;
      }
    }
    ok := true;
  }

  /** What a page's type asks for. */
  method CheckContent(f: File, p: PageId, unused: set<PageId>) returns (ok: bool, rest: set<PageId>, links: seq<PageId>)
    requires p in f.blocks
    ensures ok <==> Fine(f, p) && multiset(Listed(f.blocks[p])) <= multiset(unused)
    ensures ok ==> multiset(rest) + multiset(Listed(f.blocks[p])) == multiset(unused) && links == Links(f.blocks[p])
  {
    hide SortedKeys, BucketRoots;
    rest, links := unused, [];
    match f.blocks[p].content {
      case BranchPage(cs) =>
        links := ChildPages(cs);
        ok := InOrder(ChildKeys(cs));
      case LeafPage(items) =>
        ok, links := CheckItems(items);
      case FreelistPage(rs) =>
        ok := false;
        if p == f.freelist {
          ok := CheckRecords(rs, f.txId);
          if ok {
            ok, rest := RemoveAll(rest, RecordPages(rs));
          }
        }
      case OtherPage =>
        ok := false;
    }
  }

  lemma TwoParts<T>(a: seq<T>, b: seq<T>, whole: set<T>, rest: set<T>)
    requires multiset(rest) + multiset(a) == multiset(whole)
    ensures multiset(a + b) <= multiset(whole) <==> multiset(b) <= multiset(rest)
  {
    if multiset(a + b) <= multiset(whole) {
      Cancel(multiset(b), multiset(rest), multiset(a));
    }
  }

  lemma FirstFails<T>(a: seq<T>, b: seq<T>, whole: set<T>)
    requires !(multiset(a) <= multiset(whole))
    ensures !(multiset(a + b) <= multiset(whole))
  {
    var x :| x in multiset(a) && multiset(a)[x] > multiset(whole)[x];
    assert multiset(a + b)[x] > multiset(whole)[x];
  }

  /** The page itself and its overflow pages. */
  method ClaimBlock(p: PageId, n: nat, unused: set<PageId>) returns (ok: bool, rest: set<PageId>)
    ensures ok <==> multiset([p] + Overflow(p, n)) <= multiset(unused)
    ensures ok ==> multiset(rest) + multiset([p] + Overflow(p, n)) == multiset(unused)
  {
    hide Overflow;
    ok, rest := RemoveAll(unused, [p]);
    if !ok {
      FirstFails([p], Overflow(p, n), unused);
      return;
    }
    TwoParts([p], Overflow(p, n), unused, rest);
    ok, rest := RemoveAll(rest, Overflow(p, n));
  }

  /** One page: its own block, then what its type asks for. */
  method CheckPage(f: File, p: PageId, unused: set<PageId>) returns (ok: bool, rest: set<PageId>, links: seq<PageId>)
    ensures ok <==> Fine(f, p) && Of(f, Claimed, p) <= multiset(unused)
    ensures ok ==> multiset(rest) + Of(f, Claimed, p) == multiset(unused) && multiset(links) == Of(f, Linked, p)
  {
    hide Overflow, Listed, Links;
    rest, links := unused, [];
    if p !in f.blocks {
      return false, rest, links;
    }
    var b := f.blocks[p];
    var own := [p] + Overflow(p, b.overflow);
    ok, rest := ClaimBlock(p, b.overflow, unused);
    if !ok {
      FirstFails(own, Listed(b), unused);
      return;
    }
    TwoParts(own, Listed(b), unused, rest);
    ok, rest, links := CheckContent(f, p, rest);
  }

  // ---------- the worklist ----------

  /** A certificate has every page visited so far. */
  ghost predicate Covers(f: File, visited: seq<PageId>) {
    forall order :: Certificate(f, order) ==> multiset(visited) <= multiset(order)
  }

  /** Pages still to visit and visited ones are exactly the links seen so far; what is left
      of the universe is exactly what nobody claimed. */
  ghost predicate Worklist(f: File, unused: set<PageId>, stack: seq<PageId>, visited: seq<PageId>) {
    && multiset(unused) + Total(f, Claimed, visited) == multiset(Universe(f))
    && multiset(stack) + multiset(visited) == multiset{f.root, f.freelist} + Total(f, Linked, visited)
    && (forall i :: 0 <= i < |visited| ==> Fine(f, visited[i]) && Rooted(f, visited, i))
    && Covers(f, visited)
  }

  lemma NextCovered(f: File, unused: set<PageId>, stack: seq<PageId>, visited: seq<PageId>, p: PageId,
                    order: seq<PageId>)
    requires Worklist(f, unused, stack + [p], visited) && Certificate(f, order)
    ensures multiset(visited + [p]) <= multiset(order)
    ensures Fine(f, p) && Of(f, Claimed, p) <= multiset(unused)
  {
    hide Of, Fine;
    TotalMonotone(f, Linked, visited, order);
    assert multiset(stack + [p]) + multiset(visited) <= multiset(order);
    assert multiset(visited + [p]) == multiset(visited) + multiset{p};
    assert p in multiset(order);
    var i :| 0 <= i < |order| && order[i] == p;
    TotalMonotone(f, Claimed, visited + [p], order);
    TotalLast(f, Claimed, visited, p);
    Cancel(Of(f, Claimed, p), multiset(unused), Total(f, Claimed, visited));
  }

  lemma Shift(a: multiset<PageId>, v: multiset<PageId>, p: PageId, r: multiset<PageId>, t: multiset<PageId>,
              l: multiset<PageId>)
    requires a + multiset{p} + v == r + t
    ensures (a + l) + (v + multiset{p}) == r + (t + l)
  {
    calc {
      (a + l) + (v + multiset{p});
      (a + multiset{p} + v) + l;
      r + t + l;
    }
  }

  lemma Advance(f: File, unused: set<PageId>, stack: seq<PageId>, visited: seq<PageId>, p: PageId, rest: set<PageId>,
                links: seq<PageId>)
    requires Worklist(f, unused, stack + [p], visited) && Fine(f, p)
    requires multiset(rest) + Of(f, Claimed, p) == multiset(unused) && multiset(links) == Of(f, Linked, p)
    ensures Worklist(f, rest, stack + links, visited + [p])
  {
    hide Of, Fine, Total, Certificate, Rooted;
    var next := visited + [p];
    TotalLast(f, Claimed, visited, p);
    TotalLast(f, Linked, visited, p);
    AdvanceStack(stack, visited, p, multiset{f.root, f.freelist}, Total(f, Linked, visited), links);
    forall order | Certificate(f, order) ensures multiset(next) <= multiset(order) {
      NextCovered(f, unused, stack, visited, p, order);
    }
    NextRooted(f, unused, stack, visited, p);
  }

  lemma AdvanceStack(stack: seq<PageId>, visited: seq<PageId>, p: PageId, r: multiset<PageId>, t: multiset<PageId>,
                     links: seq<PageId>)
    requires multiset(stack + [p]) + multiset(visited) == r + t
    ensures multiset(stack + links) + multiset(visited + [p]) == r + (t + multiset(links))
  {
    Shift(multiset(stack), multiset(visited), p, r, t, multiset(links));
    assert multiset(stack + [p]) == multiset(stack) + multiset{p};
    assert multiset(visited + [p]) == multiset(visited) + multiset{p};
  }

  lemma NextRooted(f: File, unused: set<PageId>, stack: seq<PageId>, visited: seq<PageId>, p: PageId)
    requires Worklist(f, unused, stack + [p], visited)
    ensures forall i :: 0 <= i < |visited + [p]| ==> Rooted(f, visited + [p], i)
  {
    hide Of, Fine;
    var next := visited + [p];
    forall i | 0 <= i < |next| ensures Rooted(f, next, i) {
      if i < |visited| {
        assert Rooted(f, visited, i);
        if j :| 0 <= j < i && visited[i] in Of(f, Linked, visited[j]) {
          assert next[i] in Of(f, Linked, next[j]);
        }
      } else if p != f.root && p != f.freelist {
        assert p in multiset(stack + [p]);
        assert p in multiset(stack + [p]) + multiset(visited);
        assert p !in multiset{f.root, f.freelist};
        assert p in Total(f, Linked, visited);
        var j := LinkedFrom(f, visited, p);
        assert next[i] in Of(f, Linked, next[j]);
      }
    }
  }

  lemma {:induction false} LinkedFrom(f: File, s: seq<PageId>, p: PageId) returns (j: nat)
    requires p in Total(f, Linked, s)
    ensures j < |s| && p in Of(f, Linked, s[j])
  {
    hide Of;
    j := |s| - 1;
    if p !in Of(f, Linked, s[j]) {
      j := LinkedFrom(f, s[..j], p);
    }
  }

  /** With nothing left to visit, any certificate lists exactly the visited pages. */
  lemma AllVisited(f: File, unused: set<PageId>, visited: seq<PageId>, order: seq<PageId>)
    requires Worklist(f, unused, [], visited) && Certificate(f, order)
    ensures unused == {}
  {
    hide Of, Fine, Total;
    Unshared(f, order);
    forall i | 0 <= i < |order| ensures order[i] in multiset(visited) {
      ReachedAgain(f, unused, visited, order, i);
    }
    DistinctWithin(order, visited);
    TotalMonotone(f, Claimed, order, visited);
    NothingLeft(unused, Total(f, Claimed, visited), multiset(Universe(f)));
  }

  lemma DistinctWithin(a: seq<PageId>, b: seq<PageId>)
    requires forall i, j :: 0 <= i < j < |a| ==> a[i] != a[j]
    requires forall i :: 0 <= i < |a| ==> a[i] in multiset(b)
    ensures multiset(a) <= multiset(b)
  {
    forall x | x in multiset(a) ensures multiset(a)[x] <= multiset(b)[x] {
      var i :| 0 <= i < |a| && a[i] == x;
      OnceIn(a, i);
    }
  }

  lemma NothingLeft(unused: set<PageId>, claimed: multiset<PageId>, all: multiset<PageId>)
    requires multiset(unused) + claimed == all && all <= claimed
    ensures unused == {}
  {
    forall x: PageId ensures x !in unused {
      assert (multiset(unused) + claimed)[x] == multiset(unused)[x] + claimed[x];
    }
  }

  lemma {:induction false} ReachedAgain(f: File, unused: set<PageId>, visited: seq<PageId>, order: seq<PageId>, i: nat)
    requires Worklist(f, unused, [], visited) && Certificate(f, order) && i < |order|
    ensures order[i] in multiset(visited)
  {
    hide Of, Fine;
    assert multiset(visited) == multiset{f.root, f.freelist} + Total(f, Linked, visited);
    assert Rooted(f, order, i);
    if order[i] != f.root && order[i] != f.freelist {
      var j :| 0 <= j < i && order[i] in Of(f, Linked, order[j]);
      ReachedAgain(f, unused, visited, order, j);
      var k :| 0 <= k < |visited| && visited[k] == order[j];
      TotalHas(f, Linked, visited, k);
    }
  }

  /** `check`: accepts exactly the files that have a certificate.  Every visit uses up a page,
      so it ends on any page graph. */
  method Check(f: File) returns (ok: bool)
    ensures ok <==> exists order :: Certificate(f, order)
  {
    hide Of, Fine, Certificate, Worklist;
    var unused := Universe(f);
    var stack := [f.root, f.freelist];
    ghost var visited: seq<PageId> := [];
    Begin(f);
    while stack != []
      invariant Worklist(f, unused, stack, visited)
      decreases |unused|
    {
      var p := stack[|stack| - 1];
      ghost var before := stack;
      stack := stack[..|stack| - 1];
      assert before == stack + [p];
      var fine, rest, links := CheckPage(f, p, unused);
      if !fine {
        forall order | Certificate(f, order) ensures false {
          NextCovered(f, unused, stack, visited, p, order);
        }
        return false;
      }
      Advance(f, unused, stack, visited, p, rest, links);
      Smaller(f, unused, rest, p);
      unused, stack, visited := rest, stack + links, visited + [p];
    }
    if unused != {} {
      forall order | Certificate(f, order) ensures false {
        AllVisited(f, unused, visited, order);
      }
      return false;
    }
    Done(f, visited);
    ok := true;
  }

  lemma Begin(f: File)
    ensures Worklist(f, Universe(f), [f.root, f.freelist], [])
  {
  }

  lemma Smaller(f: File, unused: set<PageId>, rest: set<PageId>, p: PageId)
    requires Fine(f, p) && multiset(rest) + Of(f, Claimed, p) == multiset(unused)
    ensures |rest| < |unused|
  {
    ClaimsSelf(f, p);
    assert |multiset(rest)| + |Of(f, Claimed, p)| == |multiset(unused)|;
    assert |multiset(rest)| == |rest| && |multiset(unused)| == |unused|;
  }

  lemma Done(f: File, visited: seq<PageId>)
    requires Worklist(f, {}, [], visited)
    ensures Certificate(f, visited)
  {
  }
}
