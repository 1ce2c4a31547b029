/** What a commit leaves is whole: the blocks of a bucket's tree and of the freelist are all
    the pages held, reached once each from the root. */
module WholeFile {
  import opened Wrappers
  import opened Bytes
  import opened BTree
  import opened Overlay
  import opened Traversal
  import opened Rebalance
  import opened Committed
  import opened Spill
  import opened Handover
  import opened Merging
  import opened Outcome
  import opened Transaction
  import F = Freelist
  import D = Disk
  import L = Lifecycle
  import LP = LedgerProof

  // ---------- parents first ----------

  ghost function Preorder(t: Tree): seq<PageId>
    decreases t, 1
  {
    match t
    case Leaf(p, _) => [p]
    case Branch(p, _, kids) => [p] + PreorderAll(kids)
  }

  ghost function PreorderAll(ts: seq<Tree>): seq<PageId>
    decreases ts, 0
  {
    if ts == [] then [] else Preorder(ts[0]) + PreorderAll(ts[1..])
  }

  lemma {:induction false} PreorderPages(t: Tree)
    ensures forall p :: p in Preorder(t) <==> p in Pages(t)
    ensures |Preorder(t)| > 0 && Preorder(t)[0] == t.page
    decreases t, 1
  {
    if t.Branch? {
      PreorderAllPages(t.kids);
    }
  }

  lemma {:induction false} PreorderAllPages(ts: seq<Tree>)
    ensures forall p :: p in PreorderAll(ts) <==> p in PagesAll(ts)
    decreases ts, 0
  {
    if ts != [] {
      PreorderPages(ts[0]);
      PreorderAllPages(ts[1..]);
    }
  }

  lemma DistinctJoin(a: seq<PageId>, b: seq<PageId>)
    requires L.Distinct(a) && L.Distinct(b) && forall p :: p in a ==> p !in b
    ensures L.Distinct(a + b)
  {
    forall i, j | 0 <= i < j < |a + b| ensures (a + b)[i] != (a + b)[j] {
      assert i < |a| ==> (a + b)[i] in a;
      assert j >= |a| ==> (a + b)[j] in b;
    }
  }

  lemma {:induction false} PreorderDistinct(t: Tree)
    requires Unshared(t)
    ensures L.Distinct(Preorder(t))
    decreases t, 1
  {
    if t.Branch? {
      PreorderAllDistinct(t.kids);
      PreorderAllPages(t.kids);
      InPagesAll(t.kids, t.page);
      DistinctJoin([t.page], PreorderAll(t.kids));
    }
  }

  lemma {:induction false} PreorderAllDistinct(ts: seq<Tree>)
    requires forall i :: 0 <= i < |ts| ==> Unshared(ts[i])
    requires forall i, j :: 0 <= i < j < |ts| ==> Pages(ts[i]) !! Pages(ts[j])
    ensures L.Distinct(PreorderAll(ts))
    decreases ts, 0
  {
    hide Pages, Unshared, Preorder;
    if ts != [] {
      var rest := ts[1..];
      assert forall i :: 0 <= i < |rest| ==> rest[i] == ts[i + 1];
      PreorderDistinct(ts[0]);
      PreorderAllDistinct(rest);
      PreorderPages(ts[0]);
      PreorderAllPages(rest);
      forall p | p in Pages(ts[0]) ensures p !in PagesAll(rest) {
        InPagesAll(rest, p);
      }
      DistinctJoin(Preorder(ts[0]), PreorderAll(rest));
    }
  }

  /** Every page but the root comes after one that points to it. */
  lemma {:induction false} ParentEarlier(t: Tree, i: nat)
    requires 0 < i < |Preorder(t)|
    ensures exists j :: 0 <= j < i && Edge(t, Preorder(t)[j], Preorder(t)[i])
    decreases t, 1
  {
    var order := PreorderAll(t.kids);
    var j, k := RootOrEarlier(t.kids, i - 1);
    assert Preorder(t)[i] == order[i - 1];
    if j < 0 {
      assert Edge(t, Preorder(t)[0], Preorder(t)[i]);
    } else {
      assert Preorder(t)[j + 1] == order[j];
      assert Edge(t, Preorder(t)[j + 1], Preorder(t)[i]);
    }
  }

  /** A page of a forest is the root of tree k, or in tree k an earlier one points to it. */
  lemma {:induction false} RootOrEarlier(ts: seq<Tree>, i: nat) returns (j: int, k: nat)
    requires i < |PreorderAll(ts)|
    ensures -1 <= j < i && k < |ts|
    ensures if j < 0 then PreorderAll(ts)[i] == ts[k].page else Edge(ts[k], PreorderAll(ts)[j], PreorderAll(ts)[i])
    decreases ts, 0
  {
    hide Edge;
    var first, rest := Preorder(ts[0]), PreorderAll(ts[1..]);
    var n := |first|;
    PreorderPages(ts[0]);
    if i == 0 {
      j, k := -1, 0;
    } else if i < n {
      ParentEarlier(ts[0], i);
      j :| 0 <= j < i && Edge(ts[0], first[j], first[i]);
      k := 0;
    } else {
      j, k := RootOrEarlier(ts[1..], i - n);
      k := k + 1;
      j := if j < 0 then j else j + n;
    }
  }

  // ---------- pages and edges ----------

  function LinksOf(d: PageData): set<PageId> {
    match d
    case Leaves(_) => {}
    case Branches(_, pages) => set p | p in pages
  }

  lemma {:induction false} EdgeFrom(t: Tree, q: PageId, p: PageId)
    requires Edge(t, q, p)
    ensures q in Pages(t)
    decreases t
  {
    var i :| 0 <= i < |t.kids| && ((q == t.page && p == t.kids[i].page) || Edge(t.kids[i], q, p));
    InPagesAll(t.kids, q);
    if Edge(t.kids[i], q, p) {
      EdgeFrom(t.kids[i], q, p);
    }
  }

  lemma {:induction false} LinksAreEdges(store: map<PageId, PageData>, t: Tree, q: PageId, p: PageId)
    requires Rep(store, t) && Unshared(t) && q in Pages(t) && q in store
    ensures p in LinksOf(store[q]) <==> Edge(t, q, p)
    decreases t
  {
    if t.Branch? {
      hide Pages, LinksOf;
      PagesOfNode(t);
      if q == t.page {
        OwnEdges(t, p);
      } else {
        InPagesAll(t.kids, q);
        var i :| 0 <= i < |t.kids| && q in Pages(t.kids[i]);
        LinksAreEdges(store, t.kids[i], q, p);
        EdgeInside(t, q, p, i);
      }
    }
  }

  lemma OwnEdges(t: Tree, p: PageId)
    requires t.Branch? && Unshared(t)
    ensures p in LinksOf(Branches(t.seps, RootPages(t.kids))) <==> Edge(t, t.page, p)
  {
    hide Pages;
    forall j | 0 <= j < |t.kids| ensures !Edge(t.kids[j], t.page, p) && RootPages(t.kids)[j] == t.kids[j].page {
      if Edge(t.kids[j], t.page, p) {
        EdgeFrom(t.kids[j], t.page, p);
      }
    }
  }

  lemma EdgeInside(t: Tree, q: PageId, p: PageId, i: nat)
    requires t.Branch? && Unshared(t) && i < |t.kids| && q in Pages(t.kids[i])
    ensures Edge(t, q, p) <==> Edge(t.kids[i], q, p)
  {
    hide Pages;
    forall j | 0 <= j < |t.kids| && Edge(t.kids[j], q, p) ensures j == i {
      EdgeFrom(t.kids[j], q, p);
    }
  }

  // ---------- the pages of a commit ----------

  /** Each node at `ps` stands on the first page of its block and points where its data does;
      every other page of these blocks and of the freelist block holds no node. */
  ghost predicate Writes(cells: map<PageId, D.Content>, view: map<PageId, PageData>, sizes: map<PageId, nat>,
                         ps: set<PageId>, page: PageId, count: nat) {
    && cells.Keys == Blocks(sizes, ps) + F.Block(page, count)
    && (forall p :: p in cells && cells[p].Node? ==> p in ps)
    && forall p :: p in ps ==>
         p in view && p in sizes && p in cells && cells[p].Node?
         && cells[p].links == LinksOf(view[p]) && cells[p].count == sizes[p]
  }

  lemma LinksThere(cells: map<PageId, D.Content>, view: map<PageId, PageData>, sizes: map<PageId, nat>, t: Tree,
                   page: PageId, count: nat, q: PageId, p: PageId)
    requires Writes(cells, view, sizes, Pages(t), page, count) && Rep(view, t) && Unshared(t) && q in Pages(t)
    ensures L.Links(cells, q, p) <==> Edge(t, q, p)
    ensures Edge(t, q, p) ==> p != t.page && p in Pages(t)
  {
    hide Pages, Rep, Unshared, Edge, Blocks;
    LinksAreEdges(view, t, q, p);
    if Edge(t, q, p) {
      RootIsNoChild(t, q, p);
    }
  }

  lemma Ordered(cells: map<PageId, D.Content>, view: map<PageId, PageData>, sizes: map<PageId, nat>, t: Tree,
                page: PageId, count: nat)
    requires Writes(cells, view, sizes, Pages(t), page, count) && Rep(view, t) && Unshared(t)
    ensures L.TreeOrder(cells, t.page, Preorder(t))
  {
    hide Pages, Rep, Unshared, Edge, Blocks, Writes, L.Links, Preorder;
    var order := Preorder(t);
    PreorderPages(t);
    PreorderDistinct(t);
    NodesThere(cells, view, sizes, t, page, count);
    forall i | 0 < i < |order| ensures exists j :: 0 <= j < i && L.Links(cells, order[j], order[i]) {
      ParentEarlier(t, i);
      var j :| 0 <= j < i && Edge(t, order[j], order[i]);
      LinksThere(cells, view, sizes, t, page, count, order[j], order[i]);
    }
    forall i, p | 0 <= i < |order| && L.Links(cells, order[i], p) ensures p in order && p != t.page {
      LinksThere(cells, view, sizes, t, page, count, order[i], p);
    }
    forall i, j, p | 0 <= i < j < |order| && L.Links(cells, order[i], p) ensures !L.Links(cells, order[j], p) {
      LinksThere(cells, view, sizes, t, page, count, order[i], p);
      LinksThere(cells, view, sizes, t, page, count, order[j], p);
      if Edge(t, order[j], p) {
        EdgeUnique(t, order[i], order[j], p);
      }
    }
  }

  lemma NodesThere(cells: map<PageId, D.Content>, view: map<PageId, PageData>, sizes: map<PageId, nat>, t: Tree,
                   page: PageId, count: nat)
    requires Writes(cells, view, sizes, Pages(t), page, count)
    ensures forall p :: p in Pages(t) ==> p in cells && cells[p].Node?
  {
  }

  lemma Parted(cells: map<PageId, D.Content>, view: map<PageId, PageData>, sizes: map<PageId, nat>, ps: set<PageId>,
               loaded: set<PageId>, held: set<PageId>, order: seq<PageId>, page: PageId, count: nat)
    requires Writes(cells, view, sizes, ps, page, count) && Laid(sizes, ps, loaded, held) && 0 !in ps
    requires L.Distinct(order) && (forall p :: p in order <==> p in ps) && Blocks(sizes, ps) !! F.Block(page, count)
    ensures L.Partition(cells, order, page, count)
  {
    hide F.Block, Blocks;
    forall p | p in ps ensures L.BlockOf(cells, p) == F.Block(p, sizes[p]) <= Blocks(sizes, ps)
        && p in L.BlockOf(cells, p) {
      OwnBlock(sizes, ps, p);
    }
    forall i, j | 0 <= i < j < |order| ensures L.BlockOf(cells, order[i]) !! L.BlockOf(cells, order[j]) {
      assert order[i] in ps && order[j] in ps;
    }
    forall p | p in cells && p !in F.Block(page, count)
      ensures exists i :: 0 <= i < |order| && p in L.BlockOf(cells, order[i])
    {
      var q := BlockOwner(sizes, ps, p);
      var i :| 0 <= i < |order| && order[i] == q;
    }
  }

  /** A bucket between transactions and a freelist block beside it, stored page by page, are a
      whole file: what sealing a transaction asks for. */
  lemma CommittedWhole(k: InnerBucket, sizes: map<PageId, nat>, h: nat, held: set<PageId>,
                       cells: map<PageId, D.Content>, page: PageId, count: nat)
    requires AtRest(k, sizes, h, held) && 0 !in Pages(k.tree)
    requires Writes(cells, k.view, sizes, Pages(k.tree), page, count)
    requires Blocks(sizes, Pages(k.tree)) !! F.Block(page, count)
    ensures D.Closed(cells, k.rootPage) && L.Whole(cells, k.rootPage, page, count)
  {
    hide Pages, Rep, Unshared, Routable, Edge, Blocks, Laid, Writes, ShadowsBy, HangsIn, Preorder, F.Block, L.TreeOrder;
    hide L.Partition, Balanced, TightPages;
    var t := k.tree;
    Ordered(cells, k.view, sizes, t, page, count);
    PreorderPages(t);
    PreorderDistinct(t);
    Parted(cells, k.view, sizes, Pages(t), k.pageNodeIds.Keys, held, Preorder(t), page, count);
    ClosedThere(cells, k.view, sizes, t, page, count);
  }

  lemma ClosedThere(cells: map<PageId, D.Content>, view: map<PageId, PageData>, sizes: map<PageId, nat>, t: Tree,
                    page: PageId, count: nat)
    requires Writes(cells, view, sizes, Pages(t), page, count) && Rep(view, t) && Unshared(t)
    ensures D.Closed(cells, t.page)
  {
    hide Pages, Rep, Unshared, Edge, Blocks;
    PagesOfNode(t);
    forall p, q | p in cells && cells[p].Node? && q in cells[p].links ensures q in cells && cells[q].Node? {
      LinksThere(cells, view, sizes, t, page, count, p, q);
    }
  }

  /** One transaction of a database with one bucket, to the point where it is sealed: edits,
      merges, writing out, and the freelist in a new block.  Whatever pages then store this
      are closed and whole, and free, pending and stored pages are all there are. */
  method Commit(fl: F.TxFreelist, k: InnerBucket, sizes: map<PageId, nat>, ops: seq<Op>, picks: seq<Merge>,
                threshold: nat, oldPage: PageId, oldCount: nat, ghost h: nat)
    returns (next: Option<InnerBucket>, sizes': map<PageId, nat>, page: PageId, count: nat,
             entries: seq<F.RetiredPage>)
    requires oldPage > 1 && oldCount > 0 && 0 !in Pages(k.tree)
    requires Blocks(sizes, Pages(k.tree)) !! F.Block(oldPage, oldCount)
    requires var held := Blocks(sizes, Pages(k.tree)) + F.Block(oldPage, oldCount);
             && AtRest(k, sizes, h, held)
             && fl.Valid() && L.Ledger(fl.inner.State(), fl.numPages, held, fl.txId)
    modifies k, fl, fl.inner
    ensures next.Some? ==> next.value.Map() == RunOnMap(old(k.Map()), ops).0 && F.Lists(fl.inner.State(), entries)
    ensures next.Some? ==>
              var ps := Pages(next.value.tree);
              && Blocks(sizes', ps) !! F.Block(page, count)
              && L.Ledger(fl.inner.State(), fl.numPages, Blocks(sizes', ps) + F.Block(page, count), fl.txId)
              && forall cells :: Writes(cells, next.value.view, sizes', ps, page, count) ==>
                   D.Closed(cells, next.value.rootPage) && L.Whole(cells, next.value.rootPage, page, count)
  {
    hide L.Ledger, Pages, Blocks, Writes, Unshared, Rep, Routable, Edge, ShadowsBy, HangsIn, F.Block, Laid, Settles,
         Doomed;
    hide Flatten, RunOnMap, Pass, Standing, Writable, Known, F.Lists, L.Whole, D.Closed, F.FreedBlock, F.Loaded, F.Same;
    ghost var held := Blocks(sizes, Pages(k.tree)) + F.Block(oldPage, oldCount);
    ghost var h', held';
    var outs;
    outs, next, sizes', h', held' := Transact(fl, k, sizes, ops, picks, threshold, h, held);
    page, count, entries := 0, 0, [];
    if next.Some? {
      ghost var ps, s, n := Pages(next.value.tree), fl.inner.State(), fl.numPages;
      assert held' == Blocks(sizes', ps) + F.Block(oldPage, oldCount);
      page, count, entries := fl.WriteFreelist(oldPage, oldCount);
      NewFreelist(s, n, Blocks(sizes', ps), oldPage, oldCount, page, count, fl.txId, fl.inner.State(), fl.numPages);
      if k.dirty {
        NoneUnwritten(next.value, sizes', h', held');
      }
      forall cells | Writes(cells, next.value.view, sizes', ps, page, count)
        ensures D.Closed(cells, next.value.rootPage) && L.Whole(cells, next.value.rootPage, page, count)
      {
        CommittedWhole(next.value, sizes', h', held', cells, page, count);
      }
    }
  }

  lemma NoneUnwritten(k: InnerBucket, sizes: map<PageId, nat>, h: nat, held: set<PageId>)
    requires AtRest(k, sizes, h, held) && k.pageNodeIds == map[]
    ensures 0 !in Pages(k.tree)
  {
  }

  lemma FreeBelow(s: F.FreeState, n: nat, held: set<PageId>, tx: F.TxId, page: PageId, count: nat)
    requires L.Ledger(s, n, held, tx) && F.RunAt(s.free, page, count) && count > 0
    ensures page != n
  {
    assert page in F.Block(page, count);
  }

  /** The freelist block is exchanged as a tree's blocks are. */
  lemma NewFreelist(s: F.FreeState, n: nat, tree: set<PageId>, oldPage: PageId, oldCount: nat, page: PageId,
                    count: nat, tx: F.TxId, s': F.FreeState, n': nat)
    requires L.Ledger(s, n, tree + F.Block(oldPage, oldCount), tx) && tree !! F.Block(oldPage, oldCount)
    requires tx > 0 && n >= 2 && count > 0
    requires L.Places(s, n, page, count) && n' == if F.RunAt(s.free, page, count) then n else n + count
    requires s' == F.FreedBlock(s, tx, oldPage, oldCount).(free := s.free - F.Block(page, count))
    ensures L.Ledger(s', n', tree + F.Block(page, count), tx) && tree !! F.Block(page, count)
  {
    hide L.Ledger, F.FreedBlock, F.Block;
    var s1 := F.FreedBlock(s, tx, oldPage, oldCount);
    F.FreedBlockContents(s, tx, oldPage, oldCount);
    LP.LedgerRetire(s, tx, oldPage, oldCount, n, tree + F.Block(oldPage, oldCount));
    assert tree + F.Block(oldPage, oldCount) - F.Block(oldPage, oldCount) == tree;
    LP.PlacesFresh(s1, n, page, count, tree, tx);
    if F.RunAt(s.free, page, count) {
      FreeBelow(s1, n, tree, tx, page, count);
    }
    LP.LedgerAllocate(s1, n, page, count, tree, tx);
  }
}
