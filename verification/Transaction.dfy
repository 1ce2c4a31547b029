/** One bucket from the start of a transaction to the next: edits, merges of whatever nodes
    in whatever order, promotion, writing out, reopening. */
module Transaction {
  import opened Wrappers
  import opened Bytes
  import opened BTree
  import opened LeafEdit
  import opened Overlay
  import opened Traversal
  import opened Rebalance
  import opened Committed
  import opened Spill
  import opened Handover
  import opened Merging
  import opened Outcome
  import F = Freelist
  import L = Lifecycle

  // ---------- the bucket's tree ----------

  lemma {:induction false} ShapePages(t: Tree)
    ensures Pages(Shape(t)) == Pages(t)
    decreases t
  {
    hide Pages;
    var s := Shape(t);
    PagesOfNode(t);
    PagesOfNode(s);
    if t.Branch? {
      forall p ensures p in PagesAll(s.kids) <==> p in PagesAll(t.kids) {
        InPagesAll(s.kids, p);
        InPagesAll(t.kids, p);
        forall i | 0 <= i < |t.kids| ensures Pages(s.kids[i]) == Pages(t.kids[i]) {
          ShapePages(t.kids[i]);
        }
      }
    }
  }

  lemma {:induction false} ShapeBalanced(t: Tree, h: nat)
    ensures Balanced(Shape(t), h) <==> Balanced(t, h)
    decreases t
  {
    if t.Branch? && h > 0 {
      forall i | 0 <= i < |t.kids| ensures Balanced(Shape(t).kids[i], h - 1) <==> Balanced(t.kids[i], h - 1) {
        ShapeBalanced(t.kids[i], h - 1);
      }
    }
  }

  /** What the loaded nodes and the pages under them spell. */
  method ReadTree(k: InnerBucket, page: PageId, ghost t: Tree) returns (r: Tree)
    requires k.Valid() && Within(k.tree, t) && t.page == page
    ensures r == t
    decreases t
  {
    hide Routable, Edge, Unshared, k.ParentsKnown, k.AllAttached, ShadowsBy, Within;
    WithinRep(k.view, k.tree, t);
    var d := k.PageNode(OfPage(page));
    match d
    case Leaves(es) => r := Leaf(page, es);
    case Branches(seps, pages) =>
      var kids := [];
      for i := 0 to |pages|
        invariant |kids| == i && forall j :: 0 <= j < i ==> kids[j] == t.kids[j]
      {
        WithinStep(k.tree, t, i);
        var kid := ReadTree(k, pages[i], t.kids[i]);
        kids := kids + [kid];
      }
      assert kids == t.kids;
      r := Branch(page, seps, kids);
  }

  // ---------- between transactions ----------

  /** The nodes at `ps` own disjoint, held blocks; page 0 stands for a loaded node never
      written. */
  ghost predicate Laid(sizes: map<PageId, nat>, ps: set<PageId>, loaded: set<PageId>, held: set<PageId>) {
    && (forall p :: p in ps ==> p in sizes && F.Block(p, sizes[p]) <= held)
    && (forall p :: p in ps ==> (p > 1 && sizes[p] > 0) || (p == 0 && sizes[p] == 0 && p in loaded))
    && forall p, q :: p in ps && q in ps && p != q ==> F.Block(p, sizes[p]) !! F.Block(q, sizes[q])
  }

  /** A bucket as a commit leaves it, or one just created. */
  ghost predicate AtRest(k: InnerBucket, sizes: map<PageId, nat>, h: nat, held: set<PageId>)
    reads k
  {
    && k.Valid() && Balanced(k.tree, h)
    && (TightPages(k.store, Pages(k.tree)) || (k.tree.Leaf? && k.rootPage in k.pageNodeIds))
    && Laid(sizes, Pages(k.tree), k.pageNodeIds.Keys, held)
  }

  /** What the transaction knows of the bucket with tree t. */
  function Known(k: InnerBucket, sizes: map<PageId, nat>, t: Tree): Base
    reads k
  {
    Base(k.store, map p | p in k.pageNodeIds && p in sizes :: sizes[p],
         map p | p in k.pageNodeIds && k.pageNodeIds[p] < |k.nodes| && k.nodes[k.pageNodeIds[p]].originalKey.Some?
           :: k.nodes[k.pageNodeIds[p]].originalKey.value,
         Blocks(sizes, Pages(t) - k.pageNodeIds.Keys))
  }

  lemma {:induction false} EdgePage(t: Tree, q: PageId, p: PageId)
    requires Edge(t, q, p)
    ensures p in Pages(t)
    decreases t
  {
    hide Pages;
    var i :| 0 <= i < |t.kids| && ((q == t.page && p == t.kids[i].page) || Edge(t.kids[i], q, p));
    PagesOfNode(t);
    KidPages(t, i);
    PagesOfNode(t.kids[i]);
    if Edge(t.kids[i], q, p) {
      EdgePage(t.kids[i], q, p);
    }
  }

  /** Loaded nodes are the tree's. */
  lemma LoadedPages(k: InnerBucket)
    requires k.Valid()
    ensures k.pageNodeIds.Keys <= Pages(k.tree)
  {
    hide Pages, Edge, Routable, Unshared, Rep, ShadowsBy;
    PagesOfNode(k.tree);
    forall p | p in k.pageNodeIds ensures p in Pages(k.tree) {
      if p != k.rootPage {
        assert k.Attached(p);
        EdgePage(k.tree, k.pageParents[p], p);
      }
    }
  }

  lemma LaidTracks(k: InnerBucket, sizes: map<PageId, nat>, ps: set<PageId>, held: set<PageId>)
    requires Laid(sizes, ps, k.pageNodeIds.Keys, held) && k.pageNodeIds.Keys <= ps == Pages(k.tree)
    ensures var b := Known(k, sizes, k.tree); BlocksOk(b) && Tracks(b, sizes, ps) && b.counts.Keys == k.pageNodeIds.Keys
    ensures Blocks(sizes, ps) <= held
  {
    hide Pages, Blocks, F.Block;
    var b, loaded := Known(k, sizes, k.tree), k.pageNodeIds.Keys;
    assert forall p :: p in b.counts ==> b.counts[p] == sizes[p];
    forall p | p in ps ensures F.Block(p, sizes[p]) <= Blocks(sizes, ps) {
      OwnBlock(sizes, ps, p);
    }
    forall p | p in ps - loaded ensures F.Block(p, sizes[p]) <= b.keep {
      OwnBlock(sizes, ps - loaded, p);
    }
    forall p, x | p in loaded && x in F.Block(p, sizes[p]) ensures x !in b.keep {
      NoOther(sizes, ps, loaded, held, p, x);
    }
    forall x | x in Blocks(sizes, ps) ensures x in held && x != 0 {
      var p := BlockOwner(sizes, ps, x);
    }
    BlocksMore(sizes, ps - loaded, ps);
  }

  lemma OwnBlock(sizes: map<PageId, nat>, ps: set<PageId>, p: PageId)
    requires p in ps && p in sizes
    ensures F.Block(p, sizes[p]) <= Blocks(sizes, ps)
  {
  }

  lemma BlockOwner(sizes: map<PageId, nat>, ps: set<PageId>, x: PageId) returns (p: PageId)
    requires x in Blocks(sizes, ps)
    ensures p in ps && p in sizes && x in F.Block(p, sizes[p]) && p <= x
  {
    p :| p in ps && p in sizes && x in F.Block(p, sizes[p]);
  }

  lemma NoOther(sizes: map<PageId, nat>, ps: set<PageId>, loaded: set<PageId>, held: set<PageId>, p: PageId, x: PageId)
    requires Laid(sizes, ps, loaded, held) && p in ps && p in loaded && x in F.Block(p, sizes[p])
    ensures x !in Blocks(sizes, ps - loaded)
  {
    if x in Blocks(sizes, ps - loaded) {
      var q := BlockOwner(sizes, ps - loaded, x);
      assert false;
    }
  }

  /** A bucket at rest, edited, is fit for merging once its root is loaded. */
  lemma EditedStanding(k: InnerBucket, sizes: map<PageId, nat>, h: nat, held: set<PageId>)
    requires AtRest(k, sizes, h, held) && k.rootPage in k.pageNodeIds
    ensures Standing(Known(k, sizes, k.tree), sizes, Pages(k.tree), k.tree, h, held - Blocks(sizes, Pages(k.tree)),
            held)
  {
    hide Pages, Routable, Unshared, Laid, Tracks, BlocksOk, Blocks, Balanced, TightPages, Staged, Ready;
    var b := Known(k, sizes, k.tree);
    LoadedPages(k);
    LaidTracks(k, sizes, Pages(k.tree), held);
    if TightPages(k.store, Pages(k.tree)) {
      BucketReady(k, b, sizes);
    } else {
      RoutableStaged(k.tree);
      LeafReady(b, k.tree);
    }
  }

  lemma LeafReady(b: Base, t: Tree)
    requires t.Leaf? && t.page in b.counts
    ensures Ready(b, t)
  {
  }

  // ---------- writing and reopening ----------

  /** Writes the bucket of one transaction and opens it in the next: a merged tree goes in,
      the next transaction reads exactly its entries, over pages fit for the next commit.
      Of the pages held, exactly the tree's blocks are exchanged. */
  method CommitBucket(fl: F.TxFreelist, b: Base, sizes: map<PageId, nat>, threshold: nat, t: Tree, nextInt: nat,
                      ghost ps: set<PageId>, ghost h: nat, ghost others: set<PageId>, ghost held: set<PageId>)
    returns (k: InnerBucket, sizes': map<PageId, nat>, ghost h': nat, ghost held': set<PageId>)
    requires Standing(b, sizes, ps, t, h, others, held) && Writable(b, t)
    requires fl.Valid() && L.Ledger(fl.inner.State(), fl.numPages, held, fl.txId)
    modifies fl, fl.inner
    ensures k.Map() == Contents(t) && k.nextInt == nextInt && AtRest(k, sizes', h', held')
    ensures k.tree == Leaf(k.tree.page, []) || Full(k.tree)
    ensures fl.Valid() && L.Ledger(fl.inner.State(), fl.numPages, held', fl.txId)
    ensures others !! Blocks(sizes', Pages(k.tree)) && held' == others + Blocks(sizes', Pages(k.tree))
    ensures k.pageNodeIds == map[]
  {
    hide BlocksOk, Old, L.Ledger, Spills, Pages, Rep, Kept, Routable, Unshared, Flatten, Blocks, Tracks, Balanced, Laid;
    hide F.Block, LengthsOk, RetiredSince, Staged, Ready, Tight, Full, TightPages, Contents;
    StandingHeld(b, sizes, ps, t, h, others, held);
    var sp := new Spiller(fl, b.store, b.counts, b.orig, threshold, b.keep, held);
    var root;
    ghost var before := sp.Now();
    root, h' := sp.SpillRoot(t, h);
    KeptNew(before, sp.Now(), Old(b, Pages(t)), Pages(root) - b.keep);
    held', sizes' := sp.held, sizes + sp.lengths;
    if root != Leaf(root.page, []) {
      TightFull(root);
    }
    k := new InnerBucket.FromMeta(b.store + sp.written, root.page, nextInt, root);
    SameContents(t, root);
    RootTight(k.store, root);
    NewLayout(b, sizes, ps, t, h, others, held, sp.lengths, sp.used, held', Pages(root));
    assert k.pageNodeIds.Keys == {};
  }

  lemma RootTight(store: map<PageId, PageData>, root: Tree)
    requires Rep(store, root) && (root == Leaf(root.page, []) || Tight(root))
    ensures TightPages(store, Pages(root))
  {
    hide Pages, Rep, Tight;
    forall p | p in Pages(root) ensures TightPage(store, p) {
      if root == Leaf(root.page, []) {
        PagesOfNode(root);
        RepLeaf(store, root);
      } else {
        TightCommits(store, root, p);
      }
    }
  }

  lemma RepLeaf(view: map<PageId, PageData>, t: Tree)
    requires Rep(view, t) && t.Leaf?
    ensures TightPage(view, t.page)
  {
  }

  lemma StandingHeld(b: Base, sizes: map<PageId, nat>, ps: set<PageId>, t: Tree, h: nat, others: set<PageId>,
                     held: set<PageId>)
    requires Standing(b, sizes, ps, t, h, others, held)
    ensures BlocksOk(b) && Old(b, Pages(t)) <= held && b.keep <= held
    ensures t.page in b.counts && (Full(t) ==> Spills(b, t, h))
    ensures Old(b, Pages(t)) == Blocks(sizes, Pages(t) * b.counts.Keys)
  {
    hide Pages, BlocksOk, F.Block, Staged, Unshared, Balanced, Full;
    BlocksMore(sizes, Pages(t) - b.counts.Keys, Pages(t));
    LoadedBlocks(b, sizes, ps, Pages(t));
    BlocksMore(sizes, Pages(t) * b.counts.Keys, Pages(t));
  }

  lemma LoadedBlocks(b: Base, sizes: map<PageId, nat>, ps: set<PageId>, qs: set<PageId>)
    requires Tracks(b, sizes, ps) && qs <= ps
    ensures Old(b, qs) == Blocks(sizes, qs * b.counts.Keys)
  {
    hide F.Block;
    forall x | x in Old(b, qs) ensures x in Blocks(sizes, qs * b.counts.Keys) {
      var p :| p in qs && p in b.counts && x in F.Block(p, b.counts[p]);
      assert p in qs * b.counts.Keys && p in sizes && x in F.Block(p, sizes[p]);
    }
  }

  lemma KeptNew(m: Memory, m': Memory, gone: set<PageId>, ps: set<PageId>)
    requires Kept(m, m', gone, ps)
    ensures Blocks(m'.lengths, ps) !! m.used && ps <= m'.lengths.Keys
  {
  }

  /** Among a tree's pages, those of kept blocks are the nodes never loaded. */
  lemma UnloadedKept(b: Base, sizes: map<PageId, nat>, ps: set<PageId>, t: Tree, h: nat, others: set<PageId>,
                     held: set<PageId>)
    requires Standing(b, sizes, ps, t, h, others, held)
    ensures Pages(t) * b.keep == Pages(t) - b.counts.Keys
  {
    hide Pages, BlocksOk, Staged, Unshared, Balanced, Ready, F.Block;
    forall p | p in Pages(t) ensures p in b.keep <==> p !in b.counts {
      if p in b.counts {
        if p in b.keep {
          KeptUnloaded(b, p);
          assert false;
        }
      } else {
        FirstPage(p, sizes[p]);
      }
    }
  }

  /** The tree's blocks without the loaded ones. */
  lemma BlocksMinus(b: Base, sizes: map<PageId, nat>, ps: set<PageId>, qs: set<PageId>, rs: set<PageId>)
    requires Tracks(b, sizes, ps) && qs <= ps
    ensures Blocks(sizes, qs) - Blocks(sizes, qs * rs) == Blocks(sizes, qs - rs)
  {
    hide F.Block;
    forall x | x in Blocks(sizes, qs - rs) ensures x !in Blocks(sizes, qs * rs) {
      var p :| p in qs - rs && p in sizes && x in F.Block(p, sizes[p]);
    }
  }

  /** After the writing pass the nodes of the new tree own the blocks held beside `others`. */
  lemma NewLayout(b: Base, sizes: map<PageId, nat>, ps: set<PageId>, t: Tree, h: nat, others: set<PageId>,
                  held: set<PageId>,
                  lengths: map<PageId, nat>, used: set<PageId>, held': set<PageId>, now: set<PageId>)
    requires Standing(b, sizes, ps, t, h, others, held) && LengthsOk(lengths, used)
    requires now * b.keep == Pages(t) * b.keep && now - b.keep <= lengths.Keys && lengths.Keys !! b.keep
    requires Blocks(lengths, now - b.keep) !! held
    requires held' == held - Old(b, Pages(t)) + Blocks(lengths, now - b.keep)
    ensures others !! Blocks(sizes + lengths, now) && held' == others + Blocks(sizes + lengths, now)
    ensures Laid(sizes + lengths, now, {}, held')
  {
    hide Pages, BlocksOk, Staged, Unshared, Balanced, Ready, F.Block, Blocks, Old, LengthsOk, Laid, Tracks;
    UnloadedKept(b, sizes, ps, t, h, others, held);
    StandingHeld(b, sizes, ps, t, h, others, held);
    var u, n, all := Pages(t) - b.counts.Keys, now - b.keep, sizes + lengths;
    BlocksMinus(b, sizes, ps, Pages(t), b.counts.Keys);
    BlocksMore(sizes, Pages(t), ps);
    BlocksMore(sizes, Pages(t) * b.counts.Keys, Pages(t));
    assert now == u + n;
    TwoParts(sizes, lengths, u, n);
    assert held' == others + Blocks(all, now);
    LaidParts(b, sizes, ps, u, lengths, used, n, held, held');
  }

  lemma TwoParts(sizes: map<PageId, nat>, lengths: map<PageId, nat>, u: set<PageId>, n: set<PageId>)
    requires lengths.Keys !! u && n <= lengths.Keys
    ensures Blocks(sizes + lengths, u + n) == Blocks(sizes, u) + Blocks(lengths, n)
  {
    hide F.Block;
    var all := sizes + lengths;
    forall x | x in Blocks(sizes, u) + Blocks(lengths, n) ensures x in Blocks(all, u + n) {
      if x in Blocks(sizes, u) {
        var p :| p in u && p in sizes && x in F.Block(p, sizes[p]);
        assert p in u + n && p in all && all[p] == sizes[p];
      } else {
        var p :| p in n && p in lengths && x in F.Block(p, lengths[p]);
        assert p in u + n && p in all && all[p] == lengths[p];
      }
    }
  }

  lemma LaidParts(b: Base, sizes: map<PageId, nat>, ps: set<PageId>, u: set<PageId>, lengths: map<PageId, nat>,
                  used: set<PageId>,
                  n: set<PageId>, held: set<PageId>, held': set<PageId>)
    requires Tracks(b, sizes, ps) && u <= ps && u !! b.counts.Keys && LengthsOk(lengths, used)
    requires lengths.Keys !! u && n <= lengths.Keys
    requires Blocks(sizes, u) <= held && Blocks(lengths, n) !! held && Blocks(sizes, u) + Blocks(lengths, n) <= held'
    ensures Laid(sizes + lengths, u + n, {}, held')
  {
    hide F.Block;
    var all := sizes + lengths;
    forall p | p in u + n
      ensures p in all && p > 1 && all[p] > 0
      ensures F.Block(p, all[p]) <= if p in u then Blocks(sizes, u) else Blocks(lengths, n)
    {
    }
    forall p, q | p in u + n && q in u + n && p != q ensures F.Block(p, all[p]) !! F.Block(q, all[q]) {
    }
  }

  /** A whole transaction on one bucket: whatever is read and written, and whichever nodes are
      merged in whatever order, the next transaction finds what the sorted map would hold, in a
      bucket at rest again.  Of the pages held exactly the tree's blocks are exchanged.  It stops
      if the merged tree cannot be written: never for an edited tree that settles, always for a
      doomed one, and for any other depending on the merges. */
  method Transact(fl: F.TxFreelist, k: InnerBucket, sizes: map<PageId, nat>, ops: seq<Op>, picks: seq<Merge>,
                  threshold: nat,
                  ghost h: nat, ghost held: set<PageId>)
    returns (outs: seq<Result<Option<Datum>>>, next: Option<InnerBucket>, sizes': map<PageId, nat>, ghost h': nat,
             ghost held': set<PageId>)
    requires AtRest(k, sizes, h, held)
    requires fl.Valid() && L.Ledger(fl.inner.State(), fl.numPages, held, fl.txId)
    modifies k, fl, fl.inner
    ensures outs == RunOnMap(old(k.Map()), ops).1
    ensures next.Some? ==> next.value.Map() == RunOnMap(old(k.Map()), ops).0 && AtRest(next.value, sizes', h', held')
    ensures next.Some? ==> fl.Valid() && L.Ledger(fl.inner.State(), fl.numPages, held', fl.txId)
    ensures next.Some? ==> held' == held - old(Blocks(sizes, Pages(k.tree))) + Blocks(sizes', Pages(next.value.tree))
    ensures next.Some? ==> held - old(Blocks(sizes, Pages(k.tree))) !! Blocks(sizes', Pages(next.value.tree))
    ensures Pages(k.tree) == old(Pages(k.tree)) && (k.dirty && next.Some? ==> next.value.pageNodeIds == map[])
    ensures !k.dirty ==> next == Some(k)
    ensures AtRest(k, sizes, h, held) && (k.dirty ==> k.rootPage in k.pageNodeIds)
    ensures next.Some? <==>
            !k.dirty ||
            (EditedStanding(k, sizes, h, held);
             var (b, t) := Pass(Known(k, sizes, k.tree), sizes, Pages(k.tree), k.tree, h,
                                held - Blocks(sizes, Pages(k.tree)), held, picks);
             Writable(b, t))
    ensures k.dirty && Settles(k.pageNodeIds.Keys, k.tree) ==> next.Some?
    ensures k.dirty && Doomed(k.pageNodeIds.Keys, k.tree, h) ==> next.None?
  {
    hide Settles, Doomed;
    hide L.Ledger, Standing, Pass, Flatten, Contents, Writable, Known, Blocks, Pages, Laid, TightPages, Balanced,
         Routable;
    hide Unshared, Rep, ShadowsBy, Edge, HangsIn, Shape, RunOnMap;
    outs := k.Run(ops);
    SameShape(old(k.tree), k.tree, h);
    EditedAtRest(k, sizes, h, held, old(k.tree), old(k.pageNodeIds.Keys));
    if !k.dirty {
      next, sizes', h', held' := Some(k), sizes, h, held;
      HeldAgain(sizes, Pages(k.tree), k.pageNodeIds.Keys, held);
      return;
    }
    LoadRoot(k);
    EditedAtRest(k, sizes, h, held, k.tree, old(k.pageNodeIds.Keys));
    EditedStanding(k, sizes, h, held);
    Foreseen(k, sizes, h, held, picks);
    WithinSelf(k.tree);
    var t := ReadTree(k, k.rootPage, k.tree);
    var b, t';
    ghost var others, h1, held1 := held - Blocks(sizes, Pages(t)), 0, {};
    b, t', h1, held1 := MergeNodes(fl, Known(k, sizes, t), sizes, t, picks, Pages(t), h, others, held);
    if !Writable(b, t') {
      next, sizes', h', held' := None, sizes, h, held;
      return;
    }
    WritableLoaded(b, t');
    SameContents(t, t');
    var k';
    k', sizes', h', held' := CommitBucket(fl, b, sizes, threshold, t', k.nextInt, Pages(t), h1, others, held1);
    next := Some(k');
  }

  /** What the edited tree and the loaded pages say of the merges to come. */
  lemma Foreseen(k: InnerBucket, sizes: map<PageId, nat>, h: nat, held: set<PageId>, picks: seq<Merge>)
    requires AtRest(k, sizes, h, held) && k.rootPage in k.pageNodeIds
    requires Standing(Known(k, sizes, k.tree), sizes, Pages(k.tree), k.tree, h, held - Blocks(sizes, Pages(k.tree)),
             held)
    ensures var (b, t) := Pass(Known(k, sizes, k.tree), sizes, Pages(k.tree), k.tree, h,
                               held - Blocks(sizes, Pages(k.tree)), held, picks);
            && (Settles(k.pageNodeIds.Keys, k.tree) ==> Writable(b, t))
            && (Doomed(k.pageNodeIds.Keys, k.tree, h) ==> !Writable(b, t))
  {
    hide Standing, Pass, Settles, Doomed, Pages, Blocks, Laid, Known;
    var s := Stage(Known(k, sizes, k.tree), sizes, Pages(k.tree), k.tree, h, held - Blocks(sizes, Pages(k.tree)), held);
    LoadedPages(k);
    LaidTracks(k, sizes, Pages(k.tree), held);
    Foretold(s, picks);
  }

  lemma SameShape(t: Tree, t': Tree, h: nat)
    requires Shape(t) == Shape(t')
    ensures Pages(t) == Pages(t') && (Balanced(t, h) <==> Balanced(t', h)) && (t.Leaf? <==> t'.Leaf?)
  {
    ShapePages(t);
    ShapePages(t');
    ShapeBalanced(t, h);
    ShapeBalanced(t', h);
  }

  lemma EditedAtRest(k: InnerBucket, sizes: map<PageId, nat>, h: nat, held: set<PageId>, t: Tree, loaded: set<PageId>)
    requires k.Valid() && Balanced(k.tree, h) && Pages(k.tree) == Pages(t) && (k.tree.Leaf? <==> t.Leaf?)
    requires Laid(sizes, Pages(t), loaded, held) && loaded <= k.pageNodeIds.Keys
    requires TightPages(k.store, Pages(t)) || (t.Leaf? && k.rootPage in loaded)
    ensures AtRest(k, sizes, h, held)
  {
    hide Pages, F.Block, TightPages, Balanced;
  }

  lemma HeldAgain(sizes: map<PageId, nat>, ps: set<PageId>, loaded: set<PageId>, held: set<PageId>)
    requires Laid(sizes, ps, loaded, held)
    ensures held == held - Blocks(sizes, ps) + Blocks(sizes, ps)
  {
  }

  method LoadRoot(k: InnerBucket)
    requires k.Valid()
    modifies k`nodes, k`pageNodeIds
    ensures k.Valid() && k.rootPage in k.pageNodeIds && old(k.pageNodeIds).Keys <= k.pageNodeIds.Keys
  {
    hide Routable, Unshared, Rep, ShadowsBy, Edge, HangsIn;
    RepHasPage(k.view, k.tree);
    var id := k.LoadPage(k.rootPage, {});
  }

  lemma WritableLoaded(b: Base, t: Tree)
    requires Writable(b, t)
    ensures t.page in b.counts
  {
  }

  lemma SameContents(t: Tree, t': Tree)
    requires Flatten(t) == Flatten(t')
    ensures Contents(t) == Contents(t')
  {
  }
}
