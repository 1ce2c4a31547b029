/** The consistency check on committed snapshots: every one of them passes. */
module Audit {
  import opened Freelist
  import opened Disk
  import opened Lifecycle
  import opened Safety
  import B = BTree
  import C = Checker

  /** The checked block of a node: its children, none of them twice, and its length. */
  ghost predicate Matches(b: C.Block, c: Content)
    requires c.Node?
  {
    && multiset(C.Links(b)) == multiset(c.links) && b.overflow + 1 == c.count
    && match b.content
       case BranchPage(cs) => B.SortedKeys(C.ChildKeys(cs))
       case LeafPage(items) =>
         B.SortedKeys(C.ItemKeys(items)) && forall i :: 0 <= i < |items| ==> !items[i].kind.OtherItem?
       case _ => false
  }

  /** The file as a snapshot's pages spell it, nodes in key order. */
  ghost predicate Shows(f: C.File, sn: Snapshot) {
    && f.root == sn.meta.root && f.freelist == sn.meta.freelistPage
    && f.numPages == sn.meta.numPages && f.txId == sn.meta.tx
    && (forall p :: p in sn.cells && sn.cells[p].Node? ==> p in f.blocks && Matches(f.blocks[p], sn.cells[p]))
    && f.freelist in f.blocks && f.blocks[f.freelist].content == C.FreelistPage(Stored(sn))
    && f.blocks[f.freelist].overflow + 1 == StoredCount(sn)
  }

  // ---------- links ----------

  lemma LinksOf(f: C.File, sn: Snapshot, p: PageId, q: PageId)
    requires Shows(f, sn) && p in sn.cells && sn.cells[p].Node?
    ensures C.Of(f, C.Linked, p)[q] == if Links(sn.cells, p, q) then 1 else 0
  {
  }

  /** One of the first n nodes links to q. */
  ghost predicate LinkedBy(cells: map<PageId, Content>, order: seq<PageId>, n: nat, q: PageId)
    requires n <= |order|
  {
    exists i :: 0 <= i < n && Links(cells, order[i], q)
  }

  lemma LinkedMore(cells: map<PageId, Content>, root: PageId, order: seq<PageId>, n: nat, q: PageId)
    requires TreeOrder(cells, root, order) && n < |order|
    ensures LinkedBy(cells, order, n + 1, q) <==> LinkedBy(cells, order, n, q) || Links(cells, order[n], q)
    ensures !(LinkedBy(cells, order, n, q) && Links(cells, order[n], q))
    ensures order[n] in cells && cells[order[n]].Node?
  {
    hide Links;
    if LinkedBy(cells, order, n + 1, q) {
      var i :| 0 <= i < n + 1 && Links(cells, order[i], q);
      assert i == n || i < n;
    }
  }

  lemma {:induction false} LinkTotal(f: C.File, sn: Snapshot, order: seq<PageId>, n: nat, q: PageId)
    requires Shows(f, sn) && TreeOrder(sn.cells, sn.meta.root, order) && n <= |order|
    ensures C.Total(f, C.Linked, order[..n])[q] == if LinkedBy(sn.cells, order, n, q) then 1 else 0
  {
    hide C.Of, Shows, TreeOrder, Links;
    if n > 0 {
      hide LinkedBy, C.Total;
      LinkTotal(f, sn, order, n - 1, q);
      assert order[..n] == order[..n - 1] + [order[n - 1]];
      C.TotalLast(f, C.Linked, order[..n - 1], order[n - 1]);
      LinkedMore(sn.cells, sn.meta.root, order, n - 1, q);
      LinksOf(f, sn, order[n - 1], q);
    }
  }

  // ---------- claims ----------

  lemma {:induction false} TailCount(p: PageId, n: nat, q: PageId)
    ensures multiset(C.Overflow(p, n))[q] == if p < q <= p + n then 1 else 0
  {
    if n > 0 {
      TailCount(p, n - 1, q);
    }
  }

  lemma OverflowCount(p: PageId, n: nat, q: PageId)
    ensures multiset([p] + C.Overflow(p, n))[q] == if p <= q <= p + n then 1 else 0
  {
    hide C.Overflow;
    TailCount(p, n, q);
    assert multiset([p] + C.Overflow(p, n)) == multiset{p} + multiset(C.Overflow(p, n));
  }

  lemma ClaimsOf(f: C.File, sn: Snapshot, p: PageId, q: PageId)
    requires Shows(f, sn) && p in sn.cells && sn.cells[p].Node?
    ensures C.Of(f, C.Claimed, p)[q] == if q in BlockOf(sn.cells, p) then 1 else 0
  {
    var b := f.blocks[p];
    OverflowCount(p, b.overflow, q);
    assert Matches(b, sn.cells[p]);
    assert C.Claims(p, b) == [p] + C.Overflow(p, b.overflow);
  }

  /** q is in the block of one of the first n nodes. */
  ghost predicate OwnedBy(cells: map<PageId, Content>, order: seq<PageId>, n: nat, q: PageId)
    requires n <= |order|
  {
    exists i :: 0 <= i < n && q in BlockOf(cells, order[i])
  }

  lemma OwnedMore(sn: Snapshot, order: seq<PageId>, n: nat, q: PageId)
    requires Partition(sn.cells, order, sn.meta.freelistPage, StoredCount(sn)) && n < |order|
    ensures OwnedBy(sn.cells, order, n + 1, q) <==> OwnedBy(sn.cells, order, n, q) || q in BlockOf(sn.cells, order[n])
    ensures !(OwnedBy(sn.cells, order, n, q) && q in BlockOf(sn.cells, order[n]))
  {
    hide BlockOf, Block;
    if OwnedBy(sn.cells, order, n + 1, q) {
      var i :| 0 <= i < n + 1 && q in BlockOf(sn.cells, order[i]);
      assert i == n || i < n;
    }
    if OwnedBy(sn.cells, order, n, q) {
      var i :| 0 <= i < n && q in BlockOf(sn.cells, order[i]);
      assert BlockOf(sn.cells, order[i]) !! BlockOf(sn.cells, order[n]);
    }
  }

  lemma {:induction false} ClaimTotal(f: C.File, sn: Snapshot, order: seq<PageId>, n: nat, q: PageId)
    requires Shows(f, sn) && TreeOrder(sn.cells, sn.meta.root, order) && n <= |order|
    requires Partition(sn.cells, order, sn.meta.freelistPage, StoredCount(sn))
    ensures C.Total(f, C.Claimed, order[..n])[q] == if OwnedBy(sn.cells, order, n, q) then 1 else 0
  {
    hide C.Of, Shows, BlockOf, Partition, TreeOrder;
    if n > 0 {
      hide OwnedBy, C.Total;
      ClaimTotal(f, sn, order, n - 1, q);
      assert order[..n] == order[..n - 1] + [order[n - 1]];
      C.TotalLast(f, C.Claimed, order[..n - 1], order[n - 1]);
      OwnedMore(sn, order, n - 1, q);
      LinkedMore(sn.cells, sn.meta.root, order, n - 1, q);
      ClaimsOf(f, sn, order[n - 1], q);
    }
  }

  /** The freelist lists free and pending pages once each. */
  lemma RecordTotal(es: seq<RetiredPage>, numPages: nat, held: set<PageId>, tx: TxId, q: PageId)
    requires Lists(Loaded(es), es) && Ledger(Loaded(es), numPages, held, tx)
    ensures multiset(C.RecordPages(es))[q] == if 2 <= q < numPages && q !in held then 1 else 0
  {
    var ps := C.RecordPages(es);
    forall i, j | 0 <= i < j < |ps| ensures ps[i] != ps[j] {
      RecordsApart(es, numPages, held, tx, i, j);
    }
    RecordListed(es, numPages, held, tx, q);
    if q in ps {
      var i :| 0 <= i < |ps| && ps[i] == q;
      C.OnceIn(ps, i);
    }
  }

  lemma RecordsApart(es: seq<RetiredPage>, numPages: nat, held: set<PageId>, tx: TxId, i: nat, j: nat)
    requires Lists(Loaded(es), es) && Ledger(Loaded(es), numPages, held, tx) && i < j < |es|
    ensures es[i].pageId != es[j].pageId
  {
    hide Loaded;
    RecordOne(es, numPages, held, tx, es[i]);
    RecordOne(es, numPages, held, tx, es[j]);
    if es[i] == es[j] {
      TwiceIn(es, i, j);
    }
  }

  lemma TwiceIn<T>(s: seq<T>, i: nat, j: nat)
    requires i < j < |s| && s[i] == s[j]
    ensures multiset(s)[s[i]] >= 2
  {
    assert s == s[..j] + [s[j]] + s[j + 1..];
    assert s[i] in s[..j];
  }

  /** A record is that of a free page or of one pending page, and occurs once. */
  lemma RecordOne(es: seq<RetiredPage>, numPages: nat, held: set<PageId>, tx: TxId, r: RetiredPage)
    requires Lists(Loaded(es), es) && Ledger(Loaded(es), numPages, held, tx) && r in es
    ensures multiset(es)[r] == 1 && r.retiredTx <= tx
    ensures if r.retiredTx == 0 then r.pageId in Loaded(es).free else InPending(Loaded(es), r.retiredTx, r.pageId)
  {
    hide Loaded;
    var s := Loaded(es);
    assert multiset(es)[r] == Count(s, r) && r in multiset(es);
    if r.retiredTx != 0 {
      var pages := s.pending[r.retiredTx];
      var i :| 0 <= i < |pages| && pages[i] == r.pageId;
      assert Distinct(pages);
      C.OnceIn(pages, i);
    }
  }

  lemma RecordListed(es: seq<RetiredPage>, numPages: nat, held: set<PageId>, tx: TxId, q: PageId)
    requires Lists(Loaded(es), es) && Ledger(Loaded(es), numPages, held, tx)
    ensures q in C.RecordPages(es) <==> 2 <= q < numPages && q !in held
  {
    hide Loaded;
    var s, ps := Loaded(es), C.RecordPages(es);
    if q in ps {
      var i :| 0 <= i < |ps| && ps[i] == q;
      RecordOne(es, numPages, held, tx, es[i]);
    }
    if 2 <= q < numPages && q !in held {
      var r := RetiredPage(q, 0);
      if q !in s.free {
        var t: TxId :| InPending(s, t, q);
        r := RetiredPage(q, t);
      }
      assert Count(s, r) > 0 && multiset(es)[r] == Count(s, r);
      assert r in multiset(es) && r in es;
      var i :| 0 <= i < |es| && es[i] == r;
      assert ps[i] == q;
    }
  }

  // ---------- the certificate ----------

  lemma FreelistClaims(f: C.File, sn: Snapshot, q: PageId)
    requires Shows(f, sn) && SnapshotOk(sn) && WholeSnapshot(sn)
    ensures C.Of(f, C.Claimed, f.freelist)[q] ==
            (if q in Block(f.freelist, StoredCount(sn)) then 1 else 0)
            + (if 2 <= q < f.numPages && q !in sn.cells.Keys then 1 else 0)
    ensures C.Of(f, C.Linked, f.freelist) == multiset{}
  {
    hide Whole, Ledger, Loaded, Lists, Closed, Matches;
    var b := f.blocks[f.freelist];
    OverflowCount(f.freelist, b.overflow, q);
    RecordTotal(Stored(sn), f.numPages, sn.cells.Keys, sn.meta.tx, q);
    assert C.Claims(f.freelist, b) == ([f.freelist] + C.Overflow(f.freelist, b.overflow)) + C.RecordPages(Stored(sn));
  }

  lemma CellInFile(sn: Snapshot, q: PageId)
    requires SnapshotOk(sn) && q in sn.cells
    ensures 2 <= q < sn.meta.numPages
  {
  }

  lemma AllClaimed(f: C.File, sn: Snapshot, order: seq<PageId>)
    requires Shows(f, sn) && SnapshotOk(sn) && WholeSnapshot(sn)
    requires TreeOrder(sn.cells, sn.meta.root, order) && Partition(sn.cells, order, sn.meta.freelistPage,
             StoredCount(sn))
    ensures C.Total(f, C.Claimed, order + [f.freelist]) == multiset(C.Universe(f))
  {
    hide Whole, Ledger, Loaded, Lists, Closed, C.Of, TreeOrder, C.Universe, WholeSnapshot, C.Total, Partition, OwnedBy,
         Matches;
    C.TotalLast(f, C.Claimed, order, f.freelist);
    var total := C.Total(f, C.Claimed, order + [f.freelist]);
    forall q: PageId ensures total[q] == multiset(C.Universe(f))[q] {
      ClaimTotal(f, sn, order, |order|, q);
      assert order[..|order|] == order;
      FreelistClaims(f, sn, q);
      InUniverse(f, q);
      if q in sn.cells {
        CellInFile(sn, q);
      }
      OnePart(sn, order, q);
    }
  }

  lemma InUniverse(f: C.File, q: PageId)
    ensures q in C.Universe(f) <==> 2 <= q < f.numPages
  {
  }

  /** A page of the snapshot is in one block, any other in none. */
  lemma OnePart(sn: Snapshot, order: seq<PageId>, q: PageId)
    requires SnapshotOk(sn) && Partition(sn.cells, order, sn.meta.freelistPage, StoredCount(sn))
    ensures (if OwnedBy(sn.cells, order, |order|, q) then 1 else 0)
            + (if q in Block(sn.meta.freelistPage, StoredCount(sn)) then 1 else 0) == if q in sn.cells then 1 else 0
  {
    hide Ledger, Closed, BlockOf, Block;
  }

  lemma AllLinked(f: C.File, sn: Snapshot, order: seq<PageId>)
    requires Shows(f, sn) && SnapshotOk(sn) && WholeSnapshot(sn) && TreeOrder(sn.cells, sn.meta.root, order)
    ensures multiset(order + [f.freelist]) == multiset{f.root, f.freelist} + C.Total(f, C.Linked, order + [f.freelist])
  {
    hide Whole, Ledger, Loaded, Lists, Closed, C.Of, WholeSnapshot, SnapshotOk, C.Total, TreeOrder, LinkedBy, Matches;
    C.TotalLast(f, C.Linked, order, f.freelist);
    FreelistClaims(f, sn, 0);
    forall q: PageId ensures multiset(order)[q] == multiset{f.root}[q] + C.Total(f, C.Linked, order)[q] {
      LinkTotal(f, sn, order, |order|, q);
      assert order[..|order|] == order;
      Once(sn, order, q);
    }
    assert multiset(order) == multiset{f.root} + C.Total(f, C.Linked, order);
  }

  lemma Once(sn: Snapshot, order: seq<PageId>, q: PageId)
    requires TreeOrder(sn.cells, sn.meta.root, order)
    ensures multiset(order)[q] ==
            (if q == sn.meta.root then 1 else 0) + if LinkedBy(sn.cells, order, |order|, q) then 1 else 0
  {
    hide Links;
    if q in order {
      var i :| 0 <= i < |order| && order[i] == q;
      C.OnceIn(order, i);
    }
  }

  /** A whole snapshot passes the check. */
  lemma SnapshotPasses(f: C.File, sn: Snapshot)
    requires SnapshotOk(sn) && WholeSnapshot(sn) && Shows(f, sn)
    ensures exists order :: C.Certificate(f, order)
  {
    hide Ledger, Loaded, Lists, Closed, C.Of, C.Total, C.Universe, C.Fine, C.Rooted, TreeOrder, Partition, Shows,
         SnapshotOk;
    var tree :| TreeOrder(sn.cells, sn.meta.root, tree) && Partition(sn.cells, tree, sn.meta.freelistPage,
        StoredCount(sn));
    var order := tree + [f.freelist];
    AllClaimed(f, sn, tree);
    AllLinked(f, sn, tree);
    forall i | 0 <= i < |order| ensures C.Fine(f, order[i]) && C.Rooted(f, order, i) {
      if i < |tree| {
        NodePasses(f, sn, tree, i);
      } else {
        ListPasses(f, sn);
        ListRooted(f, tree);
      }
    }
    assert C.Certificate(f, order);
  }

  lemma NodePasses(f: C.File, sn: Snapshot, tree: seq<PageId>, i: nat)
    requires Shows(f, sn) && TreeOrder(sn.cells, sn.meta.root, tree) && i < |tree|
    ensures C.Fine(f, tree[i]) && C.Rooted(f, tree + [f.freelist], i)
  {
    hide C.Of;
    var order := tree + [f.freelist];
    assert Matches(f.blocks[tree[i]], sn.cells[tree[i]]);
    if i > 0 {
      var j :| 0 <= j < i && Links(sn.cells, tree[j], tree[i]);
      LinksOf(f, sn, tree[j], tree[i]);
      assert order[i] in C.Of(f, C.Linked, order[j]);
    }
  }

  lemma ListRooted(f: C.File, tree: seq<PageId>)
    ensures C.Rooted(f, tree + [f.freelist], |tree|)
  {
  }

  lemma ListPasses(f: C.File, sn: Snapshot)
    requires Shows(f, sn) && SnapshotOk(sn) && WholeSnapshot(sn)
    ensures C.Fine(f, f.freelist)
  {
    hide Whole, Ledger, Loaded, Lists, Closed, Matches;
    forall r | r in Stored(sn) ensures r.retiredTx <= f.txId {
      RecordOne(Stored(sn), f.numPages, sn.cells.Keys, sn.meta.tx, r);
    }
  }

  /** After any sound run every committed snapshot passes the check. */
  lemma CommittedPasses(states: seq<State>, steps: seq<Step>, n: nat, t: TxId, f: C.File)
    requires SoundRun(states, steps, n) && t in states[n].history && Shows(f, states[n].history[t])
    ensures exists order :: C.Certificate(f, order)
  {
    hide SnapshotOk, WholeSnapshot, Shows, C.Certificate, MetasOk;
    RunInv(states, steps, n);
    var fallback, current, kept :| Consistent(states[n], fallback, current, kept);
    SnapshotPasses(f, states[n].history[t]);
  }
}
