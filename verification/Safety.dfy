/** What every step of the protocol keeps, and what follows over whole runs: snapshot
    safety, page conservation and crash atomicity. */
module Safety {
  import opened Wrappers
  import opened Freelist
  import opened Disk
  import opened Lifecycle
  import opened LedgerProof

  lemma ReaderSteps(s: State, step: Step, s': State, f: Meta, c: Meta, k: bool)
    requires Consistent(s, f, c, k) && Next(s, step, s') && (step.ReaderStart? || step.ReaderEnd?)
    ensures Consistent(s', f, c, k)
  {
    hide Ledger, SnapshotOk, MetasOk, DataOk, AllProtected, WriterOk, Loaded, Stored, HistoryOk, Consistent;
    Parts(s, f, c, k);
    SelectedMetas(s.metas, f, c);
    forall t | Live(s', f, c, k, t) ensures Live(s, f, c, k, t) {
      if t in s'.readers.Values {
        var id :| id in s'.readers && s'.readers[id] == t;
      }
    }
    ReadersKnown(s, s', f, c);
    FewerLive(s, s', f, c, k);
  }

  lemma ReadersKnown(s: State, s': State, f: Meta, c: Meta)
    requires HistoryOk(s, f, c) && s'.history == s.history
    requires forall id :: id in s'.readers ==> s'.readers[id] == c.tx
                                               || (id in s.readers && s.readers[id] == s'.readers[id])
    ensures HistoryOk(s', f, c)
  {
    hide SnapshotOk;
  }

  /** Every condition only shrinks when fewer snapshots are live. */
  lemma FewerLive(s: State, s': State, f: Meta, c: Meta, k: bool)
    requires Consistent(s, f, c, k) && HistoryOk(s', f, c)
    requires s'.history == s.history && s'.writer == s.writer && s'.data == s.data && s'.metas == s.metas
    requires forall t :: Live(s', f, c, k, t) ==> Live(s, f, c, k, t)
    ensures Consistent(s', f, c, k)
  {
    hide Ledger, SnapshotOk, MetasOk, Loaded, Stored, Live, HistoryOk, Visible, Solid, NextOk, EditingOk, AllProtected;
    Parts(s, f, c, k);
    FewerProtected(s, s', f, c, k, Loaded(Stored(s.history[c.tx])), s.history[c.tx].cells.Keys);
    if s.writer.Some? {
      FewerWriter(s, s', f, c, k, s.writer.value);
    }
  }

  lemma FewerProtected(s: State, s': State, f: Meta, c: Meta, k: bool, fl: FreeState, held: set<PageId>)
    requires s'.history == s.history && forall t :: Live(s', f, c, k, t) ==> Live(s, f, c, k, t)
    ensures AllProtected(s, f, c, k, fl, held) ==> AllProtected(s', f, c, k, fl, held)
  {
    hide Protected, Live;
  }

  lemma FewerWriter(s: State, s': State, f: Meta, c: Meta, k: bool, w: Writer)
    requires s'.history == s.history && forall t :: Live(s', f, c, k, t) ==> Live(s, f, c, k, t)
    ensures EditingOk(s, f, c, k, w) ==> EditingOk(s', f, c, k, w)
    ensures forall next :: NextOk(s, f, c, k, w, next) ==> NextOk(s', f, c, k, w, next)
  {
    hide Ledger, SnapshotOk, Loaded, Stored, Live, AllProtected, Held;
    FewerProtected(s, s', f, c, k, w.fl, Held(w));
    forall next | NextOk(s, f, c, k, w, next) ensures NextOk(s', f, c, k, w, next) {
      FewerProtected(s, s', f, c, k, Loaded(Stored(next)), next.cells.Keys);
    }
  }

  lemma CurrentSnapshot(s: State, f: Meta, c: Meta)
    requires HistoryOk(s, f, c)
    ensures var sn := s.history[c.tx];
            && c.freelistPage in sn.cells && sn.cells[c.freelistPage] == Records(Stored(sn), StoredCount(sn))
            && StoredCount(sn) > 0 && Block(c.freelistPage, StoredCount(sn)) <= sn.cells.Keys
            && Ledger(Loaded(Stored(sn)), c.numPages, sn.cells.Keys, c.tx)
  {
    hide Ledger;
  }

  lemma SelectedMetas(m: Metas, f: Meta, c: Meta)
    requires MetasOk(m, f, c)
    ensures Select(m.durable) == Some(f) && Select(m.cache) == Some(c)
  {
  }

  lemma LedgerLater(fl: FreeState, numPages: nat, held: set<PageId>, tx: TxId)
    requires Ledger(fl, numPages, held, tx)
    ensures Ledger(fl, numPages, held, tx + 1)
  {
  }

  lemma HeldProtectsItself(pages: set<PageId>, t: TxId, fl: FreeState)
    ensures Protected(pages, t, fl, pages)
  {
  }

  lemma BeginStep(s: State, s': State, f: Meta, c: Meta, k: bool)
    requires Consistent(s, f, c, k) && Next(s, Begin, s') && (k ==> Guarded(s, Begin))
    ensures Consistent(s', f, c, k)
  {
    hide Ledger, SnapshotOk, MetasOk, DataOk, AllProtected, Released, Loaded, Consistent, HistoryOk, WriterOk;
    Parts(s, f, c, k);
    SelectedMetas(s.metas, f, c);
    CurrentSnapshot(s, f, c);
    var bound, fl :| ReleaseBound(s, c, bound) && Begins(s, c, bound, fl)
                     && s' == s.(writer := Some(Writer(s.history[c.tx], fl, c.numPages, map[], {}, Editing)));
    var base, w := s.history[c.tx], s'.writer.value;
    ListVisible(s, f, c, k);
    assert Released(Loaded(Stored(base)), bound, fl);
    assert Held(w) == base.cells.Keys;
    LedgerRelease(Loaded(Stored(base)), bound, fl, c.numPages, Held(w), c.tx);
    LedgerLater(fl, c.numPages, Held(w), c.tx);
    BeginProtects(s, f, c, k, bound, fl);
    assert DirtyApart(s, f, c, k, {});
    assert EditingOk(s, f, c, k, w);
    SameEditing(s, s', f, c, k, w);
    Unchanged(s, s', f, c, k);
    EditingFits(s', f, c, k);
  }

  lemma Parts(s: State, f: Meta, c: Meta, k: bool)
    requires Consistent(s, f, c, k)
    ensures MetasOk(s.metas, f, c) && HistoryOk(s, f, c) && DataOk(s, f, c, k) && WriterOk(s, f, c, k)
    ensures c.tx in s.history && f.tx in s.history && s.history[c.tx].meta == c && s.history[f.tx].meta == f
  {
    hide Ledger, SnapshotOk, MetasOk, DataOk, AllProtected, WriterOk;
  }

  /** The committed freelist block is read as it was written. */
  lemma ListVisible(s: State, f: Meta, c: Meta, k: bool)
    requires HistoryOk(s, f, c) && DataOk(s, f, c, k)
    ensures At(s.data.cache, c.freelistPage) == Good(Records(Stored(s.history[c.tx]), StoredCount(s.history[c.tx])))
  {
    hide Ledger, SnapshotOk, Solid;
    CurrentSnapshot(s, f, c);
    assert Live(s, f, c, k, c.tx);
  }

  lemma EditingFits(s: State, f: Meta, c: Meta, k: bool)
    requires HistoryOk(s, f, c) && s.writer.Some? && s.writer.value.phase.Editing?
             && EditingOk(s, f, c, k, s.writer.value)
    ensures WriterOk(s, f, c, k)
  {
  }

  lemma BeginProtects(s: State, f: Meta, c: Meta, k: bool, bound: TxId, fl: FreeState)
    requires Consistent(s, f, c, k) && ReleaseBound(s, c, bound) && (k ==> Guarded(s, Begin))
    requires Released(Loaded(Stored(s.history[c.tx])), bound, fl)
    ensures AllProtected(s, f, c, k, fl, s.history[c.tx].cells.Keys)
  {
    hide SnapshotOk, MetasOk, DataOk, WriterOk, Loaded;
    CurrentSnapshot(s, f, c);
    var held, stored := s.history[c.tx].cells.Keys, Loaded(Stored(s.history[c.tx]));
    forall t, p | t in s.history && Live(s, f, c, k, t) && p in s.history[t].cells && p !in held
      ensures exists u: TxId :: t < u && InPending(fl, u, p)
    {
      assert Protected(s.history[t].cells.Keys, t, stored, held);
      var u: TxId :| t < u && InPending(stored, u, p);
      BoundSpares(s, f, c, k, bound, t, u);
      assert InPending(fl, u, p);
    }
  }

  /** The release bound spares every generation that protects a live snapshot. */
  lemma BoundSpares(s: State, f: Meta, c: Meta, k: bool, bound: TxId, t: TxId, u: TxId)
    requires Consistent(s, f, c, k) && ReleaseBound(s, c, bound) && (k ==> Guarded(s, Begin))
    requires t in s.history && Live(s, f, c, k, t) && t < u <= c.tx
    ensures bound <= u
  {
    hide SnapshotOk, DataOk, WriterOk, AllProtected, Loaded;
    if s.readers == map[] {
      assert false;
    } else {
      var id :| id in s.readers && s.readers[id] == bound;
      assert bound <= c.tx;
      if t in s.readers.Values {
        var id' :| id' in s.readers && s.readers[id'] == t;
      }
    }
  }

  // ---------- editing ----------

  lemma AllocateKeeps(s: State, f: Meta, c: Meta, k: bool, w: Writer, page: PageId, contents: seq<Content>)
    requires EditingOk(s, f, c, k, w) && |contents| > 0 && w.numPages >= 2
    requires Places(w.fl, w.numPages, page, |contents|)
    ensures EditingOk(s, f, c, k, Allocated(w, page, contents))
    ensures Held(Allocated(w, page, contents)) == Held(w) + Block(page, |contents|)
    ensures Allocated(w, page, contents).numPages >= 2
  {
    hide Ledger, Places, AllProtected, DirtyApart, Protected, Loaded;
    var w', n := Allocated(w, page, contents), |contents|;
    PlacesFresh(w.fl, w.numPages, page, n, Held(w), c.tx + 1);
    LedgerAllocate(w.fl, w.numPages, page, n, Held(w), c.tx + 1);
    AllocatedHolds(w, page, contents);
    AllocateProtects(s, f, c, k, w, page, contents);
    FreshBase(w, Block(page, n));
    assert forall p :: p in w.freed ==> InPending(w'.fl, c.tx + 1, p);
  }

  lemma AllocatedHolds(w: Writer, page: PageId, contents: seq<Content>)
    requires Block(page, |contents|) !! w.freed
    ensures var w' := Allocated(w, page, contents);
            && Held(w') == Held(w) + Block(page, |contents|) && w'.dirty.Keys == w.dirty.Keys + Block(page, |contents|)
            && forall t: TxId, p: PageId :: InPending(w'.fl, t, p) <==> InPending(w.fl, t, p)
  {
  }

  /** New pages belong to no live snapshot, and allocating unprotects none. */
  lemma AllocateProtects(s: State, f: Meta, c: Meta, k: bool, w: Writer, page: PageId, contents: seq<Content>)
    requires AllProtected(s, f, c, k, w.fl, Held(w)) && DirtyApart(s, f, c, k, w.dirty.Keys)
    requires Block(page, |contents|) !! Held(w) && Block(page, |contents|) !! w.freed
    requires forall u: TxId, p: PageId :: InPending(w.fl, u, p) ==> p !in Block(page, |contents|)
    ensures var w' := Allocated(w, page, contents);
            AllProtected(s, f, c, k, w'.fl, Held(w')) && DirtyApart(s, f, c, k, w'.dirty.Keys)
  {
    hide Protected, Allocated, Held, Live;
    var w', b := Allocated(w, page, contents), Block(page, |contents|);
    AllocatedHolds(w, page, contents);
    forall t | t in s.history && Live(s, f, c, k, t)
      ensures Protected(s.history[t].cells.Keys, t, w'.fl, Held(w'))
      ensures w'.dirty.Keys !! s.history[t].cells.Keys
    {
      var pages := s.history[t].cells.Keys;
      assert Protected(pages, t, w.fl, Held(w));
      FreshApart(pages, t, w.fl, Held(w), b);
      SameProtection(pages, t, w.fl, w'.fl, Held(w));
      MoreHeld(pages, t, w'.fl, Held(w), Held(w'));
      assert w.dirty.Keys !! pages;
    }
  }

  lemma MoreHeld(pages: set<PageId>, t: TxId, fl: FreeState, held: set<PageId>, held': set<PageId>)
    requires Protected(pages, t, fl, held) && held <= held'
    ensures Protected(pages, t, fl, held')
  {
  }

  lemma FreshApart(pages: set<PageId>, t: TxId, fl: FreeState, held: set<PageId>, b: set<PageId>)
    requires Protected(pages, t, fl, held) && b !! held
    requires forall u: TxId, p: PageId :: InPending(fl, u, p) ==> p !in b
    ensures b !! pages
  {
  }

  lemma FreshBase(w: Writer, b: set<PageId>)
    requires b !! Held(w) && b !! w.freed
    ensures b !! w.base.cells.Keys
  {
    forall p | p in b ensures p !in w.base.cells {
      assert p !in Held(w);
    }
  }

  lemma RetireKeeps(s: State, f: Meta, c: Meta, k: bool, w: Writer, page: PageId, n: nat)
    requires EditingOk(s, f, c, k, w) && HistoryOk(s, f, c) && Block(page, n) <= Held(w)
    ensures var w' := Retired(w, page, n);
            && Held(w') == Held(w) - Block(page, n)
            && Ledger(w'.fl, w'.numPages, Held(w'), c.tx + 1)
            && AllProtected(s, f, c, k, w'.fl, Held(w'))
            && (forall p :: p in w'.freed ==> InPending(w'.fl, c.tx + 1, p))
  {
    hide Ledger, SnapshotOk, FreedBlock;
    var w' := Retired(w, page, n);
    assert w.base.meta.tx == c.tx;
    LedgerRetire(w.fl, c.tx + 1, page, n, w.numPages, Held(w));
    assert Held(w') == Held(w) - Block(page, n);
    forall t | t in s.history && Live(s, f, c, k, t)
      ensures Protected(s.history[t].cells.Keys, t, w'.fl, Held(w'))
    {
      assert Protected(s.history[t].cells.Keys, t, w.fl, Held(w));
      forall p | p in s.history[t].cells.Keys && p !in Held(w')
        ensures exists u: TxId :: t < u && InPending(w'.fl, u, p)
      {
        if p in Held(w) {
          assert InPending(w'.fl, c.tx + 1, p);
        } else {
          var u: TxId :| t < u && InPending(w.fl, u, p);
          assert InPending(w'.fl, u, p);
        }
      }
    }
  }

  lemma InLedger(fl: FreeState, numPages: nat, held: set<PageId>, tx: TxId, p: PageId)
    requires Ledger(fl, numPages, held, tx) && (p in held || InPending(fl, tx, p))
    ensures 2 <= p < numPages
  {
  }

  lemma RootHeld(s: State, f: Meta, c: Meta)
    requires HistoryOk(s, f, c)
    ensures s.history[c.tx].meta.root in s.history[c.tx].cells
  {
    hide Ledger;
  }

  lemma NumPagesAtLeastTwo(s: State, f: Meta, c: Meta, k: bool, w: Writer)
    requires EditingOk(s, f, c, k, w) && HistoryOk(s, f, c)
    ensures w.numPages >= 2
  {
    hide Ledger, AllProtected, DirtyApart, HistoryOk;
    var root := w.base.meta.root;
    RootHeld(s, f, c);
    if root in w.freed {
      assert InPending(w.fl, c.tx + 1, root);
    } else {
      assert root in Held(w);
    }
    InLedger(w.fl, w.numPages, Held(w), c.tx + 1, root);
  }

  lemma AllocStep(s: State, page: PageId, contents: seq<Content>, s': State, f: Meta, c: Meta, k: bool)
    requires Consistent(s, f, c, k) && Next(s, Alloc(page, contents), s')
    ensures Consistent(s', f, c, k)
  {
    hide SnapshotOk, Ledger, Protected, Visible, Solid;
    var w := s.writer.value;
    NumPagesAtLeastTwo(s, f, c, k, w);
    AllocateKeeps(s, f, c, k, w, page, contents);
    SameEditing(s, s', f, c, k, s'.writer.value);
    Unchanged(s, s', f, c, k);
  }

  lemma RetireStep(s: State, page: PageId, n: nat, s': State, f: Meta, c: Meta, k: bool)
    requires Consistent(s, f, c, k) && Next(s, Retire(page, n), s')
    ensures Consistent(s', f, c, k)
  {
    hide SnapshotOk, Ledger, Protected, Visible, Solid;
    var w := s.writer.value;
    RetireKeeps(s, f, c, k, w, page, n);
    var w' := Retired(w, page, n);
    assert EditingOk(s, f, c, k, w');
    SameEditing(s, s', f, c, k, w');
    Unchanged(s, s', f, c, k);
  }

  lemma SameEditing(s: State, s': State, f: Meta, c: Meta, k: bool, w: Writer)
    requires EditingOk(s, f, c, k, w)
    requires s'.history == s.history && s'.readers == s.readers
    ensures EditingOk(s', f, c, k, w)
  {
    hide Ledger, Protected, SnapshotOk;
    assert forall t :: Live(s', f, c, k, t) <==> Live(s, f, c, k, t);
  }

  /** Everything but the writer's own condition carries over a purely in-memory step. */
  lemma Unchanged(s: State, s': State, f: Meta, c: Meta, k: bool)
    requires Consistent(s, f, c, k)
    requires s' == s.(writer := s'.writer)
    ensures HistoryOk(s', f, c)
    ensures WriterOk(s', f, c, k) ==> Consistent(s', f, c, k)
  {
    hide Ledger, SnapshotOk, Protected, MetasOk, Visible, Solid, Loaded, WriterOk;
    assert forall t :: Live(s', f, c, k, t) <==> Live(s, f, c, k, t);
  }

  // ---------- sealing ----------

  lemma SealStep(s: State, page: PageId, contents: seq<Content>, root: PageId, s': State, f: Meta, c: Meta, k: bool)
    requires Consistent(s, f, c, k) && Next(s, Seal(page, contents, root), s')
    ensures Consistent(s', f, c, k)
  {
    hide MetasOk, DataOk, AllProtected, NextOk, EditingOk, SnapshotOk, Ledger, Lists, Closed, Places, Whole;
    var w := s.writer.value;
    var w1 := Retired(w, c.freelistPage, StoredCount(w.base));
    var w2 := Allocated(w1, page, contents);
    SealNext(s, f, c, k, w, page, contents, root);
    var w' := s'.writer.value;
    assert w' == w2.(phase := Writing(Sealed(w2, page, root), {}));
    SameNext(s, s', f, c, k, w2, w', Sealed(w2, page, root));
    Unchanged(s, s', f, c, k);
  }

  lemma SealNext(s: State, f: Meta, c: Meta, k: bool, w: Writer, page: PageId, contents: seq<Content>, root: PageId)
    requires EditingOk(s, f, c, k, w) && HistoryOk(s, f, c) && |contents| > 0
    requires var w1 := Retired(w, w.base.meta.freelistPage, StoredCount(w.base));
             var w2 := Allocated(w1, page, contents);
             && Places(w1.fl, w1.numPages, page, |contents|)
             && contents[0].Records? && Lists(w2.fl, contents[0].entries) && contents[0].count == |contents|
             && Closed(HeldCells(w2), root)
    ensures w.base.meta == c
    ensures var w2 := Allocated(Retired(w, c.freelistPage, StoredCount(w.base)), page, contents);
            NextOk(s, f, c, k, w2, Sealed(w2, page, root))
  {
    hide AllProtected, DirtyApart, SnapshotOk, Ledger, Lists, Closed, Places, NextOk;
    CurrentSnapshot(s, f, c);
    var n := StoredCount(w.base);
    forall p | p in Block(c.freelistPage, n) ensures p in Held(w) {
      assert p in w.base.cells;
    }
    NumPagesAtLeastTwo(s, f, c, k, w);
    RetireKeeps(s, f, c, k, w, c.freelistPage, n);
    var w1 := Retired(w, c.freelistPage, n);
    SealAllocates(s, f, c, k, w, w1, page, contents);
    assert page + 0 in Block(page, |contents|);
    SealedOk(s, f, c, k, Allocated(w1, page, contents), page, contents, root);
  }

  lemma SealAllocates(s: State, f: Meta, c: Meta, k: bool, w: Writer, w1: Writer, page: PageId, contents: seq<Content>)
    requires EditingOk(s, f, c, k, w) && HistoryOk(s, f, c) && w.numPages >= 2 && |contents| > 0
    requires w1 == Retired(w, c.freelistPage, StoredCount(w.base))
    requires Ledger(w1.fl, w1.numPages, Held(w1), c.tx + 1) && AllProtected(s, f, c, k, w1.fl, Held(w1))
    requires forall p :: p in w1.freed ==> InPending(w1.fl, c.tx + 1, p)
    requires Places(w1.fl, w1.numPages, page, |contents|)
    ensures var w2 := Allocated(w1, page, contents);
            && Ledger(w2.fl, w2.numPages, Held(w2), c.tx + 1)
            && AllProtected(s, f, c, k, w2.fl, Held(w2))
            && DirtyApart(s, f, c, k, w2.dirty.Keys)
            && w2.dirty.Keys !! w2.base.cells.Keys
            && Block(page, |contents|) <= Held(w2)
            && InPending(w2.fl, c.tx + 1, c.freelistPage)
  {
    hide Ledger, SnapshotOk, Places, AllProtected, DirtyApart, HistoryOk, Protected;
    var n := |contents|;
    var w2 := Allocated(w1, page, contents);
    CurrentSnapshot(s, f, c);
    PlacesFresh(w1.fl, w1.numPages, page, n, Held(w1), c.tx + 1);
    LedgerAllocate(w1.fl, w1.numPages, page, n, Held(w1), c.tx + 1);
    AllocatedHolds(w1, page, contents);
    AllocateProtects(s, f, c, k, w1, page, contents);
    FreshBase(w1, Block(page, n));
    assert c.freelistPage in w1.freed;
  }

  lemma SealedOk(s: State, f: Meta, c: Meta, k: bool, w: Writer, page: PageId, contents: seq<Content>, root: PageId)
    requires HistoryOk(s, f, c) && c.tx in s.history && w.base == s.history[c.tx]
    requires Ledger(w.fl, w.numPages, Held(w), c.tx + 1) && AllProtected(s, f, c, k, w.fl, Held(w))
    requires DirtyApart(s, f, c, k, w.dirty.Keys) && Block(page, |contents|) <= Held(w)
    requires InPending(w.fl, c.tx + 1, c.freelistPage)
    requires |contents| > 0 && contents[0].Records? && contents[0].count == |contents|
    requires Lists(w.fl, contents[0].entries) && Closed(HeldCells(w), root)
    requires page in w.dirty && w.dirty[page] == contents[0]
    ensures NextOk(s, f, c, k, w, Sealed(w, page, root))
  {
    hide Ledger, Protected, Lists, Loaded, Closed, SnapshotOk, HistoryOk, DirtyApart, Live, Block;
    var next := Sealed(w, page, root);
    assert page in Block(page, |contents|);
    assert next.cells.Keys == Held(w);
    assert Stored(next) == contents[0].entries;
    LedgerReload(w.fl, Stored(next), w.numPages, Held(w), c.tx + 1);
    CurrentSlot(s, f, c);
    SealedSnapshot(w, page, contents, root);
    forall t | t in s.history && Live(s, f, c, k, t)
      ensures Protected(s.history[t].cells.Keys, t, Loaded(Stored(next)), next.cells.Keys)
    {
      SameProtection(s.history[t].cells.Keys, t, w.fl, Loaded(Stored(next)), next.cells.Keys);
    }
  }

  lemma CurrentSlot(s: State, f: Meta, c: Meta)
    requires HistoryOk(s, f, c)
    ensures s.history[c.tx].meta == c && c.slot <= 1
  {
    hide Ledger;
  }

  lemma SealedSnapshot(w: Writer, page: PageId, contents: seq<Content>, root: PageId)
    requires |contents| > 0 && contents[0].Records? && contents[0].count == |contents|
    requires Ledger(Loaded(contents[0].entries), w.numPages, Held(w), w.base.meta.tx + 1)
    requires Block(page, |contents|) <= Held(w) && Closed(HeldCells(w), root)
    requires page in w.dirty && w.dirty[page] == contents[0]
    ensures SnapshotOk(Sealed(w, page, root))
  {
    hide Ledger, Loaded, Closed;
    var next := Sealed(w, page, root);
    assert page in Block(page, |contents|);
    assert next.cells.Keys == Held(w);
    assert next.cells[page] == contents[0];
  }

  lemma SameProtection(pages: set<PageId>, t: TxId, fl: FreeState, fl': FreeState, held: set<PageId>)
    requires Protected(pages, t, fl, held)
    requires forall u: TxId, p: PageId :: InPending(fl', u, p) <==> InPending(fl, u, p)
    ensures Protected(pages, t, fl', held)
  {
  }

  lemma SameNext(s: State, s': State, f: Meta, c: Meta, k: bool, w: Writer, w': Writer, next: Snapshot)
    requires NextOk(s, f, c, k, w, next)
    requires s'.history == s.history && s'.readers == s.readers
    requires w'.base == w.base && w'.dirty == w.dirty
    ensures NextOk(s', f, c, k, w', next)
  {
    assert forall t :: Live(s', f, c, k, t) <==> Live(s, f, c, k, t);
  }

  // ---------- writing ----------

  /** Steps that touch neither history nor readers leave these conditions alone. */
  lemma SameViews(s: State, s': State, f: Meta, c: Meta, k: bool, fl: FreeState, held: set<PageId>)
    requires s'.history == s.history && s'.readers == s.readers
    ensures HistoryOk(s, f, c) ==> HistoryOk(s', f, c)
    ensures forall t :: Live(s', f, c, k, t) <==> Live(s, f, c, k, t)
    ensures AllProtected(s, f, c, k, fl, held) ==> AllProtected(s', f, c, k, fl, held)
  {
    hide SnapshotOk, Protected;
  }

  lemma WrittenData(s: State, s': State, f: Meta, c: Meta, k: bool, p: PageId, d: Content)
    requires HistoryOk(s, f, c) && HistoryOk(s', f, c) && DataOk(s, f, c, k)
    requires s'.history == s.history && s'.readers == s.readers && s'.data == Write(s.data, p, d)
    requires forall t :: t in s.history && Live(s, f, c, k, t) ==> p !in s.history[t].cells
    ensures DataOk(s', f, c, k)
  {
    hide SnapshotOk, Visible, Solid, Write, HistoryOk;
    assert forall t :: Live(s', f, c, k, t) <==> Live(s, f, c, k, t);
    assert Live(s, f, c, k, c.tx) && (k ==> Live(s, f, c, k, f.tx));
    InHistory(s, f, c);
    forall t | t in s.history && Live(s, f, c, k, t)
      ensures Visible(s'.data, s.history[t].cells)
      ensures Solid(s.data, s.history[t].cells) ==> Solid(s'.data, s.history[t].cells)
    {
      WriteElsewhere(s.data, p, d, s.history[t].cells);
    }
  }

  lemma InHistory(s: State, f: Meta, c: Meta)
    requires HistoryOk(s, f, c)
    ensures c.tx in s.history && f.tx in s.history
  {
  }

  lemma WriteStep(s: State, p: PageId, s': State, f: Meta, c: Meta, k: bool)
    requires Consistent(s, f, c, k) && Next(s, WriteCell(p), s')
    ensures Consistent(s', f, c, k)
  {
    hide Ledger, SnapshotOk, MetasOk, Loaded, DataOk, AllProtected, NextOk, HistoryOk, Live, Stored;
    var w := s.writer.value;
    InHistory(s, f, c);
    var cur := s.history[c.tx];
    SameViews(s, s', f, c, k, Loaded(Stored(cur)), cur.cells.Keys);
    WritesApart(s, p, s', f, c, k);
    WrittenData(s, s', f, c, k, p, w.dirty[p]);
    SameNext(s, s', f, c, k, w, s'.writer.value, w.phase.next);
  }

  lemma SyncDataStep(s: State, s': State, f: Meta, c: Meta, k: bool)
    requires Consistent(s, f, c, k) && Next(s, SyncData, s')
    ensures Consistent(s', c, c, true)
  {
    hide Ledger, SnapshotOk, Protected, MetasOk, Loaded, NextOk, Visible, Solid;
    var w := s.writer.value;
    var next := w.phase.next;
    SyncMakesDurable(s.metas, f, c);
    assert forall t :: Live(s', c, c, true, t) ==> Live(s, f, c, k, t);
    assert Live(s, f, c, k, c.tx);
    assert HistoryOk(s', c, c);
    WrittenVisible(s, f, c, k, w, next);
    SyncedData(s.data, w.base.cells);
    SyncedData(s.data, next.cells);
    forall t | t in s.history && Live(s, f, c, k, t) ensures Visible(s'.data, s.history[t].cells) {
      SyncedData(s.data, s.history[t].cells);
    }
    NextLater(s, s', f, c, k, w, s'.writer.value, next);
  }

  lemma SyncedData(d: Data, cells: map<PageId, Content>)
    requires Visible(d, cells)
    ensures Visible(Sync(d), cells) && Solid(Sync(d), cells)
  {
  }

  /** With every dirty page written the next snapshot reads back in full. */
  lemma WrittenVisible(s: State, f: Meta, c: Meta, k: bool, w: Writer, next: Snapshot)
    requires NextOk(s, f, c, k, w, next) && c.tx in s.history && Visible(s.data, s.history[c.tx].cells)
    requires forall p :: p in w.dirty ==> At(s.data.cache, p) == Good(w.dirty[p])
    ensures Visible(s.data, next.cells) && w.base == s.history[c.tx]
  {
    hide SnapshotOk, AllProtected, DirtyApart, Loaded;
  }

  lemma NextLater(s: State, s': State, f: Meta, c: Meta, k: bool, w: Writer, w': Writer, next: Snapshot)
    requires NextOk(s, f, c, k, w, next) && s'.history == s.history && w'.base == w.base && w'.dirty == w.dirty
    requires forall t :: Live(s', c, c, true, t) ==> Live(s, f, c, k, t)
    ensures NextOk(s', c, c, true, w', next)
  {
    hide SnapshotOk, Protected, Loaded;
  }

  lemma PublishStep(s: State, s': State, f: Meta, c: Meta, k: bool)
    requires Consistent(s, f, c, k) && Next(s, Publish, s')
    ensures exists c' :: Consistent(s', c, c', k)
  {
    hide Ledger, SnapshotOk, MetasOk, Solid, Visible, Loaded, Stored, Protected, NextOk, HistoryOk, DataOk,
         AllProtected;
    var w := s.writer.value;
    var next := w.phase.next;
    var n := next.meta;
    Parts(s, f, c, k);
    PublishedNext(s, f, c, k, w, next);
    PublishKeepsFallback(s.metas, c, n);
    assert forall t :: Live(s', c, n, k, t) ==> t == n.tx || Live(s, f, c, k, t);
    PublishedHistory(s, s', c, next);
    PublishedData(s, s', c, k, next);
    PublishedProtects(s, s', c, k, next);
    assert Consistent(s', c, n, k);
  }

  lemma PublishedHistory(s: State, s': State, c: Meta, next: Snapshot)
    requires HistoryOk(s, c, c) && SnapshotOk(next) && next.meta.tx == c.tx + 1
    requires s'.history == s.history[next.meta.tx := next] && s'.readers == s.readers
    ensures HistoryOk(s', c, next.meta)
  {
    hide SnapshotOk;
  }

  lemma PublishedData(s: State, s': State, c: Meta, k: bool, next: Snapshot)
    requires HistoryOk(s, c, c) && DataOk(s, c, c, k) && HistoryOk(s', c, next.meta) && next.meta.tx == c.tx + 1
    requires s'.history == s.history[next.meta.tx := next] && s'.readers == s.readers && s'.data == s.data
    requires Visible(s.data, next.cells) && Solid(s.data, next.cells)
    ensures DataOk(s', c, next.meta, k)
  {
    hide SnapshotOk, Visible, Solid;
  }

  lemma PublishedProtects(s: State, s': State, c: Meta, k: bool, next: Snapshot)
    requires next.meta.tx == c.tx + 1 && AllProtected(s, c, c, k, Loaded(Stored(next)), next.cells.Keys)
    requires s'.history == s.history[next.meta.tx := next] && s'.readers == s.readers
    ensures AllProtected(s', c, next.meta, k, Loaded(Stored(next)), next.cells.Keys)
  {
    hide Protected, Loaded, Stored;
    HeldProtectsItself(next.cells.Keys, next.meta.tx, Loaded(Stored(next)));
  }

  lemma PublishedNext(s: State, f: Meta, c: Meta, k: bool, w: Writer, next: Snapshot)
    requires NextOk(s, f, c, k, w, next)
    ensures SnapshotOk(next) && next.meta.tx == c.tx + 1 && next.meta.slot == 1 - c.slot
    ensures AllProtected(s, f, c, k, Loaded(Stored(next)), next.cells.Keys)
    ensures InPending(Loaded(Stored(next)), next.meta.tx, c.freelistPage)
  {
    hide Ledger, SnapshotOk, AllProtected, DirtyApart, Loaded, Stored;
  }

  lemma SyncMetaStep(s: State, s': State, f: Meta, c: Meta, k: bool)
    requires Consistent(s, f, c, k) && Next(s, SyncMeta, s')
    ensures Consistent(s', c, c, true)
  {
    hide Ledger, SnapshotOk, Protected, MetasOk, Loaded, Visible, Solid;
    SyncMakesDurable(s.metas, f, c);
    assert forall t :: Live(s', c, c, true, t) ==> Live(s, f, c, k, t);
    assert Live(s, f, c, k, c.tx);
    assert HistoryOk(s', c, c);
    forall t | t in s.history && Live(s, f, c, k, t) ensures Visible(s'.data, s.history[t].cells) {
      SyncedData(s.data, s.history[t].cells);
    }
    SyncedData(s.data, s.history[c.tx].cells);
  }

  lemma AbortStep(s: State, s': State, f: Meta, c: Meta, k: bool)
    requires Consistent(s, f, c, k) && Next(s, Abort, s')
    ensures Consistent(s', f, c, k)
  {
    hide Ledger, SnapshotOk, Protected, MetasOk, Visible, Solid, Loaded;
    Unchanged(s, s', f, c, k);
  }

  // ---------- crashes ----------

  /** A loss restores the fallback or keeps the current metadata; either way the snapshot
      selected is intact, provided the fallback's pages were not written since. */
  lemma PowerLossStep(s: State, s': State, f: Meta, c: Meta, k: bool)
    requires Consistent(s, f, c, k) && Next(s, PowerLoss, s') && Recoverable(s)
    ensures Consistent(s', f, f, true) || Consistent(s', c, c, true)
  {
    hide Ledger, SnapshotOk, MetasOk;
    SelectedMetas(s.metas, f, c);
    LossSelectsOneOfTwo(s.metas, f, c, s'.metas);
    var m := if MetasOk(s'.metas, f, f) then f else c;
    SelectedMetas(s'.metas, m, m);
    LossKeepsSolid(s.data, s'.data, s.history[m.tx].cells);
    HeldProtectsItself(s.history[m.tx].cells.Keys, m.tx, Loaded(Stored(s.history[m.tx])));
    assert s'.history == map t | t in s.history && t <= m.tx :: s.history[t];
    assert HistoryOk(s', m, m);
    assert forall t :: Live(s', m, m, true, t) ==> t == m.tx;
    assert Consistent(s', m, m, true);
  }

  // ---------- every step, every run ----------

  /** The file `init_file` writes. */
  function InitialState(): State {
    var cells: map<PageId, Content> := map[2 := Records([], 1), 3 := Node({}, 1, 0)];
    var disk: map<PageId, Cell> := map[2 := Good(Records([], 1)), 3 := Good(Node({}, 1, 0))];
    var a, b := Meta(0, 0, 4, 3, 2), Meta(0, 1, 4, 3, 2);
    var slots := Slots(GoodMeta(a), GoodMeta(b));
    State(Data(disk, disk, map[]), Metas(slots, slots, {}), map[], map[0 := Snapshot(b, cells)], None)
  }

  lemma OneNode(cells: map<PageId, Content>, root: PageId, page: PageId)
    requires root != page && cells.Keys == {root, page} && cells[root].Node? && cells[root].links == {}
             && cells[root].count == 1
    ensures Whole(cells, root, page, 1)
  {
    assert Block(root, 1) == {root} && Block(page, 1) == {page};
    var order := [root];
    assert forall i, p :: 0 <= i < |order| ==> !Links(cells, order[i], p);
    assert TreeOrder(cells, root, order);
    assert order[0] == root && BlockOf(cells, root) == {root};
    forall p | p in cells ensures p in Block(page, 1) || exists i :: 0 <= i < |order| && p in BlockOf(cells, order[i]) {
      if p == root {
        assert p in BlockOf(cells, order[0]);
      }
    }
    assert Partition(cells, order, page, 1);
  }

  lemma InitSnapshot(sn: Snapshot)
    requires sn == Snapshot(Meta(0, 1, 4, 3, 2), map[2 := Records([], 1), 3 := Node({}, 1, 0)])
    ensures SnapshotOk(sn)
  {
    assert Loaded([]) == EMPTY;
    assert Stored(sn) == [];
    assert Block(2, 1) == {2};
    assert forall t: TxId, p: PageId :: !InPending(EMPTY, t, p);
    assert Ledger(EMPTY, 4, sn.cells.Keys, 0);
  }

  lemma InitConsistent()
    ensures var b := Meta(0, 1, 4, 3, 2); Consistent(InitialState(), b, b, true)
  {
    hide SnapshotOk, Protected;
    var s := InitialState();
    var b := Meta(0, 1, 4, 3, 2);
    var sn := s.history[0];
    InitSnapshot(sn);
    HeldProtectsItself(sn.cells.Keys, 0, Loaded(Stored(sn)));
    assert HistoryOk(s, b, b);
  }

  lemma InitInv()
    ensures Inv(InitialState())
  {
    hide Consistent, Whole;
    InitConsistent();
    OneNode(InitialState().history[0].cells, 3, 2);
  }

  /** No step loses or shares a page of a snapshot. */
  lemma StepWhole(s: State, step: Step, s': State, f: Meta, c: Meta, k: bool)
    requires AllWhole(s) && Next(s, step, s') && Consistent(s, f, c, k)
    ensures AllWhole(s')
  {
    hide Whole, Consistent, Ledger;
    match step
    case Seal(page, contents, root) =>
      SealWhole(s, page, contents, root, s', f, c, k);
    case _ =>
  }

  lemma SealWhole(s: State, page: PageId, contents: seq<Content>, root: PageId, s': State, f: Meta, c: Meta, k: bool)
    requires AllWhole(s) && Next(s, Seal(page, contents, root), s') && Consistent(s, f, c, k)
    ensures AllWhole(s')
  {
    hide Whole, Ledger, SnapshotOk, MetasOk, DataOk, AllProtected, Lists, Closed, Places, EditingOk, NextOk, HistoryOk;
    var w := s.writer.value;
    var w2 := Allocated(Retired(w, w.base.meta.freelistPage, StoredCount(w.base)), page, contents);
    SealNext(s, f, c, k, w, page, contents, root);
    SealedHasList(s, f, c, k, w2, Sealed(w2, page, root));
    assert page + 0 in Block(page, |contents|);
    assert StoredCount(Sealed(w2, page, root)) == |contents|;
    ListedOnce(w2.fl, contents[0].entries);
  }

  /** What lists a freelist lists what it loads to. */
  lemma ListedOnce(s: FreeState, es: seq<RetiredPage>)
    requires Lists(s, es)
    ensures Lists(Loaded(es), es)
  {
    hide Loaded;
    LoadedContents(es);
    forall r ensures multiset(es)[r] == Count(Loaded(es), r) {
      assert multiset(es)[r] == Count(s, r);
      if r.retiredTx != 0 {
        LoadedCount(es, r);
      }
    }
  }

  lemma SealedHasList(s: State, f: Meta, c: Meta, k: bool, w: Writer, next: Snapshot)
    requires NextOk(s, f, c, k, w, next)
    ensures next.meta.freelistPage in next.cells
  {
    hide Ledger, AllProtected, DirtyApart, Loaded;
  }

  /** A step that is guarded, where it begins a writer, and recoverable, where it is a loss,
      keeps the fallback too. */
  lemma StepKeeps(s: State, step: Step, s': State, f: Meta, c: Meta, k: bool)
    requires Consistent(s, f, c, k) && Next(s, step, s')
    requires (k ==> Guarded(s, step)) && (step.PowerLoss? ==> Recoverable(s))
    ensures exists f', c', k' :: Consistent(s', f', c', k') && (k ==> k')
  {
    hide Next, Consistent, Guarded, Recoverable;
    match step
    case ReaderStart(_) => ReaderSteps(s, step, s', f, c, k);
    case ReaderEnd(_) => ReaderSteps(s, step, s', f, c, k);
    case Begin => BeginStep(s, s', f, c, k);
    case Alloc(page, contents) => AllocStep(s, page, contents, s', f, c, k);
    case Retire(page, n) => RetireStep(s, page, n, s', f, c, k);
    case Seal(page, contents, root) => SealStep(s, page, contents, root, s', f, c, k);
    case WriteCell(p) => WriteStep(s, p, s', f, c, k);
    case SyncData => SyncDataStep(s, s', f, c, k);
    case Publish => PublishStep(s, s', f, c, k);
    case SyncMeta => SyncMetaStep(s, s', f, c, k);
    case Abort => AbortStep(s, s', f, c, k);
    case PowerLoss => PowerLossStep(s, s', f, c, k);
  }

  /** Forgetting the fallback asks for less. */
  lemma Forget(s: State, f: Meta, c: Meta, k: bool)
    requires Consistent(s, f, c, k)
    ensures Consistent(s, f, c, false)
  {
    hide Ledger, SnapshotOk, Protected, MetasOk, Visible, Solid, Loaded;
    assert forall t :: Live(s, f, c, false, t) ==> Live(s, f, c, k, t);
  }

  /** Every step keeps the invariant: of a writer's begin nothing is asked, of a power loss
      that the snapshot it may restore is intact. */
  lemma StepInv(s: State, step: Step, s': State)
    requires Inv(s) && Next(s, step, s') && (step.PowerLoss? ==> Recoverable(s))
    ensures Inv(s')
  {
    hide Next, Consistent, Guarded, Recoverable, AllWhole;
    var f, c, k :| Consistent(s, f, c, k);
    StepWhole(s, step, s', f, c, k);
    Forget(s, f, c, k);
    StepKeeps(s, step, s', f, c, false);
  }

  /** A run of the protocol from a fresh file. */
  ghost predicate Run(states: seq<State>, steps: seq<Step>) {
    && |states| == |steps| + 1 && states[0] == InitialState()
    && forall i :: 0 <= i < |steps| ==> Next(states[i], steps[i], states[i + 1])
  }

  /** Up to step n, power is lost only while the snapshot it may restore is intact. */
  ghost predicate SoundRun(states: seq<State>, steps: seq<Step>, n: nat) {
    && Run(states, steps) && n <= |steps|
    && forall i :: 0 <= i < n && steps[i].PowerLoss? ==> Recoverable(states[i])
  }

  ghost predicate GuardedRun(states: seq<State>, steps: seq<Step>) {
    Run(states, steps) && forall i :: 0 <= i < |steps| ==> Guarded(states[i], steps[i])
  }

  lemma {:induction false} RunInv(states: seq<State>, steps: seq<Step>, n: nat)
    requires SoundRun(states, steps, n)
    ensures Inv(states[n])
  {
    hide Inv, Next, Recoverable;
    if n == 0 {
      InitInv();
    } else {
      RunInv(states, steps, n - 1);
      StepInv(states[n - 1], steps[n - 1], states[n]);
    }
  }

  // ---------- consequences ----------

  /** Snapshot safety: along every sound run, every page of a registered reader's snapshot
      still reads as committed, and a page being written belongs neither to a registered
      reader nor to the committed snapshot. */
  lemma SnapshotSafety(states: seq<State>, steps: seq<Step>, n: nat)
    requires SoundRun(states, steps, n)
    ensures var s := states[n];
            forall id :: id in s.readers ==> s.readers[id] in s.history
                                             && Visible(s.data, s.history[s.readers[id]].cells)
    ensures n < |steps| && steps[n].WriteCell? ==>
              var s := states[n];
              && (forall id :: id in s.readers ==> steps[n].cell !in s.history[s.readers[id]].cells)
              && exists c :: Current(s, c) && c.tx in s.history && steps[n].cell !in s.history[c.tx].cells
  {
    hide Ledger, SnapshotOk, MetasOk, Protected, AllWhole, Visible, Next;
    RunInv(states, steps, n);
    var s := states[n];
    var f, c, k :| Consistent(s, f, c, k);
    SelectedMetas(s.metas, f, c);
    assert forall id :: id in s.readers ==> Live(s, f, c, k, s.readers[id]);
    if n < |steps| && steps[n].WriteCell? {
      assert Next(s, steps[n], states[n + 1]);
      WritesApart(s, steps[n].cell, states[n + 1], f, c, k);
      assert Current(s, c);
    }
  }

  lemma WritesApart(s: State, p: PageId, s': State, f: Meta, c: Meta, k: bool)
    requires Consistent(s, f, c, k) && Next(s, WriteCell(p), s')
    ensures forall t :: t in s.history && Live(s, f, c, k, t) ==> p !in s.history[t].cells
    ensures Live(s, f, c, k, c.tx) && c.tx in s.history
  {
    hide Ledger, SnapshotOk, MetasOk, DataOk, Loaded, AllProtected;
    assert DirtyApart(s, f, c, k, s.writer.value.dirty.Keys);
  }

  /** Page conservation: after every step of a sound run the committed freelist block, read
      back, splits ids 2 .. num_pages into free, pending and committed pages, and the
      committed pages are exactly the freelist block and the blocks reachable from the root,
      each of them once. */
  lemma PageConservation(states: seq<State>, steps: seq<Step>, n: nat)
    requires SoundRun(states, steps, n)
    ensures exists c :: Current(states[n], c) && c.tx in states[n].history
                        && var sn := states[n].history[c.tx];
                           && Ledger(Loaded(Stored(sn)), c.numPages, sn.cells.Keys, c.tx)
                           && Whole(sn.cells, c.root, c.freelistPage, StoredCount(sn))
  {
    hide Ledger, SnapshotOk, MetasOk, Protected, Whole;
    RunInv(states, steps, n);
    var f, c, k :| Consistent(states[n], f, c, k);
    SelectedMetas(states[n].metas, f, c);
    CurrentSnapshot(states[n], f, c);
    assert WholeSnapshot(states[n].history[c.tx]);
    assert Current(states[n], c);
  }

  /** Every tree path from the selected root, read off the file, is intact. */
  ghost predicate Recovered(s: State, sn: Snapshot) {
    && Current(s, sn.meta) && Visible(s.data, sn.cells)
    && forall path :: Walk(s.data.cache, sn.meta.root, path) ==>
                        && path[|path| - 1] in sn.cells
                        && At(s.data.cache, path[|path| - 1]) == Good(sn.cells[path[|path| - 1]])
  }

  /** Reopening selects the last durable or the last published transaction, complete. */
  ghost predicate Survives(s: State, s': State) {
    exists t :: t in s.history && Recovered(s', s.history[t])
                && (Select(s.metas.durable) == Some(s.history[t].meta)
                    || Select(s.metas.cache) == Some(s.history[t].meta))
  }

  /** Crash atomicity, exactly: at any point of a sound run every power loss leaves the last
      durable or the last published transaction complete if and only if the snapshot of the
      durable metadata is intact. */
  lemma CrashAtomicity(states: seq<State>, steps: seq<Step>, n: nat)
    requires SoundRun(states, steps, n)
    ensures (forall s' :: Next(states[n], PowerLoss, s') ==> Survives(states[n], s')) <==> Recoverable(states[n])
  {
    hide Next, Consistent, Survives, Recoverable;
    RunInv(states, steps, n);
    var s := states[n];
    var f, c, k :| Consistent(s, f, c, k);
    if Recoverable(s) {
      forall s' | Next(s, PowerLoss, s') ensures Survives(s, s') {
        LossRecovers(s, s', f, c, k);
      }
    } else {
      var s' := LossBreaks(s, f, c, k);
    }
  }

  lemma LossRecovers(s: State, s': State, f: Meta, c: Meta, k: bool)
    requires Consistent(s, f, c, k) && Next(s, PowerLoss, s') && Recoverable(s)
    ensures Survives(s, s')
  {
    hide Ledger, MetasOk, Protected, SnapshotOk, DataOk, WriterOk, AllProtected, Recovered, Recoverable;
    SelectedMetas(s.metas, f, c);
    PowerLossStep(s, s', f, c, k);
    var m := if Consistent(s', f, f, true) then f else c;
    SelectedMetas(s'.metas, m, m);
    RecoveredAt(s', m);
    assert s'.history[m.tx] == s.history[m.tx];
  }

  lemma RecoveredAt(s: State, m: Meta)
    requires Consistent(s, m, m, true)
    ensures Recovered(s, s.history[m.tx])
  {
    hide Ledger, MetasOk, Protected;
    SelectedMetas(s.metas, m, m);
    var sn := s.history[m.tx];
    assert Live(s, m, m, true, m.tx);
    forall path | Walk(s.data.cache, sn.meta.root, path)
      ensures path[|path| - 1] in sn.cells && At(s.data.cache, path[|path| - 1]) == Good(sn.cells[path[|path| - 1]])
    {
      WalkStaysInside(s.data.cache, sn.cells, sn.meta.root, path);
    }
  }

  /** The file after a loss of everything unsynced, with the pages written since torn. */
  function Lost(s: State, f: Meta): State {
    var disk := map p | p in s.data.durable :: if p in s.data.unsynced then Torn else s.data.durable[p];
    State(Data(disk, disk, map[]), Metas(s.metas.durable, s.metas.durable, {}), map[],
          map t | t in s.history && t <= f.tx :: s.history[t], None)
  }

  /** If the fallback is not intact, some loss restores it broken. */
  lemma LossBreaks(s: State, f: Meta, c: Meta, k: bool) returns (s': State)
    requires Consistent(s, f, c, k) && !Recoverable(s)
    ensures Next(s, PowerLoss, s') && !Survives(s, s')
  {
    hide Ledger, Protected, SnapshotOk, WriterOk, AllProtected, Walk;
    SelectedMetas(s.metas, f, c);
    s' := Lost(s, f);
    LostIsLoss(s, f);
    var cells := s.history[f.tx].cells;
    var p :| p in cells && (p in s.data.unsynced || At(s.data.durable, p) != Good(cells[p]));
    assert At(s'.data.cache, p) != Good(cells[p]);
    assert forall t :: t in s.history && s.history[t].meta == f ==> s.history[t] == s.history[f.tx];
  }

  lemma LostIsLoss(s: State, f: Meta)
    requires Select(s.metas.durable) == Some(f)
    ensures Next(s, PowerLoss, Lost(s, f))
  {
    var s' := Lost(s, f);
    assert Loss(s.data, s'.data);
    assert MetaLoss(s.metas, s'.metas);
  }

  /** Guarded runs are recoverable throughout, so on them atomicity holds at every point. */
  lemma {:induction false} GuardedKeeps(states: seq<State>, steps: seq<Step>, n: nat)
    requires GuardedRun(states, steps) && n <= |steps|
    ensures SoundRun(states, steps, n) && exists f, c :: Consistent(states[n], f, c, true)
    ensures Recoverable(states[n])
  {
    hide Next, Consistent, Recoverable;
    if n == 0 {
      InitConsistent();
    } else {
      GuardedKeeps(states, steps, n - 1);
      var f, c :| Consistent(states[n - 1], f, c, true);
      StepKeeps(states[n - 1], steps[n - 1], states[n], f, c, true);
    }
    var f, c :| Consistent(states[n], f, c, true);
    KeptRecoverable(states[n], f, c);
  }

  lemma KeptRecoverable(s: State, f: Meta, c: Meta)
    requires Consistent(s, f, c, true)
    ensures Recoverable(s)
  {
    hide Ledger, SnapshotOk, MetasOk, Protected;
    SelectedMetas(s.metas, f, c);
  }

  /** A sync makes any sound run recoverable again, whatever happened before. */
  lemma SyncRecovers(states: seq<State>, steps: seq<Step>, n: nat)
    requires SoundRun(states, steps, n) && n < |steps| && (steps[n].SyncData? || steps[n].SyncMeta?)
    ensures Recoverable(states[n + 1])
  {
    hide Next, Consistent, Recoverable;
    RunInv(states, steps, n);
    var f, c, k :| Consistent(states[n], f, c, k);
    if steps[n].SyncData? {
      SyncDataStep(states[n], states[n + 1], f, c, k);
    } else {
      SyncMetaStep(states[n], states[n + 1], f, c, k);
    }
    KeptRecoverable(states[n + 1], c, c);
  }

  // ---------- where the guard matters ----------

  /** The pages of transaction t's snapshot. */
  ghost function PagesOf(s: State, t: TxId): set<PageId> {
    if t in s.history then s.history[t].cells.Keys else {}
  }

  /** The pages a writer may allocate. */
  ghost function Reusable(s: State): set<PageId> {
    if s.writer.Some? then s.writer.value.fl.free else {}
  }

  /** The guard is exact: a beginning writer may reuse a page of the snapshot that a
      power loss would restore if and only if the current metadata is still unsynced
      and no reader is registered. */
  lemma ReuseExactly(s: State, s': State, f: Meta, c: Meta)
    requires Consistent(s, f, c, true) && Next(s, Begin, s')
    ensures (exists p :: p in PagesOf(s, f.tx) && p in Reusable(s'))
            <==> s.metas.unsynced != {} && s.readers == map[]
  {
    hide Ledger, MetasOk, Protected, SnapshotOk, DataOk, AllProtected, Released, Loaded;
    SelectedMetas(s.metas, f, c);
    if Guarded(s, Begin) {
      BeginStep(s, s', f, c, true);
      NothingFree(s', f, c);
    } else {
      FallbackReleased(s, s', f, c);
    }
  }

  lemma NothingFree(s: State, f: Meta, c: Meta)
    requires Consistent(s, f, c, true) && InPhase(s, Editing)
    ensures forall p :: p in PagesOf(s, f.tx) ==> p !in Reusable(s)
  {
    hide MetasOk, SnapshotOk, DataOk;
    assert Live(s, f, c, true, f.tx);
    assert Protected(s.history[f.tx].cells.Keys, f.tx, s.writer.value.fl, Held(s.writer.value));
  }

  lemma FallbackReleased(s: State, s': State, f: Meta, c: Meta)
    requires Consistent(s, f, c, true) && Next(s, Begin, s') && !Guarded(s, Begin)
    ensures f.freelistPage in PagesOf(s, f.tx) && f.freelistPage in Reusable(s')
  {
    hide Ledger, MetasOk, Protected, AllProtected, Loaded, Closed, WriterOk, Solid;
    SelectedMetas(s.metas, f, c);
    CurrentSnapshot(s, f, c);
    assert Live(s, f, c, true, c.tx);
    assert SnapshotOk(s.history[f.tx]);
    assert InPending(Loaded(Stored(s.history[c.tx])), c.tx, f.freelistPage);
  }
}
