/** The freelist keeps the page ledger: allocating, retiring, releasing and storing it
    never loses a page and never lists one twice. */
module LedgerProof {
  import opened Freelist
  import opened Lifecycle

  lemma {:induction false} DistinctByCount(s: seq<PageId>)
    ensures Distinct(s) <==> forall x :: multiset(s)[x] <= 1
  {
    if s != [] {
      var rest := s[1..];
      DistinctByCount(rest);
      DistinctHead(s);
      assert s == [s[0]] + rest;
      assert multiset(s) == multiset{s[0]} + multiset(rest);
      if !Distinct(rest) {
        var x :| multiset(rest)[x] > 1;
        assert multiset(s)[x] > 1;
      } else if s[0] in rest {
        assert multiset(s)[s[0]] >= 2;
      }
    }
  }

  lemma DistinctHead(s: seq<PageId>)
    requires s != []
    ensures Distinct(s) <==> Distinct(s[1..]) && s[0] !in s[1..]
  {
    var rest := s[1..];
    assert forall i :: 0 <= i < |rest| ==> rest[i] == s[i + 1];
    if Distinct(rest) && s[0] !in rest {
      forall i, j | 0 <= i < j < |s| ensures s[i] != s[j] {
        assert s[j] == rest[j - 1] && (i > 0 ==> s[i] == rest[i - 1]);
      }
    }
  }

  lemma SameMembers(a: FreeState, b: FreeState)
    requires Same(a, b)
    ensures forall t: TxId, p: PageId :: InPending(a, t, p) <==> InPending(b, t, p)
    ensures forall t :: t in a.pending ==> (Distinct(a.pending[t]) <==> Distinct(b.pending[t]))
  {
    forall t | t in a.pending
      ensures Distinct(a.pending[t]) <==> Distinct(b.pending[t])
      ensures forall p :: p in a.pending[t] <==> p in b.pending[t]
    {
      DistinctByCount(a.pending[t]);
      DistinctByCount(b.pending[t]);
      forall p ensures p in a.pending[t] <==> p in b.pending[t] {
        assert p in a.pending[t] <==> p in multiset(a.pending[t]);
        assert p in b.pending[t] <==> p in multiset(b.pending[t]);
      }
    }
  }

  /** Storing the records and loading them back keeps the ledger. */
  lemma LedgerReload(fl: FreeState, es: seq<RetiredPage>, numPages: nat, held: set<PageId>, tx: TxId)
    requires Ledger(fl, numPages, held, tx) && Lists(fl, es)
    ensures Ledger(Loaded(es), numPages, held, tx)
    ensures forall t: TxId, p: PageId :: InPending(Loaded(es), t, p) <==> InPending(fl, t, p)
  {
    ReloadRestores(fl, es);
    SameMembers(Loaded(es), fl);
    LoadedContents(es);
  }

  lemma LedgerRelease(fl: FreeState, bound: TxId, fl': FreeState, numPages: nat, held: set<PageId>, tx: TxId)
    requires Ledger(fl, numPages, held, tx) && Released(fl, bound, fl')
    ensures Ledger(fl', numPages, held, tx)
    ensures forall t: TxId, p: PageId :: InPending(fl', t, p) <==> InPending(fl, t, p) && bound <= t
  {
    assert forall t: TxId, p: PageId :: InPending(fl', t, p) <==> InPending(fl, t, p) && bound <= t;
    forall p: PageId
      ensures 2 <= p < numPages <==> p in fl'.free || p in held || exists t: TxId :: InPending(fl', t, p)
    {
      if t: TxId :| InPending(fl, t, p) {
        assert InPending(fl', t, p) || t < bound;
      }
    }
  }

  lemma {:induction false} FreedBlockDistinct(s: FreeState, tx: TxId, p: PageId, n: nat)
    requires tx in s.pending ==> Distinct(s.pending[tx])
    requires forall q: PageId :: p <= q < p + n ==> !InPending(s, tx, q)
    ensures n > 0 ==> tx in FreedBlock(s, tx, p, n).pending
    ensures tx in FreedBlock(s, tx, p, n).pending ==> Distinct(FreedBlock(s, tx, p, n).pending[tx])
    ensures forall t :: t != tx ==> (t in FreedBlock(s, tx, p, n).pending <==> t in s.pending)
    ensures forall t :: t != tx && t in s.pending ==> FreedBlock(s, tx, p, n).pending[t] == s.pending[t]
  {
    if n > 0 {
      FreedBlockDistinct(s, tx, p, n - 1);
      FreedBlockContents(s, tx, p, n - 1);
      assert !InPending(FreedBlock(s, tx, p, n - 1), tx, p + n - 1);
    }
  }

  lemma RetireSplits(fl: FreeState, fl': FreeState, tx: TxId, block: set<PageId>, numPages: nat, held: set<PageId>,
                     p: PageId)
    requires Ledger(fl, numPages, held, tx) && block <= held && fl'.free == fl.free
    requires forall t: TxId, q: PageId :: InPending(fl', t, q) <==> InPending(fl, t, q) || (t == tx && q in block)
    ensures 2 <= p < numPages <==> p in fl'.free || p in held - block || exists t: TxId :: InPending(fl', t, p)
  {
    hide InPending;
    if p in block {
      assert InPending(fl', tx, p);
    } else {
      assert forall t: TxId :: InPending(fl', t, p) <==> InPending(fl, t, p);
    }
  }

  /** A block moved from the held pages to a generation. */
  lemma LedgerMoved(fl: FreeState, fl': FreeState, tx: TxId, block: set<PageId>, numPages: nat, held: set<PageId>)
    requires Ledger(fl, numPages, held, tx) && block <= held && fl'.free == fl.free
    requires forall t: TxId, q: PageId :: InPending(fl', t, q) <==> InPending(fl, t, q) || (t == tx && q in block)
    requires forall t :: t in fl'.pending ==> 0 < t <= tx && fl'.pending[t] != [] && Distinct(fl'.pending[t])
    ensures Ledger(fl', numPages, held - block, tx)
  {
    hide InPending, Distinct;
    forall p: PageId
      ensures 2 <= p < numPages <==> p in fl'.free || p in held - block || exists t: TxId :: InPending(fl', t, p)
    {
      RetireSplits(fl, fl', tx, block, numPages, held, p);
    }
  }

  /** Retiring held pages moves them to the transaction's generation. */
  lemma LedgerRetire(fl: FreeState, tx: TxId, page: PageId, n: nat, numPages: nat, held: set<PageId>)
    requires Ledger(fl, numPages, held, tx) && tx > 0 && Block(page, n) <= held
    ensures Ledger(FreedBlock(fl, tx, page, n), numPages, held - Block(page, n), tx)
    ensures forall t: TxId, q: PageId :: InPending(FreedBlock(fl, tx, page, n), t, q) <==>
                                         InPending(fl, t, q) || (t == tx && q in Block(page, n))
  {
    var fl' := FreedBlock(fl, tx, page, n);
    FreedBlockContents(fl, tx, page, n);
    RetiredGenerations(fl, tx, page, n, numPages, held);
    hide Ledger, FreedBlock;
    LedgerMoved(fl, fl', tx, Block(page, n), numPages, held);
  }

  lemma RetiredGenerations(fl: FreeState, tx: TxId, page: PageId, n: nat, numPages: nat, held: set<PageId>)
    requires Ledger(fl, numPages, held, tx) && tx > 0 && Block(page, n) <= held
    ensures var fl' := FreedBlock(fl, tx, page, n);
            forall t :: t in fl'.pending ==> 0 < t <= tx && fl'.pending[t] != [] && Distinct(fl'.pending[t])
  {
    hide FreedBlock, Distinct;
    forall q: PageId | page <= q < page + n ensures !InPending(fl, tx, q) {
      assert q in Block(page, n);
    }
    FreedBlockDistinct(fl, tx, page, n);
    FreedBlockContents(fl, tx, page, n);
    var fl' := FreedBlock(fl, tx, page, n);
    if n > 0 {
      assert InPending(fl', tx, page + n - 1);
    } else {
      NothingFreed(fl, tx, page);
    }
  }

  lemma NothingFreed(fl: FreeState, tx: TxId, page: PageId)
    ensures FreedBlock(fl, tx, page, 0) == fl
  {
  }

  /** Allocation takes pages that are neither held nor pending. */
  lemma PlacesFresh(fl: FreeState, numPages: nat, page: PageId, n: nat, held: set<PageId>, tx: TxId)
    requires Ledger(fl, numPages, held, tx) && Places(fl, numPages, page, n) && n > 0
    ensures Block(page, n) !! held
    ensures forall t: TxId, p: PageId :: InPending(fl, t, p) ==> p !in Block(page, n)
    ensures page == numPages || Block(page, n) <= fl.free
  {
    forall p: PageId | p in Block(page, n) ensures p in fl.free || numPages <= p {
    }
  }

  lemma LedgerAllocate(fl: FreeState, numPages: nat, page: PageId, n: nat, held: set<PageId>, tx: TxId)
    requires Ledger(fl, numPages, held, tx) && Places(fl, numPages, page, n) && n > 0 && numPages >= 2
    ensures Ledger(fl.(free := fl.free - Block(page, n)), Grow(numPages, page, n), held + Block(page, n), tx)
  {
    PlacesFresh(fl, numPages, page, n, held, tx);
    var fl' := fl.(free := fl.free - Block(page, n));
    assert forall t: TxId, p: PageId :: InPending(fl', t, p) <==> InPending(fl, t, p);
    if page == numPages {
      assert page !in fl.free;
    } else {
      assert page in Block(page, n);
      assert page < numPages;
    }
  }
}
