/** The page freelist: reusable pages, pages retired by a transaction but possibly
    still visible to a reader, and the block that stores both on disk. */
module Freelist {
  import opened Wrappers
  type PageId = nat
  type TxId = nat


  /** One freelist record; generation 0 marks a page that is free outright. */
  datatype RetiredPage = RetiredPage(pageId: PageId, retiredTx: TxId)

  /** The two collections of a freelist, as a value. */
  datatype FreeState = FreeState(free: set<PageId>, pending: map<TxId, seq<PageId>>)

  const EMPTY := FreeState({}, map[])

  ghost predicate WellFormed(s: FreeState) {
    && (forall p :: p in s.free ==> p > 1)
    && 0 !in s.pending
    && (forall t :: t in s.pending ==> s.pending[t] != [])
    && forall t, p :: InPending(s, t, p) ==> p > 1
  }

  function Freed(s: FreeState, tx: TxId, p: PageId): FreeState {
    s.(pending := s.pending[tx := (if tx in s.pending then s.pending[tx] else []) + [p]])
  }

  /** The pages at p, p + 1, ..., p + n - 1. */
  function Block(p: PageId, n: nat): (b: set<PageId>)
    ensures forall i: nat :: i in b <==> p <= i < p + n
  {
    if n == 0 then {} else Block(p, n - 1) + {p + n - 1}
  }

  ghost predicate RunAt(free: set<PageId>, p: PageId, n: nat) {
    Block(p, n) <= free
  }

  /** p starts the first run of n consecutive free pages. */
  ghost predicate FirstRun(free: set<PageId>, p: PageId, n: nat) {
    RunAt(free, p, n) && forall q: PageId :: RunAt(free, q, n) ==> p <= q
  }

  ghost predicate InPending(s: FreeState, t: TxId, p: PageId) {
    t in s.pending && p in s.pending[t]
  }

  /** Releasing generations below `bound`: exactly their pages become free. */
  ghost predicate Released(s: FreeState, bound: TxId, r: FreeState) {
    && (forall p: PageId :: p in r.free <==> p in s.free || exists t: TxId :: t < bound && InPending(s, t, p))
    && (forall t :: t in r.pending <==> t in s.pending && bound <= t)
    && forall t :: t in r.pending ==> r.pending[t] == s.pending[t]
  }

  /** Moves one generation to the free pages. */
  function Drop(s: FreeState, t: TxId): FreeState {
    if t !in s.pending then s
    else FreeState(s.free + (set p | p in s.pending[t]), s.pending - {t})
  }

  function Dropped(s: FreeState, ids: seq<TxId>): FreeState {
    if ids == [] then s else Drop(Dropped(s, ids[..|ids| - 1]), ids[|ids| - 1])
  }

  lemma {:induction false} DroppedPending(s: FreeState, ids: seq<TxId>)
    ensures forall t :: t in Dropped(s, ids).pending <==> t in s.pending && t !in ids
    ensures forall t :: t in Dropped(s, ids).pending ==> Dropped(s, ids).pending[t] == s.pending[t]
  {
    if ids != [] {
      DroppedPending(s, ids[..|ids| - 1]);
      assert ids == ids[..|ids| - 1] + [ids[|ids| - 1]];
    }
  }

  lemma {:induction false} DroppedFree(s: FreeState, ids: seq<TxId>, p: PageId)
    ensures p in Dropped(s, ids).free <==> p in s.free || exists t :: t in ids && InPending(s, t, p)
  {
    if ids != [] {
      var front, last := ids[..|ids| - 1], ids[|ids| - 1];
      DroppedFree(s, front, p);
      DroppedPending(s, front);
      assert ids == front + [last];
      if InPending(s, last, p) && last in front {
        assert p in Dropped(s, front).free;
      }
    }
  }

  lemma DroppedNone(s: FreeState)
    ensures forall ids: seq<TxId> :: ids == [] ==> Dropped(s, ids) == s
  {
  }

  lemma DroppedOneMore(s: FreeState, ids: seq<TxId>, i: nat)
    requires Increasing(ids) && i < |ids| && forall t :: t in s.pending <==> t in ids
    ensures ids[i] in Dropped(s, ids[..i]).pending
    ensures Dropped(s, ids[..i + 1]) == Drop(Dropped(s, ids[..i]), ids[i])
  {
    hide Drop;
    DroppedPending(s, ids[..i]);
    var more := ids[..i + 1];
    assert more[..|more| - 1] == ids[..i] && more[|more| - 1] == ids[i];
    NotYetSeen(ids, i);
    assert ids[i] in ids;
  }

  /** Dropping the generations below `bound` releases them. */
  lemma DroppedIsReleased(s: FreeState, ids: seq<TxId>, bound: TxId)
    requires forall t :: t in s.pending ==> (t in ids <==> t < bound)
    ensures Released(s, bound, Dropped(s, ids))
    ensures WellFormed(s) ==> WellFormed(Dropped(s, ids))
  {
    DroppedPending(s, ids);
    var r := Dropped(s, ids);
    forall p: PageId ensures p in r.free <==> p in s.free || exists t: TxId :: t < bound && InPending(s, t, p) {
      DroppedFree(s, ids, p);
    }
    assert forall t, p :: InPending(r, t, p) ==> InPending(s, t, p);
  }

  // ---------- stored entries ----------

  /** How often a record occurs in the freelist. */
  ghost function Count(s: FreeState, r: RetiredPage): nat {
    if r.retiredTx == 0 then if r.pageId in s.free then 1 else 0
    else if r.retiredTx in s.pending then multiset(s.pending[r.retiredTx])[r.pageId]
    else 0
  }

  /** `es` lists every record of s, in some order. */
  ghost predicate Lists(s: FreeState, es: seq<RetiredPage>) {
    forall r :: multiset(es)[r] == Count(s, r)
  }

  function AddEntry(s: FreeState, e: RetiredPage): FreeState {
    if e.retiredTx == 0 then s.(free := s.free + {e.pageId}) else Freed(s, e.retiredTx, e.pageId)
  }

  function Loaded(es: seq<RetiredPage>): FreeState {
    if es == [] then EMPTY else AddEntry(Loaded(es[..|es| - 1]), es[|es| - 1])
  }

  /** Equal up to the order of the pages inside one generation. */
  ghost predicate Same(a: FreeState, b: FreeState) {
    && a.free == b.free
    && a.pending.Keys == b.pending.Keys
    && forall t :: t in a.pending ==> multiset(a.pending[t]) == multiset(b.pending[t])
  }

  lemma AddEntryCount(a: FreeState, last: RetiredPage, r: RetiredPage)
    requires r.retiredTx != 0
    ensures Count(AddEntry(a, last), r) == Count(a, r) + if r == last then 1 else 0
  {
    if last.retiredTx == r.retiredTx {
      var pages := if r.retiredTx in a.pending then a.pending[r.retiredTx] else [];
      assert AddEntry(a, last).pending[r.retiredTx] == pages + [last.pageId];
      assert multiset(pages + [last.pageId]) == multiset(pages) + multiset{last.pageId};
    }
  }

  lemma {:induction false} LoadedCount(es: seq<RetiredPage>, r: RetiredPage)
    requires r.retiredTx != 0
    ensures Count(Loaded(es), r) == multiset(es)[r]
  {
    if es != [] {
      var front, last := es[..|es| - 1], es[|es| - 1];
      LoadedCount(front, r);
      AddEntryCount(Loaded(front), last, r);
      assert es == front + [last];
      assert multiset(es) == multiset(front) + multiset{last};
    }
  }

  lemma {:induction false} LoadedContents(es: seq<RetiredPage>)
    ensures forall p :: p in Loaded(es).free <==> RetiredPage(p, 0) in es
    ensures 0 !in Loaded(es).pending
    ensures forall t :: t in Loaded(es).pending ==> Loaded(es).pending[t] != []
  {
    if es != [] {
      var front, last := es[..|es| - 1], es[|es| - 1];
      LoadedContents(front);
      assert es == front + [last];
    }
  }

  /** Writing the entries in any order and loading them back restores the free set
      and every retirement generation. */
  lemma ReloadRestores(s: FreeState, es: seq<RetiredPage>)
    requires WellFormed(s) && Lists(s, es)
    ensures Same(Loaded(es), s)
  {
    LoadedContents(es);
    var l := Loaded(es);
    forall p ensures p in l.free <==> p in s.free {
      var r := RetiredPage(p, 0);
      assert multiset(es)[r] == Count(s, r);
    }
    forall t, p: PageId | t != 0 ensures Count(l, RetiredPage(p, t)) == Count(s, RetiredPage(p, t)) {
      LoadedCount(es, RetiredPage(p, t));
      assert multiset(es)[RetiredPage(p, t)] == Count(s, RetiredPage(p, t));
    }
    forall t ensures t in l.pending <==> t in s.pending {
      if t in l.pending {
        var p := l.pending[t][0];
        assert multiset(l.pending[t])[p] > 0;
        assert Count(l, RetiredPage(p, t)) == Count(s, RetiredPage(p, t));
      }
      if t in s.pending {
        var p := s.pending[t][0];
        assert multiset(s.pending[t])[p] > 0;
        assert Count(l, RetiredPage(p, t)) == Count(s, RetiredPage(p, t));
      }
    }
    forall t | t in l.pending ensures multiset(l.pending[t]) == multiset(s.pending[t]) {
      forall p ensures multiset(l.pending[t])[p] == multiset(s.pending[t])[p] {
        assert Count(l, RetiredPage(p, t)) == Count(s, RetiredPage(p, t));
      }
    }
  }

  lemma FewerRecordsFewerEntries(s: FreeState, es: seq<RetiredPage>, s': FreeState, es': seq<RetiredPage>)
    requires Lists(s, es) && Lists(s', es')
    requires forall r :: Count(s', r) <= Count(s, r)
    ensures |es'| <= |es|
  {
    forall r ensures multiset(es')[r] <= multiset(es)[r] {
      assert Count(s', r) <= Count(s, r);
    }
    assert multiset(es') <= multiset(es);
    assert |multiset(es)| == |multiset(es')| + |multiset(es) - multiset(es')|;
  }

  // ---------- ascending iteration ----------

  lemma {:induction false} HasLeast(s: set<PageId>)
    requires s != {}
    ensures exists m :: IsLeast(m, s)
  {
    var e :| e in s;
    var rest := s - {e};
    if rest == {} {
      assert s == {e};
      assert IsLeast(e, s);
    } else {
      HasLeast(rest);
      var m :| IsLeast(m, rest);
      assert s == rest + {e};
      assert IsLeast(if e < m then e else m, s);
    }
  }

  predicate IsLeast(m: PageId, s: set<PageId>) {
    m in s && forall x :: x in s ==> m <= x
  }

  function Least(s: set<PageId>): (m: PageId)
    requires s != {}
    ensures m in s && forall x :: x in s ==> m <= x
  {
    HasLeast(s);
    var m :| IsLeast(m, s);
    m
  }

  /** The order in which a BTreeSet is iterated. */
  function Ascending(s: set<PageId>): (r: seq<PageId>)
    ensures Increasing(r)
    ensures forall x :: x in s <==> x in r
    decreases |s|
  {
    if s == {} then []
    else
      var m := Least(s);
      [m] + Ascending(s - {m})
  }

  // ---------- collecting records ----------

  ghost predicate Increasing(s: seq<nat>) {
    forall i, j :: 0 <= i < j < |s| ==> s[i] < s[j]
  }

  function Generation(t: TxId, pages: seq<PageId>): seq<RetiredPage> {
    if pages == [] then [] else [RetiredPage(pages[0], t)] + Generation(t, pages[1..])
  }

  function FreeRecords(ids: seq<PageId>): seq<RetiredPage> {
    Generation(0, ids)
  }

  function PendingRecords(txs: seq<TxId>, pending: map<TxId, seq<PageId>>): seq<RetiredPage>
    requires forall t :: t in txs ==> t in pending
  {
    if txs == [] then [] else Generation(txs[0], pending[txs[0]]) + PendingRecords(txs[1..], pending)
  }

  lemma {:induction false} GenerationCount(t: TxId, pages: seq<PageId>)
    ensures forall r: RetiredPage ::
              multiset(Generation(t, pages))[r] == if r.retiredTx == t then multiset(pages)[r.pageId] else 0
  {
    if pages != [] {
      GenerationCount(t, pages[1..]);
      assert pages == [pages[0]] + pages[1..];
    }
  }

  lemma {:induction false} FreeRecordsCount(ids: seq<PageId>)
    requires Increasing(ids)
    ensures forall r: RetiredPage ::
              multiset(FreeRecords(ids))[r] == if r.retiredTx == 0 && r.pageId in ids then 1 else 0
  {
    GenerationCount(0, ids);
    DistinctCount(ids);
  }

  lemma {:induction false} DistinctCount(s: seq<nat>)
    requires Increasing(s)
    ensures forall x :: multiset(s)[x] == if x in s then 1 else 0
  {
    if s != [] {
      DistinctCount(s[1..]);
      assert s == [s[0]] + s[1..];
    }
  }

  lemma {:induction false} PendingRecordsCount(txs: seq<TxId>, pending: map<TxId, seq<PageId>>)
    requires Increasing(txs) && forall t :: t in txs ==> t in pending
    ensures forall r: RetiredPage ::
              multiset(PendingRecords(txs, pending))[r] ==
              if r.retiredTx in txs then multiset(pending[r.retiredTx])[r.pageId] else 0
  {
    if txs != [] {
      PendingRecordsCount(txs[1..], pending);
      GenerationCount(txs[0], pending[txs[0]]);
      assert txs == [txs[0]] + txs[1..];
    }
  }

  // ---------- sorting by page id ----------

  function InsertById(e: RetiredPage, es: seq<RetiredPage>): (r: seq<RetiredPage>)
    ensures multiset(r) == multiset(es) + multiset{e}
  {
    if es == [] || e.pageId <= es[0].pageId then [e] + es
    else
      assert es == [es[0]] + es[1..];
      [es[0]] + InsertById(e, es[1..])
  }

  function SortById(es: seq<RetiredPage>): (r: seq<RetiredPage>)
    ensures multiset(r) == multiset(es)
  {
    if es == [] then []
    else
      assert es == [es[0]] + es[1..];
      InsertById(es[0], SortById(es[1..]))
  }

  ghost predicate SortedById(es: seq<RetiredPage>) {
    forall i, j :: 0 <= i < j < |es| ==> es[i].pageId <= es[j].pageId
  }

  lemma {:induction false} InsertByIdSorted(e: RetiredPage, es: seq<RetiredPage>)
    requires SortedById(es)
    ensures SortedById(InsertById(e, es))
  {
    if es != [] && es[0].pageId < e.pageId {
      InsertByIdSorted(e, es[1..]);
      var r := InsertById(e, es[1..]);
      forall x | x in r ensures es[0].pageId <= x.pageId {
        assert multiset(r)[x] > 0;
        assert x == e || x in multiset(es[1..]);
      }
    }
  }

  lemma {:induction false} SortByIdSorted(es: seq<RetiredPage>)
    ensures SortedById(SortById(es))
  {
    if es != [] {
      SortByIdSorted(es[1..]);
      InsertByIdSorted(es[0], SortById(es[1..]));
    }
  }

  /** All records: the free pages, then each generation in order, sorted by page. */
  function EntriesOf(s: FreeState): seq<RetiredPage> {
    SortById(FreeRecords(Ascending(s.free)) + PendingRecords(Ascending(s.pending.Keys), s.pending))
  }

  lemma EntriesOfLists(s: FreeState)
    requires 0 !in s.pending
    ensures Lists(s, EntriesOf(s)) && SortedById(EntriesOf(s))
  {
    var ids: seq<PageId>, txs: seq<TxId> := Ascending(s.free), Ascending(s.pending.Keys);
    var free, pending := FreeRecords(ids), PendingRecords(txs, s.pending);
    hide PendingRecords, FreeRecords, Ascending, SortById, Count;
    forall r: RetiredPage ensures multiset(free + pending)[r] == Count(s, r) {
      FreeRecordsCount(ids);
      PendingRecordsCount(txs, s.pending);
      assert multiset(free + pending) == multiset(free) + multiset(pending);
      CountSplits(s, ids, txs, free, pending, r);
    }
    SortByIdSorted(free + pending);
    assert multiset(SortById(free + pending)) == multiset(free + pending);
  }

  lemma CountSplits(s: FreeState, ids: seq<PageId>, txs: seq<TxId>, free: seq<RetiredPage>, pending: seq<RetiredPage>,
                    r: RetiredPage)
    requires 0 !in s.pending && (forall p :: p in ids <==> p in s.free) && (forall t :: t in txs <==> t in s.pending)
    requires multiset(free)[r] == (if r.retiredTx == 0 && r.pageId in ids then 1 else 0)
    requires multiset(pending)[r] == (if r.retiredTx in txs && r.retiredTx in s.pending
                                      then multiset(s.pending[r.retiredTx])[r.pageId] else 0)
    ensures multiset(free)[r] + multiset(pending)[r] == Count(s, r)
  {
  }

  const HEADER_SIZE := 40
  const RECORD_SIZE := 16

  ghost predicate Covers(ids: seq<PageId>, p: PageId, n: nat) {
    forall x: PageId :: p <= x < p + n ==> x in ids
  }

  lemma RunIsCovered(free: set<PageId>, p: PageId, n: nat)
    ensures RunAt(free, p, n) <==> Covers(Ascending(free), p, n)
  {
    if Covers(Ascending(free), p, n) {
      forall x | x in Block(p, n) ensures x in free {
        assert x in Ascending(free);
      }
    }
  }

  lemma SplitAtBound(ids: seq<TxId>, i: nat, bound: TxId)
    requires Increasing(ids) && i <= |ids|
    requires forall k :: 0 <= k < i ==> ids[k] < bound
    requires i < |ids| ==> bound <= ids[i]
    ensures forall t :: t in ids ==> (t in ids[..i] <==> t < bound)
  {
    forall t | t in ids ensures t in ids[..i] <==> t < bound {
      var k :| 0 <= k < |ids| && ids[k] == t;
      if k < i {
        assert ids[..i][k] == t;
      }
    }
  }

  lemma NotYetSeen(ids: seq<nat>, i: nat)
    requires Increasing(ids) && i < |ids|
    ensures ids[i] !in ids[..i]
  {
  }

  /** Nothing of an increasing sequence lies strictly between two neighbours. */
  lemma NothingBetween(ids: seq<PageId>, i: nat)
    requires Increasing(ids) && i < |ids|
    ensures forall x :: x in ids && (i > 0 ==> ids[i - 1] < x) ==> ids[i] <= x
  {
    forall x | x in ids && (i > 0 ==> ids[i - 1] < x) ensures ids[i] <= x {
      var k :| 0 <= k < |ids| && ids[k] == x;
    }
  }

  /** The scan of `allocate`: the first run of n ids, or 0. */
  method FindRun(ids: seq<PageId>, n: nat) returns (found: PageId)
    requires Increasing(ids) && n >= 1
    requires forall x :: x in ids ==> x > 1
    ensures found == 0 <==> !exists q: PageId :: Covers(ids, q, n)
    ensures found != 0 ==> found > 1 && Covers(ids, found, n) && forall q: PageId :: Covers(ids, q, n) ==> found <= q
  {
    var start, prev, i := 0, 0, 0;
    forall q: PageId | Covers(ids, q, n) ensures 1 < q {
      assert q <= q < q + n && q in ids;
    }
    while i < |ids|
      invariant 0 <= i <= |ids|
      invariant i == 0 ==> prev == 0
      invariant i > 0 ==> prev == ids[i - 1] && 1 < start <= prev && prev - start + 1 < n
      invariant i > 0 ==> start - 1 !in ids && forall x :: start <= x <= prev ==> x in ids
      invariant forall q: PageId :: Covers(ids, q, n) ==> prev < q + n - 1
    {
      var id := ids[i];
      assert id in ids;
      NothingBetween(ids, i);
      if prev == 0 || id - prev != 1 {
        start := id;
      }
      forall q: PageId | Covers(ids, q, n) ensures id <= q + n - 1 {
        assert q + n - 1 in ids;
      }
      if id - start + 1 == n {
        assert Covers(ids, start, n);
        return start;
      }
      forall q: PageId | Covers(ids, q, n) ensures id < q + n - 1 {
        assert q <= start - 1 < q + n ==> start - 1 in ids;
      }
      prev := id;
      i := i + 1;
    }
    forall q: PageId ensures !Covers(ids, q, n) {
      assert q + n - 1 in ids ==> q + n - 1 <= prev;
    }
    return 0;
  }

  class Freelist {
    var freePages: set<PageId>
    var pendingPages: map<TxId, seq<PageId>>

    function State(): FreeState
      reads this
    {
      FreeState(freePages, pendingPages)
    }

    ghost predicate Valid()
      reads this
    {
      WellFormed(State())
    }

    constructor ()
      ensures Valid() && State() == EMPTY
    {
      freePages := {};
      pendingPages := map[];
    }

    method Init(entries: seq<RetiredPage>)
      requires State() == EMPTY
      modifies this
      ensures State() == Loaded(entries)
    {
      for i := 0 to |entries|
        invariant State() == Loaded(entries[..i])
      {
        assert entries[..i + 1][..i] == entries[..i];
        var entry := entries[i];
        if entry.retiredTx == 0 {
          freePages := freePages + {entry.pageId};
        } else {
          Free(entry.retiredTx, entry.pageId);
        }
      }
      assert entries[..|entries|] == entries;
    }

    method Free(tx: TxId, page: PageId)
      modifies this
      ensures State() == Freed(old(State()), tx, page)
      ensures old(Valid()) && tx != 0 && page > 1 ==> Valid()
    {
      ghost var before := State();
      var pages := if tx in pendingPages then pendingPages[tx] else [];
      pendingPages := pendingPages[tx := pages + [page]];
      assert forall t, p :: InPending(State(), t, p) ==> InPending(before, t, p) || p == page;
    }

    method Release(bound: TxId)
      requires Valid()
      modifies this
      ensures Valid() && Released(old(State()), bound, State())
    {
      hide WellFormed, Released, Dropped, Ascending;
      ghost var before := State();
      var ids: seq<PageId> := Ascending(pendingPages.Keys);
      assert forall t :: t in before.pending ==> t in ids;
      DroppedNone(before);
      var i := 0;
      while i < |ids| && ids[i] < bound
        invariant 0 <= i <= |ids|
        invariant State() == Dropped(before, ids[..i])
        invariant forall k :: 0 <= k < i ==> ids[k] < bound
      {
        DroppedOneMore(before, ids, i);
        var pages := pendingPages[ids[i]];
        pendingPages := pendingPages - {ids[i]};
        freePages := freePages + set p | p in pages;
        i := i + 1;
      }
      SplitAtBound(ids, i, bound);
      DroppedIsReleased(before, ids[..i], bound);
    }

    /** First fit: the least start of a run of `n` consecutive free pages. */
    method Allocate(n: nat) returns (r: Option<PageId>)
      requires Valid() && n >= 1
      modifies this
      ensures Valid() && pendingPages == old(pendingPages)
      ensures r.None? <==> !exists p: PageId :: RunAt(old(freePages), p, n)
      ensures r.None? ==> freePages == old(freePages)
      ensures r.Some? ==> r.value > 1 && FirstRun(old(freePages), r.value, n)
                          && freePages == old(freePages) - Block(r.value, n)
    {
      var found := FindRun(Ascending(freePages), n);
      forall q: PageId ensures RunAt(freePages, q, n) <==> Covers(Ascending(freePages), q, n) {
        RunIsCovered(freePages, q, n);
      }
      if found == 0 {
        return None;
      }
      ghost var before := State();
      freePages := freePages - Block(found, n);
      assert forall t, p :: InPending(State(), t, p) ==> InPending(before, t, p);
      return Some(found);
    }

    /** The records to store, sorted by page id. */
    method Entries() returns (es: seq<RetiredPage>)
      requires Valid()
      ensures Lists(State(), es) && SortedById(es)
    {
      es := EntriesOf(State());
      EntriesOfLists(State());
    }

    /** Bytes of the block that stores this freelist. */
    method Size() returns (bytes: nat)
      requires Valid()
      ensures forall es :: Lists(State(), es) ==> bytes == HEADER_SIZE + RECORD_SIZE * |es|
    {
      var mine := Entries();
      bytes := HEADER_SIZE + RECORD_SIZE * |mine|;
      forall es | Lists(State(), es) ensures |es| == |mine| {
        FewerRecordsFewerEntries(State(), es, State(), mine);
        FewerRecordsFewerEntries(State(), mine, State(), es);
      }
    }
  }

  // ---------- one transaction's view ----------

  const CHECKSUM_SIZE := 32
  /** Records start at the page header's pointer field. */
  const DATA_OFFSET := 32

  function FreedBlock(s: FreeState, tx: TxId, p: PageId, n: nat): FreeState {
    if n == 0 then s else Freed(FreedBlock(s, tx, p, n - 1), tx, p + n - 1)
  }

  /** Retiring a block retires each of its pages, under this transaction only. */
  lemma {:induction false} FreedBlockContents(s: FreeState, tx: TxId, p: PageId, n: nat)
    ensures FreedBlock(s, tx, p, n).free == s.free
    ensures forall t: TxId, q: PageId :: InPending(FreedBlock(s, tx, p, n), t, q) <==>
                           InPending(s, t, q) || (t == tx && p <= q < p + n)
  {
    if n > 0 {
      FreedBlockContents(s, tx, p, n - 1);
      var a, b := FreedBlock(s, tx, p, n - 1), FreedBlock(s, tx, p, n);
      forall t: TxId, q: PageId ensures InPending(b, t, q) <==> InPending(a, t, q) || (t == tx && q == p + n - 1) {
      }
    }
  }

  /** Whole pages needed for `bytes` of payload and the checksum. */
  function PagesFor(bytes: nat, pagesize: nat): (n: nat)
    requires pagesize > 0
    ensures (n - 1) * pagesize < bytes + CHECKSUM_SIZE <= n * pagesize
    ensures n >= 1
  {
    var required := bytes + CHECKSUM_SIZE;
    if required % pagesize == 0 then required / pagesize else required / pagesize + 1
  }

  lemma AllocatingRemovesRecords(s: FreeState, b: set<PageId>)
    ensures forall r :: Count(s.(free := s.free - b), r) <= Count(s, r)
  {
  }

  class TxFreelist {
    const inner: Freelist
    const txId: TxId
    const pagesize: nat
    var numPages: nat
    /** Dirty blocks of this transaction, by first page, with their byte length. */
    var pages: map<PageId, nat>

    ghost predicate Valid()
      reads this, inner
    {
      && inner.Valid() && txId > 0 && pagesize > 0 && numPages >= 2
      && forall p :: p in inner.freePages ==> p < numPages
    }

    constructor (inner: Freelist, txId: TxId, pagesize: nat, numPages: nat)
      requires inner.Valid() && txId > 0 && pagesize > 0 && numPages >= 2
      requires forall p :: p in inner.freePages ==> p < numPages
      ensures Valid() && this.inner == inner && this.txId == txId
      ensures this.pagesize == pagesize && this.numPages == numPages && pages == map[]
    {
      this.inner, this.txId, this.pagesize, this.numPages := inner, txId, pagesize, numPages;
      pages := map[];
    }

    method Free(page: PageId, count: nat)
      requires Valid() && page > 1 && count > 0
      modifies inner
      ensures Valid() && inner.State() == FreedBlock(old(inner.State()), txId, page, count)
    {
      for i := 0 to count
        invariant Valid() && inner.State() == FreedBlock(old(inner.State()), txId, page, i)
      {
        inner.Free(txId, page + i);
      }
    }

    /** A block for `bytes` of payload: first fit, else fresh pages at the end. */
    method Allocate(bytes: nat) returns (page: PageId, count: nat)
      requires Valid() && bytes >= HEADER_SIZE
      modifies this, inner
      ensures Valid() && count == PagesFor(bytes, pagesize) && page > 1
      ensures inner.pendingPages == old(inner.pendingPages)
      ensures inner.freePages == old(inner.freePages) - Block(page, count)
      ensures if exists p: PageId :: RunAt(old(inner.freePages), p, count)
              then FirstRun(old(inner.freePages), page, count) && numPages == old(numPages)
              else page == old(numPages) && numPages == old(numPages) + count
      ensures pages == old(pages)[page := count * pagesize]
    {
      count := PagesFor(bytes, pagesize);
      var found := inner.Allocate(count);
      match found {
        case Some(p) => page := p;
        case None =>
          page := numPages;
          numPages := numPages + count;
          assert inner.freePages == inner.freePages - Block(page, count);
      }
      pages := pages[page := count * pagesize];
    }

    /** Replaces the stored freelist: the old block is retired first, the size is taken
        before the new block is allocated, and every remaining record fits. */
    method WriteFreelist(oldPage: PageId, oldCount: nat)
      returns (page: PageId, count: nat, entries: seq<RetiredPage>)
      requires Valid() && oldPage > 1 && oldCount > 0
      modifies this, inner
      ensures Valid() && page > 1
      ensures Lists(inner.State(), entries) && SortedById(entries)
      ensures Same(Loaded(entries), inner.State())
      ensures DATA_OFFSET + RECORD_SIZE * |entries| + CHECKSUM_SIZE <= count * pagesize
      ensures inner.pendingPages == FreedBlock(old(inner.State()), txId, oldPage, oldCount).pending
      ensures inner.freePages == old(inner.freePages) - Block(page, count)
      ensures if exists p: PageId :: RunAt(old(inner.freePages), p, count)
              then FirstRun(old(inner.freePages), page, count) && numPages == old(numPages)
              else page == old(numPages) && numPages == old(numPages) + count
      ensures pages == old(pages)[page := count * pagesize]
    {
      Free(oldPage, oldCount);
      FreedBlockContents(old(inner.State()), txId, oldPage, oldCount);
      ghost var sized := inner.State();
      var before := inner.Entries();
      var size := inner.Size();
      assert size == HEADER_SIZE + RECORD_SIZE * |before|;
      page, count := Allocate(size);
      entries := inner.Entries();
      AllocatingRemovesRecords(sized, Block(page, count));
      assert inner.State() == sized.(free := sized.free - Block(page, count));
      FewerRecordsFewerEntries(sized, before, inner.State(), entries);
      ReloadRestores(inner.State(), entries);
    }
  }
}
