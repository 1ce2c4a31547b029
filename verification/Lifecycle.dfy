/** Readers, one writer, commits and crashes over one file, as a transition system.

    A reader registers the transaction it reads; a writer takes a freelist from the
    current snapshot, releases generations no reader can see, allocates and retires
    pages, and publishes through the other metadata page.  `Abort` is a writer that
    fails or whose process dies (the page cache survives); `PowerLoss` keeps an
    arbitrary part of the unsynced writes. */
module Lifecycle {
  import opened Wrappers
  import opened Freelist
  import opened Disk

  /** The pages of one committed transaction: its tree and its freelist block. */
  datatype Snapshot = Snapshot(meta: Meta, cells: map<PageId, Content>)

  datatype Phase =
    | Editing
    | Writing(next: Snapshot, written: set<PageId>)
    | Flushed(next: Snapshot)
    | Published(next: Snapshot)

  datatype Writer = Writer(
    base: Snapshot,
    fl: FreeState,
    numPages: nat,
    dirty: map<PageId, Content>,
    freed: set<PageId>,
    phase: Phase)

  datatype State = State(
    data: Data,
    metas: Metas,
    readers: map<nat, TxId>,
    history: map<TxId, Snapshot>,
    writer: Option<Writer>)

  // ---------- steps ----------

  datatype Step =
    | ReaderStart(id: nat)
    | ReaderEnd(id: nat)
    | Begin
    | Alloc(page: PageId, contents: seq<Content>)
    | Retire(page: PageId, count: nat)
    | Seal(page: PageId, contents: seq<Content>, root: PageId)
    | WriteCell(cell: PageId)
    | SyncData
    | Publish
    | SyncMeta
    | Abort
    | PowerLoss

  /** Allocation: first fit, else fresh pages at the end of the file. */
  ghost predicate Places(fl: FreeState, numPages: nat, page: PageId, n: nat) {
    if exists p: PageId :: RunAt(fl.free, p, n) then FirstRun(fl.free, page, n) else page == numPages
  }

  function Cells(page: PageId, contents: seq<Content>): (m: map<PageId, Content>)
    ensures m.Keys == Block(page, |contents|)
    ensures forall i: nat :: i < |contents| ==> m[page + i] == contents[i]
  {
    if contents == [] then map[]
    else
      var n := |contents| - 1;
      Cells(page, contents[..n])[page + n := contents[n]]
  }

  function Grow(numPages: nat, page: PageId, n: nat): nat {
    if page == numPages then numPages + n else numPages
  }

  function Allocated(w: Writer, page: PageId, contents: seq<Content>): Writer {
    w.(fl := w.fl.(free := w.fl.free - Block(page, |contents|)),
       numPages := Grow(w.numPages, page, |contents|),
       dirty := w.dirty + Cells(page, contents))
  }

  function Retired(w: Writer, page: PageId, n: nat): Writer {
    w.(fl := FreedBlock(w.fl, w.base.meta.tx + 1, page, n), freed := w.freed + Block(page, n))
  }

  /** Pages the transaction still uses: inherited or new, and not retired. */
  function Held(w: Writer): (h: set<PageId>)
    ensures forall p :: p in h <==> (p in w.base.cells || p in w.dirty) && p !in w.freed
  {
    w.base.cells.Keys + w.dirty.Keys - w.freed
  }

  function HeldCells(w: Writer): map<PageId, Content> {
    map p | p in Held(w) :: if p in w.dirty then w.dirty[p] else w.base.cells[p]
  }

  function Stored(sn: Snapshot): seq<RetiredPage> {
    if sn.meta.freelistPage in sn.cells && sn.cells[sn.meta.freelistPage].Records?
    then sn.cells[sn.meta.freelistPage].entries else []
  }

  function StoredCount(sn: Snapshot): nat {
    if sn.meta.freelistPage in sn.cells && sn.cells[sn.meta.freelistPage].Records?
    then sn.cells[sn.meta.freelistPage].count else 0
  }

  function Sealed(w: Writer, page: PageId, root: PageId): Snapshot {
    Snapshot(Meta(w.base.meta.tx + 1, 1 - (if w.base.meta.slot == 0 then 0 else 1), w.numPages, root, page),
        HeldCells(w))
  }

  ghost predicate Current(s: State, m: Meta) {
    Select(s.metas.cache) == Some(m)
  }

  /** The oldest registered reader, or one past the current transaction. */
  ghost predicate ReleaseBound(s: State, current: Meta, bound: TxId) {
    if s.readers == map[] then bound == current.tx + 1
    else bound in s.readers.Values && forall id :: id in s.readers ==> bound <= s.readers[id]
  }

  ghost predicate Next(s: State, step: Step, s': State) {
    match step
    case ReaderStart(id) =>
      && s.writer.None? && id !in s.readers
      && exists m :: Current(s, m) && s' == s.(readers := s.readers[id := m.tx])
    case ReaderEnd(id) =>
      id in s.readers && s' == s.(readers := s.readers - {id})
    case Begin =>
      && s.writer.None?
      && exists m, bound, fl ::
           && Current(s, m) && m.tx in s.history && ReleaseBound(s, m, bound)
           && Begins(s, m, bound, fl)
           && s' == s.(writer := Some(Writer(s.history[m.tx], fl, m.numPages, map[], {}, Editing)))
    case Alloc(page, contents) =>
      && InPhase(s, Editing) && |contents| > 0
      && Places(s.writer.value.fl, s.writer.value.numPages, page, |contents|)
      && s' == s.(writer := Some(Allocated(s.writer.value, page, contents)))
    case Retire(page, count) =>
      && InPhase(s, Editing) && count > 0
      && MayRetire(s.writer.value, page, count)
      && s' == s.(writer := Some(Retired(s.writer.value, page, count)))
    case Seal(page, contents, root) =>
      && InPhase(s, Editing) && |contents| > 0
      && var w := s.writer.value;
         var w1 := Retired(w, w.base.meta.freelistPage, StoredCount(w.base));
         var w2 := Allocated(w1, page, contents);
         && Places(w1.fl, w1.numPages, page, |contents|)
         && contents[0].Records? && Lists(w2.fl, contents[0].entries) && contents[0].count == |contents|
         && Closed(HeldCells(w2), root) && Whole(HeldCells(w2), root, page, |contents|)
         && s' == s.(writer := Some(w2.(phase := Writing(Sealed(w2, page, root), {}))))
    case WriteCell(p) =>
      && s.writer.Some? && s.writer.value.phase.Writing? && p in s.writer.value.dirty
      && var w := s.writer.value;
         s' == s.(data := Write(s.data, p, w.dirty[p]),
                  writer := Some(w.(phase := Writing(w.phase.next, w.phase.written + {p}))))
    case SyncData =>
      && s.writer.Some? && s.writer.value.phase.Writing?
      && s.writer.value.phase.written == s.writer.value.dirty.Keys
      && s' == s.(data := Sync(s.data), metas := SyncMetas(s.metas),
                  writer := Some(s.writer.value.(phase := Flushed(s.writer.value.phase.next))))
    case Publish =>
      && s.writer.Some? && s.writer.value.phase.Flushed?
      && var next := s.writer.value.phase.next;
         s' == s.(metas := Disk.WriteMeta(s.metas, next.meta), history := s.history[next.meta.tx := next],
                  writer := Some(s.writer.value.(phase := Published(next))))
    case SyncMeta =>
      && s.writer.Some? && s.writer.value.phase.Published?
      && s' == s.(data := Sync(s.data), metas := SyncMetas(s.metas), writer := None)
    case Abort =>
      s.writer.Some? && s' == s.(writer := None)
    case PowerLoss =>
      && Loss(s.data, s'.data) && MetaLoss(s.metas, s'.metas)
      && s'.readers == map[] && s'.writer == None
      && (match Select(s'.metas.cache)
          case Some(m) => s'.history == map t | t in s.history && t <= m.tx :: s.history[t]
          case None => s'.history == map[])
  }

  ghost predicate InPhase(s: State, phase: Phase) {
    s.writer.Some? && s.writer.value.phase == phase
  }

  /** What a tree may retire: pages it holds, once, and never the freelist block. */
  ghost predicate MayRetire(w: Writer, page: PageId, n: nat) {
    Block(page, n) <= Held(w) && Block(page, n) !! Block(w.base.meta.freelistPage, StoredCount(w.base))
  }

  /** The writer's freelist: the stored records read back, old generations released. */
  ghost predicate Begins(s: State, m: Meta, bound: TxId, fl: FreeState) {
    match At(s.data.cache, m.freelistPage)
    case Good(Records(entries, _)) => Released(Loaded(entries), bound, fl)
    case _ => false
  }

  // ---------- reachable blocks ----------

  /** Parents first, the nodes of a tree: each but the root is linked by exactly one earlier
      node, and every link leads to one of them. */
  ghost predicate TreeOrder(cells: map<PageId, Content>, root: PageId, order: seq<PageId>) {
    && |order| > 0 && order[0] == root && Distinct(order)
    && (forall i :: 0 <= i < |order| ==> order[i] in cells && cells[order[i]].Node?)
    && (forall i :: 0 < i < |order| ==> exists j :: 0 <= j < i && Links(cells, order[j], order[i]))
    && (forall i, p :: 0 <= i < |order| && Links(cells, order[i], p) ==> p in order && p != root)
    && (forall i, j, p :: 0 <= i < j < |order| && Links(cells, order[i], p) ==> !Links(cells, order[j], p))
  }

  ghost predicate Links(cells: map<PageId, Content>, from: PageId, to: PageId) {
    from in cells && cells[from].Node? && to in cells[from].links
  }

  function BlockOf(cells: map<PageId, Content>, p: PageId): set<PageId> {
    if p in cells && cells[p].Node? then Block(p, cells[p].count) else {}
  }

  /** The blocks of the ordered nodes and the freelist block are disjoint, and together they
      are all the cells: nothing is shared and nothing leaks. */
  ghost predicate Partition(cells: map<PageId, Content>, order: seq<PageId>, page: PageId, count: nat) {
    && (forall i :: 0 <= i < |order| ==> order[i] in BlockOf(cells, order[i]) && BlockOf(cells, order[i]) <= cells.Keys)
    && (forall i, j :: 0 <= i < j < |order| ==> BlockOf(cells, order[i]) !! BlockOf(cells, order[j]))
    && (forall i :: 0 <= i < |order| ==> BlockOf(cells, order[i]) !! Block(page, count))
    && (forall p :: p in cells ==> p in Block(page, count)
                                   || exists i :: 0 <= i < |order| && p in BlockOf(cells, order[i]))
  }

  /** The pages are exactly the blocks reachable from the root, as an unshared tree, and the
      freelist block. */
  ghost predicate Whole(cells: map<PageId, Content>, root: PageId, page: PageId, count: nat) {
    exists order :: TreeOrder(cells, root, order) && Partition(cells, order, page, count)
  }

  // ---------- invariant ----------

  ghost predicate Distinct(s: seq<PageId>) {
    forall i, j :: 0 <= i < j < |s| ==> s[i] != s[j]
  }

  /** Ids 2 .. numPages are the disjoint union of free, pending and held pages, and no
      page is listed twice. */
  ghost predicate Ledger(fl: FreeState, numPages: nat, held: set<PageId>, tx: TxId) {
    && (forall p: PageId :: 2 <= p < numPages <==> p in fl.free || p in held || exists t: TxId :: InPending(fl, t, p))
    && (forall p :: p in fl.free ==> p !in held)
    && (forall t: TxId, p: PageId :: InPending(fl, t, p) ==> p !in fl.free && p !in held)
    && (forall t: TxId, u: TxId, p: PageId :: InPending(fl, t, p) && InPending(fl, u, p) ==> t == u)
    && (forall t :: t in fl.pending ==> 0 < t <= tx && fl.pending[t] != [] && Distinct(fl.pending[t]))
  }

  /** Every page of a snapshot is still held or pending under a later transaction. */
  ghost predicate Protected(pages: set<PageId>, tx: TxId, fl: FreeState, held: set<PageId>) {
    forall p :: p in pages ==> p in held || exists t: TxId :: tx < t && InPending(fl, t, p)
  }

  ghost predicate SnapshotOk(sn: Snapshot) {
    && Closed(sn.cells, sn.meta.root)
    && sn.meta.freelistPage in sn.cells && sn.cells[sn.meta.freelistPage].Records?
    && StoredCount(sn) > 0 && Block(sn.meta.freelistPage, StoredCount(sn)) <= sn.cells.Keys
    && sn.meta.slot <= 1
    && Ledger(Loaded(Stored(sn)), sn.meta.numPages, sn.cells.Keys, sn.meta.tx)
  }

  /** Snapshots somebody may still read: registered readers, the current one and, while it is
      kept, the one a power loss would restore. */
  ghost predicate Live(s: State, fallback: Meta, current: Meta, kept: bool, t: TxId) {
    (kept && t == fallback.tx) || t == current.tx || t in s.readers.Values
  }

  ghost predicate HistoryOk(s: State, fallback: Meta, current: Meta) {
    && current.tx in s.history && s.history[current.tx].meta == current
    && fallback.tx in s.history && s.history[fallback.tx].meta == fallback
    && fallback.tx <= current.tx
    && (forall t :: t in s.history ==> t <= current.tx && s.history[t].meta.tx == t && SnapshotOk(s.history[t]))
    && (forall id :: id in s.readers ==> s.readers[id] in s.history)
  }

  ghost predicate DataOk(s: State, fallback: Meta, current: Meta, kept: bool)
    requires HistoryOk(s, fallback, current)
  {
    && (forall t :: t in s.history && Live(s, fallback, current, kept, t) ==> Visible(s.data, s.history[t].cells))
    && (kept ==> Solid(s.data, s.history[fallback.tx].cells))
    && Solid(s.data, s.history[current.tx].cells)
  }

  /** Every live snapshot is protected by the given freelist and held pages. */
  ghost predicate AllProtected(s: State, fallback: Meta, current: Meta, kept: bool, fl: FreeState, held: set<PageId>) {
    forall t :: t in s.history && Live(s, fallback, current, kept, t) ==>
                Protected(s.history[t].cells.Keys, t, fl, held)
  }

  ghost predicate DirtyApart(s: State, fallback: Meta, current: Meta, kept: bool, dirty: set<PageId>) {
    forall t :: t in s.history && Live(s, fallback, current, kept, t) ==> dirty !! s.history[t].cells.Keys
  }

  ghost predicate EditingOk(s: State, fallback: Meta, current: Meta, kept: bool, w: Writer) {
    && current.tx in s.history && w.base == s.history[current.tx]
    && Ledger(w.fl, w.numPages, Held(w), current.tx + 1)
    && AllProtected(s, fallback, current, kept, w.fl, Held(w))
    && DirtyApart(s, fallback, current, kept, w.dirty.Keys)
    && w.dirty.Keys !! w.base.cells.Keys
    && (forall p :: p in w.freed ==> InPending(w.fl, current.tx + 1, p))
    && w.freed !! Block(current.freelistPage, StoredCount(w.base))
  }

  ghost predicate NextOk(s: State, fallback: Meta, current: Meta, kept: bool, w: Writer, next: Snapshot) {
    && current.tx in s.history && w.base == s.history[current.tx]
    && SnapshotOk(next)
    && next.meta.tx == current.tx + 1 && next.meta.slot == 1 - current.slot
    && AllProtected(s, fallback, current, kept, Loaded(Stored(next)), next.cells.Keys)
    && DirtyApart(s, fallback, current, kept, w.dirty.Keys)
    && InPending(Loaded(Stored(next)), next.meta.tx, current.freelistPage)
    && (forall p :: p in next.cells ==>
                      if p in w.dirty then next.cells[p] == w.dirty[p]
                      else p in w.base.cells && next.cells[p] == w.base.cells[p])
  }

  ghost predicate WriterOk(s: State, fallback: Meta, current: Meta, kept: bool)
    requires HistoryOk(s, fallback, current)
  {
    s.writer.Some? ==>
      var w := s.writer.value;
      match w.phase
      case Editing => EditingOk(s, fallback, current, kept, w)
      case Writing(next, written) =>
        && NextOk(s, fallback, current, kept, w, next)
        && written <= w.dirty.Keys
        && forall p :: p in written ==> At(s.data.cache, p) == Good(w.dirty[p])
      case Flushed(next) =>
        && NextOk(s, fallback, current, kept, w, next)
        && fallback == current && s.metas.unsynced == {}
        && Visible(s.data, next.cells) && Solid(s.data, next.cells)
      case Published(next) => next.meta == current
  }

  ghost predicate Consistent(s: State, fallback: Meta, current: Meta, kept: bool) {
    && MetasOk(s.metas, fallback, current)
    && HistoryOk(s, fallback, current)
    && DataOk(s, fallback, current, kept)
    && AllProtected(s, fallback, current, kept, Loaded(Stored(s.history[current.tx])), s.history[current.tx].cells.Keys)
    && (s.metas.unsynced != {} ==> InPending(Loaded(Stored(s.history[current.tx])), current.tx, fallback.freelistPage))
    && WriterOk(s, fallback, current, kept)
  }

  /** Nothing leaks and nothing is shared, and the freelist lists no page twice. */
  ghost predicate WholeSnapshot(sn: Snapshot) {
    Whole(sn.cells, sn.meta.root, sn.meta.freelistPage, StoredCount(sn)) && Lists(Loaded(Stored(sn)), Stored(sn))
  }

  /** Every committed snapshot, and the one being written, is whole. */
  ghost predicate AllWhole(s: State) {
    && (forall t :: t in s.history ==> WholeSnapshot(s.history[t]))
    && (s.writer.Some? && (s.writer.value.phase.Writing? || s.writer.value.phase.Flushed?) ==>
          WholeSnapshot(s.writer.value.phase.next))
  }

  ghost predicate Inv(s: State) {
    AllWhole(s) && exists fallback, current, kept :: Consistent(s, fallback, current, kept)
  }

  /** The snapshot a power loss would restore is intact: nothing of it was written since. */
  ghost predicate Recoverable(s: State) {
    match Select(s.metas.durable)
    case Some(m) => m.tx in s.history && Solid(s.data, s.history[m.tx].cells)
    case None => false
  }

  /** A writer may begin when the metadata is synced or a reader is registered. */
  ghost predicate Guarded(s: State, step: Step) {
    step.Begin? ==> s.metas.unsynced == {} || s.readers != map[]
  }
}
