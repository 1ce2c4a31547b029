/** The file under the store: pages whose last writes may not have been synced, and
    two metadata pages.  After a power loss each unsynced page holds its old content,
    any version written since the last sync, or a torn block that fails its checksum. */
module Disk {
  import opened Wrappers
  import opened Freelist

  /** What a page holds: the first page of a node's block with the nodes it points to, the
      first page of the freelist block, or a continuation page of either. */
  datatype Content =
    | Node(links: set<PageId>, count: nat, payload: int)
    | Records(entries: seq<RetiredPage>, count: nat)
    | Tail(payload: int)

  datatype Cell = Torn | Good(content: Content)

  datatype Data = Data(durable: map<PageId, Cell>, cache: map<PageId, Cell>, unsynced: map<PageId, set<Content>>)

  function At(m: map<PageId, Cell>, p: PageId): Cell {
    if p in m then m[p] else Torn
  }

  function Write(d: Data, p: PageId, c: Content): Data {
    Data(d.durable, d.cache[p := Good(c)],
         d.unsynced[p := (if p in d.unsynced then d.unsynced[p] else {}) + {c}])
  }

  function Sync(d: Data): Data {
    Data(d.cache, d.cache, map[])
  }

  ghost predicate Loss(d: Data, d': Data) {
    && d'.cache == d'.durable && d'.unsynced == map[]
    && forall p :: || At(d'.durable, p) == At(d.durable, p)
                   || (p in d.unsynced && At(d'.durable, p) == Torn)
                   || (p in d.unsynced && At(d'.durable, p).Good? && At(d'.durable, p).content in d.unsynced[p])
  }

  /** Every process reads these contents. */
  ghost predicate Visible(d: Data, cells: map<PageId, Content>) {
    forall p :: p in cells ==> At(d.cache, p) == Good(cells[p])
  }

  /** These contents survive every power loss. */
  ghost predicate Solid(d: Data, cells: map<PageId, Content>) {
    forall p :: p in cells ==> p !in d.unsynced && At(d.durable, p) == Good(cells[p])
  }

  // ---------- metadata ----------

  datatype Meta = Meta(tx: TxId, slot: nat, numPages: nat, root: PageId, freelistPage: PageId)

  datatype MetaCell = TornMeta | GoodMeta(meta: Meta)

  datatype Slots = Slots(zero: MetaCell, one: MetaCell)

  function Get(s: Slots, slot: nat): MetaCell {
    if slot == 0 then s.zero else s.one
  }

  function Put(s: Slots, slot: nat, m: MetaCell): Slots {
    if slot == 0 then s.(zero := m) else s.(one := m)
  }

  /** `DBInner::meta`: of two valid pages the later transaction, the second on a tie. */
  function Select(s: Slots): Option<Meta> {
    match (s.zero, s.one)
    case (GoodMeta(a), GoodMeta(b)) => if a.tx > b.tx then Some(a) else Some(b)
    case (GoodMeta(a), TornMeta) => Some(a)
    case (TornMeta, GoodMeta(b)) => Some(b)
    case (TornMeta, TornMeta) => None
  }

  datatype Metas = Metas(durable: Slots, cache: Slots, unsynced: set<Meta>)

  function WriteMeta(m: Metas, meta: Meta): Metas {
    Metas(m.durable, Put(m.cache, meta.slot, GoodMeta(meta)), m.unsynced + {meta})
  }

  function SyncMetas(m: Metas): Metas {
    Metas(m.cache, m.cache, {})
  }

  ghost predicate SlotLoss(m: Metas, slot: nat, c: MetaCell) {
    || c == Get(m.durable, slot)
    || (c == TornMeta && exists v :: v in m.unsynced && v.slot == slot)
    || (c.GoodMeta? && c.meta in m.unsynced && c.meta.slot == slot)
  }

  ghost predicate MetaLoss(m: Metas, m': Metas) {
    && m'.cache == m'.durable && m'.unsynced == {}
    && SlotLoss(m, 0, m'.durable.zero) && SlotLoss(m, 1, m'.durable.one)
  }

  ghost predicate SlotsOk(s: Slots) {
    (s.zero.GoodMeta? ==> s.zero.meta.slot == 0) && (s.one.GoodMeta? ==> s.one.meta.slot == 1)
  }

  /** The metadata a power loss would fall back to, and the metadata now visible. */
  ghost predicate MetasOk(m: Metas, fallback: Meta, current: Meta) {
    && SlotsOk(m.durable) && SlotsOk(m.cache)
    && Select(m.durable) == Some(fallback) && Select(m.cache) == Some(current)
    && m.unsynced <= {current}
    && (m.unsynced == {} ==> m.cache == m.durable)
    && (m.unsynced != {} ==> && current.tx == fallback.tx + 1 && current.slot != fallback.slot
                             && Get(m.cache, fallback.slot) == Get(m.durable, fallback.slot))
  }

  lemma SelectedIsStored(s: Slots, m: Meta)
    requires SlotsOk(s) && Select(s) == Some(m)
    ensures m.slot <= 1 && Get(s, m.slot) == GoodMeta(m)
  {
  }

  /** Publishing to the other slot with the next transaction id makes the new metadata
      current and leaves the fallback in place. */
  lemma PublishKeepsFallback(m: Metas, current: Meta, next: Meta)
    requires MetasOk(m, current, current) && m.unsynced == {}
    requires next.slot == 1 - current.slot && next.tx == current.tx + 1
    ensures MetasOk(WriteMeta(m, next), current, next)
  {
  }

  lemma SyncMakesDurable(m: Metas, fallback: Meta, current: Meta)
    requires MetasOk(m, fallback, current)
    ensures MetasOk(SyncMetas(m), current, current)
  {
  }

  /** Whatever survives of the two metadata pages, selection yields the fallback or the
      current metadata. */
  lemma LossSelectsOneOfTwo(m: Metas, fallback: Meta, current: Meta, m': Metas)
    requires MetasOk(m, fallback, current) && MetaLoss(m, m')
    ensures MetasOk(m', fallback, fallback) || MetasOk(m', current, current)
  {
    SelectedIsStored(m.durable, fallback);
    SelectedIsStored(m.cache, current);
    if m.unsynced == {} {
      assert m'.durable == m.durable;
    } else {
      assert m.unsynced == {current};
      assert Get(m'.durable, fallback.slot) == GoodMeta(fallback);
    }
  }

  // ---------- data pages ----------

  lemma WriteElsewhere(d: Data, p: PageId, c: Content, cells: map<PageId, Content>)
    requires p !in cells
    ensures Visible(d, cells) ==> Visible(Write(d, p, c), cells)
    ensures Solid(d, cells) ==> Solid(Write(d, p, c), cells)
  {
  }

  lemma LossKeepsSolid(d: Data, d': Data, cells: map<PageId, Content>)
    requires Loss(d, d') && Solid(d, cells)
    ensures Solid(d', cells) && Visible(d', cells)
  {
    forall p | p in cells ensures At(d'.durable, p) == Good(cells[p]) {
      assert p !in d.unsynced;
      assert At(d'.durable, p) == At(d.durable, p);
    }
  }

  // ---------- what a reader follows ----------

  /** A path of tree pointers read from the file. */
  ghost predicate Walk(view: map<PageId, Cell>, root: PageId, path: seq<PageId>) {
    && |path| > 0 && path[0] == root
    && forall i :: 0 <= i < |path| - 1 ==> Follows(view, path[i], path[i + 1])
  }

  ghost predicate Follows(view: map<PageId, Cell>, from: PageId, to: PageId) {
    match At(view, from)
    case Good(Node(links, _, _)) => to in links
    case _ => false
  }

  ghost predicate Closed(cells: map<PageId, Content>, root: PageId) {
    && root in cells && cells[root].Node?
    && forall p, q :: p in cells && cells[p].Node? && q in cells[p].links ==> q in cells && cells[q].Node?
  }

  /** Following pointers on an intact file never leaves the snapshot and never meets a
      page the snapshot did not write. */
  lemma {:induction false} WalkStaysInside(view: map<PageId, Cell>, cells: map<PageId, Content>, root: PageId,
                                           path: seq<PageId>)
    requires Closed(cells, root) && Walk(view, root, path)
    requires forall p :: p in cells ==> At(view, p) == Good(cells[p])
    ensures path[|path| - 1] in cells && cells[path[|path| - 1]].Node?
    ensures At(view, path[|path| - 1]) == Good(cells[path[|path| - 1]])
  {
    if |path| > 1 {
      var front := path[..|path| - 1];
      assert forall i :: 0 <= i < |front| - 1 ==> Follows(view, path[i], path[i + 1]);
      WalkStaysInside(view, cells, root, front);
      assert Follows(view, path[|path| - 2], path[|path| - 1]);
    }
  }
}
