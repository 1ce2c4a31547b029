/** Why a writer must not begin unguarded: some way to go on from there overwrites the snapshot
    a power loss would restore, and from a guarded beginning none does. */
module Reuse {
  import opened Wrappers
  import opened Freelist
  import opened Disk
  import opened Lifecycle
  import opened LedgerProof
  import opened Safety

  /** Steps from s in which no other writer begins. */
  ghost predicate Continues(s: State, states: seq<State>, steps: seq<Step>) {
    && |states| == |steps| + 1 && states[0] == s
    && forall i :: 0 <= i < |steps| ==> !steps[i].Begin? && Next(states[i], steps[i], states[i + 1])
  }

  ghost predicate Reaches(s: State, s': State) {
    exists states, steps :: Continues(s, states, steps) && states[|steps|] == s'
  }

  lemma ReachesSelf(s: State)
    ensures Reaches(s, s)
  {
    assert Continues(s, [s], []);
  }

  lemma ReachesNext(s: State, a: State, step: Step, b: State)
    requires Reaches(s, a) && !step.Begin? && Next(a, step, b)
    ensures Reaches(s, b)
  {
    hide Next;
    var states, steps :| Continues(s, states, steps) && states[|steps|] == a;
    assert Continues(s, states + [b], steps + [step]);
  }

  // ---------- guarded ----------

  lemma {:induction false} StaysRecoverable(s: State, states: seq<State>, steps: seq<Step>, n: nat, f: Meta, c: Meta)
    requires Consistent(s, f, c, true) && Continues(s, states, steps) && n <= |steps|
    ensures exists f', c' :: Consistent(states[n], f', c', true)
    ensures Recoverable(states[n])
  {
    hide Next, Consistent, Recoverable;
    if n > 0 {
      StaysRecoverable(s, states, steps, n - 1, f, c);
      var f', c' :| Consistent(states[n - 1], f', c', true);
      StepKeeps(states[n - 1], steps[n - 1], states[n], f', c', true);
    }
    var f', c' :| Consistent(states[n], f', c', true);
    KeptRecoverable(states[n], f', c');
  }

  // ---------- unguarded: a transaction that deletes everything ----------

  const LEAF: Content := Node({}, 1, 0)

  ghost function List(w: Writer): set<PageId> {
    Block(w.base.meta.freelistPage, StoredCount(w.base))
  }

  /** Free pages are unused, and everything lies inside the file. */
  ghost predicate Apart(w: Writer) {
    && (forall q :: q in w.fl.free ==> q !in w.base.cells && q !in w.dirty && q !in w.freed && 1 < q < w.numPages)
    && (forall q :: q in w.base.cells || q in w.dirty || q in w.freed ==> q < w.numPages)
    && w.dirty.Keys !! w.base.cells.Keys && List(w) <= w.base.cells.Keys && List(w) !! w.freed
    && w.phase == Editing && 0 !in w.fl.pending
  }

  lemma LeastPlaced(fl: FreeState, numPages: nat)
    requires fl.free != {}
    ensures Places(fl, numPages, Least(fl.free), 1)
  {
    var m := Least(fl.free);
    assert RunAt(fl.free, m, 1);
    forall q | RunAt(fl.free, q, 1) ensures m <= q {
      assert q in Block(q, 1);
    }
  }

  lemma OneCell(page: PageId, c: Content)
    ensures Cells(page, [c]) == map[page := c] && Block(page, 1) == {page}
  {
    assert Cells(page, [c]).Keys == {page};
    assert Cells(page, [c])[page + 0] == c;
  }

  lemma AllocatesOne(s: State, w: Writer)
    requires Apart(w) && w.fl.free != {} && w.freed == {} && s.writer == Some(w)
    ensures var m, w1 := Least(w.fl.free), Allocated(w, Least(w.fl.free), [LEAF]);
            && Next(s, Alloc(m, [LEAF]), s.(writer := Some(w1))) && Apart(w1) && w1.freed == {} && w1.base == w.base
            && w1.fl.free == w.fl.free - {m} && w1.dirty == w.dirty[m := LEAF]
  {
    hide Least, Places, Block, Cells;
    LeastPlaced(w.fl, w.numPages);
    OneCell(Least(w.fl.free), LEAF);
  }

  /** The pages below p are allocated first, then p. */
  lemma {:induction false} AllocatesUpTo(s: State, w: Writer, p: PageId) returns (w': Writer)
    requires Apart(w) && p in w.fl.free && w.freed == {} && s.writer == Some(w)
    ensures Reaches(s, s.(writer := Some(w'))) && Apart(w') && w'.freed == {} && w'.base == w.base
    ensures p in w'.dirty && w'.dirty[p] == LEAF
    decreases |w.fl.free|
  {
    hide Reaches, Least, Next, Apart, Allocated;
    var m := Least(w.fl.free);
    var w1 := Allocated(w, m, [LEAF]);
    var s1 := s.(writer := Some(w1));
    AllocatesOne(s, w);
    ReachesSelf(s);
    ReachesNext(s, s, Alloc(m, [LEAF]), s1);
    if m == p {
      w' := w1;
    } else {
      w' := AllocatesUpTo(s1, w1, p);
      ReachesOn(s, s1, s1.(writer := Some(w')));
    }
  }

  lemma ReachesOn(s: State, a: State, b: State)
    requires Reaches(s, a) && Reaches(a, b)
    ensures Reaches(s, b)
  {
    hide Next;
    var states, steps :| Continues(s, states, steps) && states[|steps|] == a;
    var more, onward :| Continues(a, more, onward) && more[|onward|] == b;
    var all: seq<State>, long: seq<Step> := states + more[1..], steps + onward;
    forall i | 0 <= i < |long| ensures !long[i].Begin? && Next(all[i], long[i], all[i + 1]) {
      if i >= |steps| {
        assert all[i] == more[i - |steps|] && all[i + 1] == more[i + 1 - |steps|];
      }
    }
    assert Continues(s, all, long);
  }

  lemma ListHeld(w: Writer)
    requires Apart(w)
    ensures List(w) <= Held(w)
  {
  }

  lemma RetiresOne(s: State, w: Writer, q: PageId)
    requires Apart(w) && q in Held(w) - List(w) && s.writer == Some(w)
    ensures var w1 := Retired(w, q, 1);
            && Next(s, Retire(q, 1), s.(writer := Some(w1))) && Apart(w1) && Held(w1) == Held(w) - {q}
            && w1.base == w.base && w1.dirty == w.dirty && w1.freed == w.freed + {q}
  {
    hide Block, FreedBlock;
    OneCell(q, LEAF);
    FreedBlockContents(w.fl, w.base.meta.tx + 1, q, 1);
    FreedHasNoZero(w.fl, w.base.meta.tx + 1, q, 1);
  }

  /** Every page but p and the freelist block is retired. */
  lemma {:induction false} RetiresAllBut(s: State, w: Writer, p: PageId) returns (w': Writer)
    requires Apart(w) && p in w.dirty && p !in w.freed && s.writer == Some(w)
    ensures Reaches(s, s.(writer := Some(w'))) && Apart(w') && w'.base == w.base && w'.dirty == w.dirty
    ensures Held(w') == List(w') + {p}
    decreases |Held(w) - List(w) - {p}|
  {
    hide Reaches, Apart, Retired, Next, MayRetire;
    ReachesSelf(s);
    if q :| q in Held(w) - List(w) - {p} {
      var w1 := Retired(w, q, 1);
      var s1 := s.(writer := Some(w1));
      RetiresOne(s, w, q);
      ReachesNext(s, s, Retire(q, 1), s1);
      assert Held(w1) - List(w1) - {p} == Held(w) - List(w) - {p} - {q};
      w' := RetiresAllBut(s1, w1, p);
      ReachesOn(s, s1, s1.(writer := Some(w')));
    } else {
      w' := w;
      ListHeld(w);
      assert Held(w) - List(w) - {p} == {};
    }
  }

  /** The file of a bucket with one empty leaf. */
  lemma TwoPages(cells: map<PageId, Content>, p: PageId, page: PageId, es: seq<RetiredPage>)
    requires p != page && cells == map[p := LEAF, page := Records(es, 1)]
    ensures Closed(cells, p) && Whole(cells, p, page, 1)
  {
    hide TreeOrder, Partition, Block;
    OneNode(cells, p);
    TwoBlocks(cells, p, page);
  }

  lemma OneNode(cells: map<PageId, Content>, p: PageId)
    requires p in cells && cells[p] == LEAF
    ensures TreeOrder(cells, p, [p])
  {
    assert [p][0] == p;
    assert forall i, q :: 0 <= i < |[p]| ==> !Links(cells, [p][i], q);
  }

  lemma TwoBlocks(cells: map<PageId, Content>, p: PageId, page: PageId)
    requires p != page && cells.Keys == {p, page} && cells[p] == LEAF
    ensures Partition(cells, [p], page, 1)
  {
    hide Block;
    OneCell(p, LEAF);
    OneCell(page, LEAF);
    assert BlockOf(cells, [p][0]) == {p};
  }

  /** Sealing with p alone left and the freelist in one page. */
  lemma Seals(s: State, w: Writer, p: PageId) returns (w': Writer)
    requires Apart(w) && Held(w) == List(w) + {p} && p in w.dirty && w.dirty[p] == LEAF && s.writer == Some(w)
    requires p !in List(w)
    ensures Reaches(s, s.(writer := Some(w'))) && p in w'.dirty && w'.phase.Writing? && w'.phase.written == {}
  {
    hide Reaches, Least, Places, Closed, Whole, Block, FreedBlock, Lists, Apart, Held, HeldCells, List, EntriesOf;
    hide Cells;
    var w1 := Retired(w, w.base.meta.freelistPage, StoredCount(w.base));
    FreedBlockContents(w.fl, w.base.meta.tx + 1, w.base.meta.freelistPage, StoredCount(w.base));
    var page := NextPage(w1.fl, w1.numPages);
    var fl := w1.fl.(free := w1.fl.free - Block(page, 1));
    NoZero(w);
    EntriesOfLists(fl);
    var contents := [Records(EntriesOf(fl), 1)];
    var w2 := Allocated(w1, page, contents);
    LastPages(w, p, page, contents[0]);
    TwoPages(HeldCells(w2), p, page, EntriesOf(fl));
    w' := w2.(phase := Writing(Sealed(w2, page, p), {}));
    assert Next(s, Seal(page, contents, p), s.(writer := Some(w')));
    ReachesSelf(s);
    ReachesNext(s, s, Seal(page, contents, p), s.(writer := Some(w')));
  }

  lemma LastPages(w: Writer, p: PageId, page: PageId, c: Content)
    requires Apart(w) && Held(w) == List(w) + {p} && p in w.dirty && w.dirty[p] == LEAF && p !in List(w)
    requires page == w.numPages || page in w.fl.free
    ensures var w2 := Allocated(Retired(w, w.base.meta.freelistPage, StoredCount(w.base)), page, [c]);
            p != page && p in w2.dirty && HeldCells(w2) == map[p := LEAF, page := c]
  {
    hide Block, FreedBlock, Cells;
    OneCell(page, c);
    var w1 := Retired(w, w.base.meta.freelistPage, StoredCount(w.base));
    assert w1.freed == w.freed + List(w);
    var w2 := Allocated(w1, page, [c]);
    assert w2.dirty == w.dirty + map[page := c];
    assert Held(w2) == {p, page};
  }

  /** With p alone left the transaction is sealed, and p may be written. */
  lemma SealsAndWrites(s: State, w: Writer, p: PageId) returns (s': State)
    requires Apart(w) && Held(w) == List(w) + {p} && p in w.dirty && w.dirty[p] == LEAF && s.writer == Some(w)
    requires p !in List(w)
    ensures Reaches(s, s') && p in s'.data.unsynced && s'.metas == s.metas && s'.history == s.history
  {
    hide Reaches, Apart, Held, List;
    var w' := Seals(s, w, p);
    var s1 := s.(writer := Some(w'));
    s' := s1.(data := Write(s1.data, p, w'.dirty[p]),
              writer := Some(w'.(phase := Writing(w'.phase.next, w'.phase.written + {p}))));
    assert Next(s1, WriteCell(p), s');
    ReachesNext(s, s1, WriteCell(p), s');
  }

  lemma NextPage(fl: FreeState, numPages: nat) returns (page: PageId)
    ensures Places(fl, numPages, page, 1) && (page == numPages || page in fl.free)
  {
    if fl.free == {} {
      page := numPages;
      forall q ensures !RunAt(fl.free, q, 1) {
        assert q in Block(q, 1);
      }
    } else {
      LeastPlaced(fl, numPages);
      page := Least(fl.free);
    }
  }

  lemma {:induction false} FreedHasNoZero(fl: FreeState, tx: TxId, p: PageId, n: nat)
    requires 0 !in fl.pending && tx > 0
    ensures 0 !in FreedBlock(fl, tx, p, n).pending
  {
    if n > 0 {
      FreedHasNoZero(fl, tx, p, n - 1);
    }
  }

  lemma NoZero(w: Writer)
    requires Apart(w)
    ensures 0 !in Retired(w, w.base.meta.freelistPage, StoredCount(w.base)).fl.pending && w.phase == Editing
  {
    FreedHasNoZero(w.fl, w.base.meta.tx + 1, w.base.meta.freelistPage, StoredCount(w.base));
  }

  lemma ApartAtFirst(w: Writer, tx: TxId)
    requires Ledger(w.fl, w.numPages, Held(w), tx) && w.dirty == map[] && w.freed == {} && w.phase == Editing
    requires List(w) <= w.base.cells.Keys
    ensures Apart(w)
  {
    assert Held(w) == w.base.cells.Keys;
  }

  lemma BegunApart(s: State, s1: State, f: Meta, c: Meta)
    requires Consistent(s, f, c, false) && Next(s, Begin, s1)
    ensures s1.writer.Some? && s1 == s.(writer := s1.writer)
    ensures Apart(s1.writer.value) && s1.writer.value.freed == {}
  {
    hide MetasOk, DataOk, AllProtected, Closed, Released, Loaded, Whole, Ledger, Apart, Block, Protected, Begins, Held;
    hide ReleaseBound, DirtyApart;
    BeginStep(s, s1, f, c, false);
    var w := s1.writer.value;
    assert EditingOk(s1, f, c, false, w);
    assert SnapshotOk(s1.history[c.tx]);
    ApartAtFirst(w, c.tx + 1);
  }

  lemma Overwrites(s: State, s1: State, f: Meta, c: Meta) returns (s': State)
    requires Consistent(s, f, c, true) && Next(s, Begin, s1) && !Guarded(s, Begin)
    ensures Reaches(s1, s') && !Recoverable(s')
  {
    hide Next, Guarded, Consistent, Reaches, Apart, Held;
    FallbackReleased(s, s1, f, c);
    Forget(s, f, c, true);
    BegunApart(s, s1, f, c);
    FallbackIs(s, f, c);
    var p, w := f.freelistPage, s1.writer.value;
    var w1 := AllocatesUpTo(s1, w, p);
    var s2 := s1.(writer := Some(w1));
    var w2 := RetiresAllBut(s2, w1, p);
    var s3 := s2.(writer := Some(w2));
    ReachesOn(s1, s2, s3);
    NotListed(w2, p);
    s' := SealsAndWrites(s3, w2, p);
    ReachesOn(s1, s3, s');
  }

  lemma NotListed(w: Writer, p: PageId)
    requires Apart(w) && p in w.dirty
    ensures p !in List(w)
  {
  }

  lemma FallbackIs(s: State, f: Meta, c: Meta)
    requires Consistent(s, f, c, false)
    ensures Select(s.metas.durable) == Some(f)
  {
    hide Ledger, SnapshotOk, MetasOk, Protected;
    SelectedMetas(s.metas, f, c);
  }

  /** The guard is exact: after a guarded run a writer that begins can go on, before any other
      begins, to a state some power loss does not survive, if and only if it is unguarded. */
  lemma GuardExactly(states: seq<State>, steps: seq<Step>, s1: State)
    requires GuardedRun(states, steps) && Next(states[|steps|], Begin, s1)
    ensures (exists s' :: Reaches(s1, s') && !Recoverable(s')) <==> !Guarded(states[|steps|], Begin)
  {
    hide Next, Guarded, Consistent, Recoverable;
    var s := states[|steps|];
    GuardedKeeps(states, steps, |steps|);
    var f, c :| Consistent(s, f, c, true);
    if Guarded(s, Begin) {
      BeginStep(s, s1, f, c, true);
      forall s' | Reaches(s1, s') ensures Recoverable(s') {
        var later, on :| Continues(s1, later, on) && later[|on|] == s';
        StaysRecoverable(s1, later, on, |on|, f, c);
      }
    } else {
      var s' := Overwrites(s, s1, f, c);
    }
  }
}
