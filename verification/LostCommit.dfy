/** A run that the guard of `Safety` excludes: a writer dies after writing its metadata
    and before syncing it, the next writer reuses a page of the last durable snapshot,
    and a power loss then restores that snapshot with the page overwritten. */
module LostCommit {
  import opened Wrappers
  import opened Freelist
  import opened Disk
  import opened Lifecycle
  import opened Safety

  const PAGE3: Content := Node({}, 1, 0)
  const EMPTY_LIST := Records([], 1)
  const FIRST_LIST := Records([RetiredPage(2, 1)], 1)
  const SECOND_LIST := Records([RetiredPage(4, 2)], 1)
  const META_ZERO := Meta(0, 0, 4, 3, 2)
  const META_ONE := Meta(0, 1, 4, 3, 2)
  const META_NEW := Meta(1, 0, 5, 3, 4)
  const SNAP_OLD := Snapshot(META_ONE, map[2 := EMPTY_LIST, 3 := PAGE3])
  const SNAP_NEW := Snapshot(META_NEW, map[3 := PAGE3, 4 := FIRST_LIST])
  const SLOTS_OLD := Slots(GoodMeta(META_ZERO), GoodMeta(META_ONE))
  const SLOTS_NEW := Slots(GoodMeta(META_NEW), GoodMeta(META_ONE))
  const DISK_OLD: map<PageId, Cell> := map[2 := Good(EMPTY_LIST), 3 := Good(PAGE3)]
  const DISK_NEW: map<PageId, Cell> := map[2 := Good(EMPTY_LIST), 3 := Good(PAGE3), 4 := Good(FIRST_LIST)]
  const DISK_BAD: map<PageId, Cell> := map[2 := Good(SECOND_LIST), 3 := Good(PAGE3), 4 := Good(FIRST_LIST)]

  const FL1 := FreeState({}, map[1 := [2]])
  const FL2 := FreeState({2}, map[])
  const FL3 := FreeState({}, map[2 := [4]])

  const W1 := Writer(SNAP_OLD, EMPTY, 4, map[], {}, Editing)
  const W2 := Writer(SNAP_OLD, FL1, 5, map[4 := FIRST_LIST], {2}, Writing(SNAP_NEW, {}))
  const W3 := W2.(phase := Writing(SNAP_NEW, {4}))
  const W6 := Writer(SNAP_NEW, FL2, 5, map[], {}, Editing)
  const NEXT := Snapshot(Meta(2, 1, 5, 3, 2), map[2 := SECOND_LIST, 3 := PAGE3])
  const W7 := Writer(SNAP_NEW, FL3, 5, map[2 := SECOND_LIST], {4}, Writing(NEXT, {}))

  const H0: map<TxId, Snapshot> := map[0 := SNAP_OLD]
  const H1: map<TxId, Snapshot> := map[0 := SNAP_OLD, 1 := SNAP_NEW]

  const S0 := State(Data(DISK_OLD, DISK_OLD, map[]), Metas(SLOTS_OLD, SLOTS_OLD, {}), map[], H0, None)
  const S1 := S0.(writer := Some(W1))
  const S2 := S0.(writer := Some(W2))
  const S3 := State(Data(DISK_OLD, DISK_NEW, map[4 := {FIRST_LIST}]), Metas(SLOTS_OLD, SLOTS_OLD, {}), map[], H0,
      Some(W3))
  const S4 := State(Data(DISK_NEW, DISK_NEW, map[]), Metas(SLOTS_OLD, SLOTS_OLD, {}), map[], H0,
                    Some(W2.(phase := Flushed(SNAP_NEW))))
  const S5 := State(Data(DISK_NEW, DISK_NEW, map[]), Metas(SLOTS_OLD, SLOTS_NEW, {META_NEW}), map[], H1,
                    Some(W2.(phase := Published(SNAP_NEW))))
  const S6 := S5.(writer := None)
  const S7 := S6.(writer := Some(W6))
  const S8 := S6.(writer := Some(W7))
  const S9 := State(Data(DISK_NEW, DISK_BAD, map[2 := {SECOND_LIST}]), Metas(SLOTS_OLD, SLOTS_NEW, {META_NEW}),
                    map[], H1, Some(W7.(phase := Writing(NEXT, {2}))))
  const S10 := State(Data(DISK_BAD, DISK_BAD, map[]), Metas(SLOTS_OLD, SLOTS_OLD, {}), map[], H0, None)

  const STATES := [S0, S1, S2, S3, S4, S5, S6, S7, S8, S9, S10]
  const STEPS := [Begin, Seal(4, [FIRST_LIST], 3), WriteCell(4), SyncData, Publish, Abort,
                  Begin, Seal(2, [SECOND_LIST], 3), WriteCell(2), PowerLoss]

  lemma Step0()
    ensures S0 == InitialState()
    ensures Next(S0, Begin, S1)
  {
    assert Current(S0, META_ONE) && ReleaseBound(S0, META_ONE, 1);
    assert Loaded([]) == EMPTY;
    assert forall t: TxId, p: PageId :: !InPending(EMPTY, t, p);
    assert Released(EMPTY, 1, EMPTY);
    assert Begins(S0, META_ONE, 1, EMPTY);
  }

  lemma OneRecord(p: PageId, t: TxId)
    requires t > 0
    ensures Lists(FreeState({}, map[t := [p]]), [RetiredPage(p, t)])
  {
    var s := FreeState({}, map[t := [p]]);
    forall r ensures multiset([RetiredPage(p, t)])[r] == Count(s, r) {
      assert multiset([p])[r.pageId] == if r.pageId == p then 1 else 0;
    }
  }

  lemma Step1()
    ensures Next(S1, Seal(4, [FIRST_LIST], 3), S2)
  {
    hide Whole;
    assert Block(2, 1) == {2} && Block(4, 1) == {4};
    assert FreedBlock(EMPTY, 1, 2, 0) == EMPTY;
    assert [] + [2] == [2] && FreedBlock(EMPTY, 1, 2, 1).pending == FL1.pending;
    var w1 := Retired(W1, 2, 1);
    assert w1 == W1.(fl := FL1, freed := {2});
    forall p: PageId ensures !RunAt(FL1.free, p, 1) {
      assert p in Block(p, 1);
    }
    var w2 := Allocated(w1, 4, [FIRST_LIST]);
    assert Cells(4, []) == map[];
    assert Cells(4, [FIRST_LIST]) == map[4 := FIRST_LIST];
    assert w2 == W1.(fl := FL1, numPages := 5, dirty := map[4 := FIRST_LIST], freed := {2});
    OneRecord(2, 1);
    assert Held(w2) == {3, 4};
    assert HeldCells(w2) == SNAP_NEW.cells;
    assert Closed(HeldCells(w2), 3);
    OneNode(HeldCells(w2), 3, 4);
    assert Sealed(w2, 4, 3) == SNAP_NEW;
  }

  lemma Step2()
    ensures Next(S2, WriteCell(4), S3) && Next(S3, SyncData, S4)
  {
    var d := Write(S2.data, 4, FIRST_LIST);
    assert {} + {FIRST_LIST} == {FIRST_LIST};
    assert d.cache == DISK_NEW && d.unsynced == S3.data.unsynced;
    assert {} + {4} == {4};
  }

  lemma Step4()
    ensures Next(S4, Publish, S5) && Next(S5, Abort, S6)
  {
    assert {} + {META_NEW} == {META_NEW};
    assert H0[1 := SNAP_NEW] == H1;
  }

  lemma Step6()
    ensures Next(S6, Begin, S7)
  {
    assert Current(S6, META_NEW) && ReleaseBound(S6, META_NEW, 2);
    var es := [RetiredPage(2, 1)];
    assert es[..0] == [];
    assert Loaded([]) == EMPTY;
    assert [] + [2] == [2] && AddEntry(EMPTY, RetiredPage(2, 1)).pending == FL1.pending;
    assert Loaded(es) == FL1;
    assert InPending(FL1, 1, 2);
    assert Released(FL1, 2, FL2);
    assert Begins(S6, META_NEW, 2, FL2);
  }

  lemma Step7()
    ensures Next(S7, Seal(2, [SECOND_LIST], 3), S8)
  {
    hide Whole;
    assert Block(2, 1) == {2} && Block(4, 1) == {4};
    assert FreedBlock(FL2, 2, 4, 0) == FL2;
    var fl := FreeState({2}, map[2 := [4]]);
    assert [] + [4] == [4] && FreedBlock(FL2, 2, 4, 1).pending == fl.pending;
    var w1 := Retired(W6, 4, 1);
    assert w1 == W6.(fl := fl, freed := {4});
    assert RunAt(fl.free, 2, 1);
    forall q: PageId | RunAt(fl.free, q, 1) ensures 2 <= q {
      assert q in Block(q, 1);
    }
    var w2 := Allocated(w1, 2, [SECOND_LIST]);
    assert Cells(2, []) == map[];
    assert Cells(2, [SECOND_LIST]) == map[2 := SECOND_LIST];
    assert w2 == W6.(fl := FL3, dirty := map[2 := SECOND_LIST], freed := {4});
    OneRecord(4, 2);
    assert Held(w2) == {2, 3};
    assert HeldCells(w2) == NEXT.cells;
    assert Closed(HeldCells(w2), 3);
    OneNode(HeldCells(w2), 3, 2);
    assert Sealed(w2, 2, 3) == NEXT;
  }

  lemma Step8()
    ensures Next(S8, WriteCell(2), S9)
  {
    var d := Write(S8.data, 2, SECOND_LIST);
    assert {} + {SECOND_LIST} == {SECOND_LIST};
    assert d.cache == DISK_BAD && d.unsynced == S9.data.unsynced;
    assert {} + {2} == {2};
  }

  lemma LossStep()
    ensures Loss(S9.data, S10.data) && MetaLoss(S9.metas, S10.metas)
  {
  }

  lemma OldHistory()
    ensures H0 == map t | t in H1 && t <= 0 :: H1[t]
  {
  }

  lemma Step9()
    ensures Next(S9, PowerLoss, S10)
  {
    LossStep();
    OldHistory();
    hide Loss, MetaLoss, H0, H1;
  }

  /** Without the guard crash atomicity fails: before the loss the durable snapshot is no
      longer intact, and the run ends with transaction 0 selected and its freelist block
      replaced by one that names a page the file does not have. */
  lemma AtomicityFails()
    ensures Run(STATES, STEPS) && !Guarded(S6, Begin) && !Recoverable(S9)
    ensures Current(S10, META_ONE) && S10.history[0] == SNAP_OLD
    ensures !Visible(S10.data, SNAP_OLD.cells)
    ensures At(S10.data.cache, META_ONE.freelistPage) == Good(Records([RetiredPage(4, 2)], 1)) && 4 >= META_ONE.numPages
  {
    RunSteps();
    assert 2 in S9.data.unsynced && 2 in SNAP_OLD.cells;
    assert At(S10.data.cache, 2) == Good(SECOND_LIST);
  }

  lemma StepAt(i: nat)
    requires i < 10
    ensures Next(STATES[i], STEPS[i], STATES[i + 1])
  {
    hide Next, S0, S1, S2, S3, S4, S5, S6, S7, S8, S9, S10;
    if i == 0 {
      Step0();
    } else if i == 1 {
      Step1();
    } else if i <= 5 {
      Step2();
      Step4();
    } else if i == 6 {
      Step6();
    } else if i == 7 {
      Step7();
    } else if i == 8 {
      Step8();
    } else {
      Step9();
    }
  }

  lemma RunSteps()
    ensures Run(STATES, STEPS)
  {
    hide Next;
    Step0();
    assert |STEPS| == 10 && |STATES| == 11 && STATES[0] == S0;
    forall i | 0 <= i < 10 ensures Next(STATES[i], STEPS[i], STATES[i + 1]) {
      StepAt(i);
    }
  }
}
