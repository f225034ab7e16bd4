// Ledger before resources: in every run of the VM lifecycle, whatever fails or dies, a tap, a
// unit, a forwarder or a VM directory only exists while its slot's ledger row does. Two things
// break this, a restore that fails and a destroy whose stop was in vain, and exactly when they do
// is stated here. What does not depend on them is the weaker invariant that holds of every run.
module LifecycleSafety {
  import opened Wrappers
  import opened Names
  import opened Ledger
  import opened Lifecycle
  import opened SnapshotPaths

  predicate HasResources(s: Slot) {
    s.tap || s.unit.Some? || s.dir.Some? || s.forwards != {}
  }

  // What a command may rely on at each stage, because nobody else touches its VM. A leftover of
  // an earlier restore or destroy may be there until the tap is added or the unit started, which
  // it then prevents.
  predicate StageSound(s: Slot, c: Command, stage: Stage) {
    match stage
    case AddTap => s.dir.Some? && Rootfs in s.dir.value && (!s.tap ==> HasImage(s, c))
    case Launch => s.tap && s.dir.Some? && Rootfs in s.dir.value && TapIsIdle(s) && HasImage(s, c)
    case Boot => s.tap && s.dir.Some? && Rootfs in s.dir.value && TapIsIdle(s) && HasImage(s, c)
    case Create => PausedOrGone(s)
    case MakeSnapshotDir => PausedOrGone(s)
    case CopyOut(_) => PausedOrGone(s)
    case StopUnit => c.Snapshot? ==> PausedOrGone(s)
    case StopForwards(_) => c.Snapshot? ==> PausedOrGone(s)
    case DeleteTap => c.Snapshot? ==> PausedOrGone(s)
    case RemoveDir => !s.tap && TapIsIdle(s) && (c.Snapshot? ==> s.unit.None?)
    case Register => !HasResources(s)
    case DropRow => !s.tap && s.dir.None? && TapIsIdle(s) && (c.Snapshot? ==> s.unit.None?)
    case _ => true
  }

  // A run's disk is the image it was given.
  predicate HasImage(s: Slot, c: Command) {
    c.Run? ==> s.dir.Some? && Rootfs in s.dir.value && s.dir.value[Rootfs] == c.image
  }

  predicate PausedOrGone(s: Slot) {
    s.unit.Some? ==> s.unit.value.Paused?
  }

  // Commands only ever reach their own stages.
  predicate StageOf(c: Command, stage: Stage) {
    match stage
    case MakeDir => c.Run? || c.Restore?
    case CopyIn(k) => (c.Run? || c.Restore?) && k < |FilesToCopy(c)|
    case AddTap => c.Run? || c.Restore?
    case Launch => c.Run? || c.Restore?
    case Boot => c.Run? || c.Restore?
    case StartForwards(_) => c.Run? || c.Restore? || c.AddPort?
    case Attach => c.Run? || c.Restore?
    case StopUnit => c.Destroy? || c.Snapshot?
    case StopForwards(_) => c.Destroy? || c.Snapshot? || c.RemovePort?
    case RestartForwards(_) => c.ReloadPorts?
    case DeleteTap => c.Destroy? || c.Snapshot?
    case RemoveDir => c.Destroy? || c.Snapshot?
    case DropRow => c.Destroy? || c.Snapshot?
    case CopyOut(k) => c.Snapshot? && k < |SNAPSHOT_FILES|
    case _ => c.Snapshot?
  }

  // What holds of every slot in every run.
  predicate Sound(s: Slot) {
    && (s.forwards != {} ==> s.unit.Some?)
    && (!TapIsIdle(s) ==> s.tap && s.dir.Some? && Rootfs in s.dir.value)
    && (s.act.Some? ==>
          && s.row == Some(s.act.value.row)
          && StageOf(s.act.value.command, s.act.value.stage)
          && StageSound(s, s.act.value.command, s.act.value.stage)
          && ((s.act.value.command.Run? || s.act.value.command.Restore?) && !s.act.value.stage.MakeDir? ==> s.dir.Some?))
  }

  // A bring-up that has not started its unit yet has met no leftover.
  predicate Unhindered(s: Slot, stage: Stage) {
    match stage
    case MakeDir => !HasResources(s)
    case CopyIn(_) => !s.tap && s.unit.None?
    case AddTap => !s.tap && s.unit.None?
    case Launch => s.unit.None?
    case _ => true
  }

  // What holds besides, as long as nothing has been left behind.
  predicate Owned(s: Slot) {
    && Sound(s)
    && (HasResources(s) ==> s.row.Some?)
    && (s.act.Some? ==> Unhindered(s, s.act.value.stage))
  }

  predicate AllSound(w: World) {
    |w.slots| == SLOT_LIMIT && forall i :: 0 <= i < |w.slots| ==> Sound(w.slots[i])
  }

  predicate AllOwned(w: World) {
    |w.slots| == SLOT_LIMIT && forall i :: 0 <= i < |w.slots| ==> Owned(w.slots[i])
  }

  lemma OwnedIsSound(w: World)
    requires AllOwned(w)
    ensures AllSound(w)
  {
  }

  // ----- Every step keeps every slot sound

  lemma BringUpKeepsSound(s: Slot, ar: Archive, s': Slot)
    requires Sound(s) && s.act.Some? && BringUp(s, ar, s')
    ensures Sound(s')
  {
  }

  lemma TearDownKeepsSound(s: Slot, s': Slot)
    requires Sound(s) && s.act.Some? && TearDown(s, s')
    ensures Sound(s')
  {
  }

  lemma TakeSnapshotKeepsSound(s: Slot, ar: Archive, s': Slot, ar': Archive)
    requires Sound(s) && s.act.Some? && s.act.value.command.Snapshot? && TakeSnapshot(s, ar, s', ar')
    ensures Sound(s')
  {
  }

  lemma PartKeepsSound(s: Slot, ar: Archive, m: Slot, ar': Archive)
    requires Sound(s) && s.act.Some? && PartOf(s, ar, m, ar')
    ensures Sound(End(m)) && Sound(End(m).(row := None))
  {
  }

  lemma AdvanceKeepsSound(s: Slot, ar: Archive, s': Slot, ar': Archive)
    requires Sound(s) && Advance(s, ar, s', ar')
    ensures Sound(s')
  {
    hide Sound, BringUp, TearDown, TakeSnapshot;
    if BringUp(s, ar, s') {
      BringUpKeepsSound(s, ar, s');
    } else if TearDown(s, s') {
      TearDownKeepsSound(s, s');
    } else {
      TakeSnapshotKeepsSound(s, ar, s', ar');
    }
  }

  lemma QuietStepKeepsSound(s: Slot, ar: Archive, s': Slot)
    requires Sound(s)
    requires
      || Begin(s, ar, s') || StopsInVain(s, s') || Die(s, s') || UnitDies(s, s') || ForwardDies(s, s') || GuestWrites(s, s')
      || (exists c: Command, row, cut :: (c.Run? || c.Restore?) && Allocated(s, s', c, row, cut))
    ensures Sound(s')
  {
  }

  lemma StepKeepsSound(w: World, i: nat, w': World)
    requires AllSound(w) && (StepAt(w, i, w') || RestoreGivesUpAt(w, i, w'))
    ensures AllSound(w')
  {
    hide Sound, Advance, PartOf, Begin, StopsInVain, Die, UnitDies, ForwardDies, GuestWrites, Allocated;
    var s, s', ar, ar' := w.slots[i], w'.slots[i], w.archive, w'.archive;
    assert Sound(s') by {
      if Advance(s, ar, s', ar') {
        AdvanceKeepsSound(s, ar, s', ar');
      } else if Fail(s, ar, s', ar') {
        var m :| PartOf(s, ar, m, ar') && s' == End(m);
        PartKeepsSound(s, ar, m, ar');
      } else if FailDroppingRow(s, ar, s', ar') {
        var m :| PartOf(s, ar, m, ar') && s' == End(m).(row := None);
        PartKeepsSound(s, ar, m, ar');
      } else {
        QuietStepKeepsSound(s, ar, s');
      }
    }
  }

  lemma {:induction false} RunKeepsSound(run: seq<World>, k: nat)
    requires IsRun(run) && k < |run|
    ensures AllSound(run[k])
  {
    hide Sound, StepAt, RestoreGivesUpAt;
    if k == 0 {
      InitiallyOwned(run[0].archive.dataDir);
      OwnedIsSound(run[0]);
    } else {
      RunKeepsSound(run, k - 1);
      assert Step(run[k - 1], run[k]);
      if !Forgets(run[k - 1], run[k]) {
        var i: nat :| StepAt(run[k - 1], i, run[k]) || RestoreGivesUpAt(run[k - 1], i, run[k]);
        StepKeepsSound(run[k - 1], i, run[k]);
      }
    }
  }

  // In every run a guest that is booted has the row and the tap its VM was allocated, and its disk
  // is the image its command was given, whatever was left on the slot before.
  lemma RunBootsTheImage(run: seq<World>, k: nat, i: nat)
    requires IsRun(run) && k + 1 < |run| && SlotStep(run[k], i, run[k + 1])
    requires run[k].slots[i].act.Some? && run[k].slots[i].act.value.stage.Boot?
    requires Advance(run[k].slots[i], run[k].archive, run[k + 1].slots[i], run[k + 1].archive)
    ensures var a, s' := run[k].slots[i].act.value, run[k + 1].slots[i];
            && s'.row == Some(a.row) && s'.tap && s'.unit.Some? && s'.unit.value.Running?
            && s'.dir.Some? && Rootfs in s'.dir.value
            && (a.command.Run? ==> s'.dir.value[Rootfs] == a.command.image)
  {
    RunKeepsSound(run, k);
    assert Sound(run[k].slots[i]);
  }

  // ----- Every step but two keeps resources under live rows: a failed restore's last, and a
  // destroy's last where its unit is still there

  // The ledger row is removed at the end of a destroy or a snapshot.
  predicate DropsRow(s: Slot, ar: Archive, s': Slot, ar': Archive) {
    s.act.Some? && s.act.value.stage.DropRow? && Advance(s, ar, s', ar')
  }

  lemma BringUpKeepsOwned(s: Slot, ar: Archive, s': Slot)
    requires Owned(s) && s.act.Some? && BringUp(s, ar, s')
    ensures Owned(s')
  {
    BringUpKeepsSound(s, ar, s');
  }

  lemma TearDownKeepsOwned(s: Slot, s': Slot)
    requires Owned(s) && s.act.Some? && TearDown(s, s')
    requires s.act.value.stage.DropRow? ==> s.unit.None?
    ensures Owned(s')
  {
    TearDownKeepsSound(s, s');
  }

  lemma TakeSnapshotKeepsOwned(s: Slot, ar: Archive, s': Slot, ar': Archive)
    requires Owned(s) && s.act.Some? && s.act.value.command.Snapshot? && TakeSnapshot(s, ar, s', ar')
    ensures Owned(s')
  {
    TakeSnapshotKeepsSound(s, ar, s', ar');
  }

  lemma FailKeepsOwned(s: Slot, ar: Archive, s': Slot, ar': Archive)
    requires Owned(s) && Fail(s, ar, s', ar')
    ensures Owned(s')
  {
    var m :| PartOf(s, ar, m, ar') && s' == End(m);
    PartKeepsSound(s, ar, m, ar');
  }

  lemma QuietStepKeepsOwned(s: Slot, ar: Archive, s': Slot)
    requires Owned(s)
    requires
      || Begin(s, ar, s') || StopsInVain(s, s') || Die(s, s') || UnitDies(s, s') || ForwardDies(s, s') || GuestWrites(s, s')
      || (s.row.None? && exists c: Command, row, cut :: (c.Run? || c.Restore?) && Allocated(s, s', c, row, cut))
    ensures Owned(s')
  {
    QuietStepKeepsSound(s, ar, s');
    hide StageSound, StageOf;
  }

  lemma StepKeepsOwned(w: World, i: nat, w': World)
    requires AllOwned(w) && StepAt(w, i, w')
    requires DropsRow(w.slots[i], w.archive, w'.slots[i], w'.archive) ==> w.slots[i].unit.None?
    ensures AllOwned(w')
  {
    hide Owned, BringUp, TearDown, TakeSnapshot, Begin, Fail, StopsInVain, Die, UnitDies, ForwardDies, GuestWrites, Allocated;
    var s, s', ar, ar' := w.slots[i], w'.slots[i], w.archive, w'.archive;
    assert Owned(s') by {
      if Advance(s, ar, s', ar') {
        if BringUp(s, ar, s') {
          BringUpKeepsOwned(s, ar, s');
        } else if TearDown(s, s') {
          TearDownKeepsOwned(s, s');
        } else {
          TakeSnapshotKeepsOwned(s, ar, s', ar');
        }
      } else if Fail(s, ar, s', ar') {
        FailKeepsOwned(s, ar, s', ar');
      } else {
        QuietStepKeepsOwned(s, ar, s');
      }
    }
  }

  lemma ForgettingKeepsOwned(w: World, w': World)
    requires AllOwned(w) && Forgets(w, w')
    ensures AllOwned(w')
  {
  }

  // A restore gives up cleanly when it fails at its first operation and that operation left no
  // directory behind.
  predicate GivesUpCleanly(s: Slot, s': Slot) {
    s.act.Some? && s.act.value.stage.MakeDir? && s'.dir.None?
  }

  // The exact reach of the failure path that removes the row of a failed restore: where resources
  // belonged to live rows before, they still do if and only if the restore gave up cleanly.
  lemma RestoreFailureLeaks(w: World, i: nat, w': World)
    requires AllOwned(w) && RestoreGivesUpAt(w, i, w')
    ensures AllOwned(w') <==> GivesUpCleanly(w.slots[i], w'.slots[i])
    ensures !GivesUpCleanly(w.slots[i], w'.slots[i]) ==> HasResources(w'.slots[i]) && w'.slots[i].row.None?
  {
    var s, s', ar, ar' := w.slots[i], w'.slots[i], w.archive, w'.archive;
    var m :| PartOf(s, ar, m, ar') && s' == End(m).(row := None);
    RestoreKeepsItsDir(s, ar, m, ar');
    assert Owned(s);
    if !GivesUpCleanly(s, s') {
      assert !Owned(w'.slots[i]);
    }
  }

  // A failed restore leaves its directory behind, unless it was still making it; then it leaves
  // nothing that was not there.
  lemma RestoreKeepsItsDir(s: Slot, ar: Archive, m: Slot, ar': Archive)
    requires Sound(s) && s.act.Some? && s.act.value.command.Restore? && PartOf(s, ar, m, ar')
    ensures if s.act.value.stage.MakeDir? then m == s.(dir := m.dir) else m.dir.Some?
  {
  }

  // A bring-up that starts on a slot whose tap already exists.
  predicate BlockedByTap(s: Slot) {
    && s.tap && s.act.Some? && (s.act.value.command.Run? || s.act.value.command.Restore?)
    && (s.act.value.stage.MakeDir? || s.act.value.stage.CopyIn? || s.act.value.stage.AddTap?)
  }

  // When the leak left a tap, the next VM to be given the slot starts blocked by it.
  lemma LeakMeetsTheNextVm(w: World, i: nat, w': World, w'': World)
    requires AllOwned(w) && RestoreGivesUpAt(w, i, w')
    requires w.slots[i].act.value.stage.Launch?
    requires StartsRun(w', i, w'')
    ensures BlockedByTap(w''.slots[i])
  {
  }

  // And it stays blocked: no success of its own operations takes it past adding the tap.
  lemma BlockedStaysBlocked(s: Slot, ar: Archive, s': Slot, ar': Archive)
    requires BlockedByTap(s) && Advance(s, ar, s', ar')
    ensures BlockedByTap(s')
  {
  }

  // ----- Main results

  // What is there belongs to a live row.
  predicate Accounted(w: World) {
    forall i :: 0 <= i < |w.slots| && HasResources(w.slots[i]) ==> w.slots[i].row.Some?
  }

  ghost predicate DropsRowAt(w: World, i: nat, w': World) {
    SlotStep(w, i, w') && DropsRow(w.slots[i], w.archive, w'.slots[i], w'.archive)
  }

  // Every restore that gives up in the first k steps gives up cleanly, and every row that is
  // dropped is that of a VM whose unit is gone.
  ghost predicate CleanEnds(run: seq<World>, k: nat)
    requires k < |run|
  {
    && (forall j, i: nat :: 0 <= j < k && RestoreGivesUpAt(run[j], i, run[j + 1]) ==>
                              GivesUpCleanly(run[j].slots[i], run[j + 1].slots[i]))
    && (forall j, i: nat :: 0 <= j < k && DropsRowAt(run[j], i, run[j + 1]) ==> run[j].slots[i].unit.None?)
  }

  // In every interleaving of any number of commands, with any operation failing or any process
  // dying anywhere, as long as commands that remove a row ended cleanly.
  lemma {:induction false} LedgerBeforeResources(run: seq<World>, k: nat)
    requires IsRun(run) && k < |run| && CleanEnds(run, k)
    ensures AllOwned(run[k]) && Accounted(run[k])
  {
    hide Owned, DropsRow;
    if k == 0 {
      InitiallyOwned(run[0].archive.dataDir);
    } else {
      LedgerBeforeResources(run, k - 1);
      var w, w' := run[k - 1], run[k];
      assert Step(w, w');
      if Forgets(w, w') {
        ForgettingKeepsOwned(w, w');
      } else {
        var i: nat :| StepAt(w, i, w') || RestoreGivesUpAt(w, i, w');
        if StepAt(w, i, w') {
          assert DropsRow(w.slots[i], w.archive, w'.slots[i], w'.archive) ==> DropsRowAt(w, i, run[k - 1 + 1]);
          StepKeepsOwned(w, i, w');
        } else {
          RestoreFailureLeaks(w, i, w');
        }
      }
    }
    OwnedMeansRow(run[k]);
  }

  lemma InitiallyOwned(dataDir: Path)
    ensures AllOwned(InitialWorld(dataDir))
  {
  }

  lemma OwnedMeansRow(w: World)
    requires AllOwned(w)
    ensures Accounted(w)
  {
  }

  // A slot handed to a new VM never carries a leftover tap, unit, forwarder or directory.
  lemma FreshSlotIsClean(run: seq<World>, k: nat, i: nat)
    requires IsRun(run) && k + 1 < |run| && CleanEnds(run, k)
    requires StartsRun(run[k], i, run[k + 1]) || StartsRestore(run[k], i, run[k + 1])
    ensures !HasResources(run[k + 1].slots[i])
  {
    LedgerBeforeResources(run, k);
    assert Owned(run[k].slots[i]);
  }

  // The exact statement over whole runs: whatever is there always belongs to a live row if and
  // only if every failed restore gave up cleanly and every dropped row's unit was gone.
  lemma LedgerAccountsExactly(run: seq<World>, k: nat)
    requires IsRun(run) && k < |run|
    ensures (forall j :: 0 <= j <= k ==> Accounted(run[j])) <==> CleanEnds(run, k)
  {
    hide Accounted, StepAt, GivesUpCleanly, DropsRow;
    if CleanEnds(run, k) {
      forall j | 0 <= j <= k ensures Accounted(run[j]) {
        LedgerBeforeResources(run, j);
      }
    }
    if forall j :: 0 <= j <= k ==> Accounted(run[j]) {
      forall j, i: nat | 0 <= j < k && RestoreGivesUpAt(run[j], i, run[j + 1])
        ensures GivesUpCleanly(run[j].slots[i], run[j + 1].slots[i])
      {
        RunKeepsSound(run, j);
        assert Accounted(run[j + 1]);
        UncleanGiveUpShows(run[j], i, run[j + 1]);
      }
      forall j, i: nat | 0 <= j < k && DropsRowAt(run[j], i, run[j + 1]) ensures run[j].slots[i].unit.None? {
        assert Accounted(run[j + 1]);
        UncleanDropShows(run[j], i, run[j + 1]);
      }
    }
  }

  lemma UncleanGiveUpShows(w: World, i: nat, w': World)
    requires AllSound(w) && RestoreGivesUpAt(w, i, w') && Accounted(w')
    ensures GivesUpCleanly(w.slots[i], w'.slots[i])
  {
    var s, s', ar, ar' := w.slots[i], w'.slots[i], w.archive, w'.archive;
    var m :| PartOf(s, ar, m, ar') && s' == End(m).(row := None);
    assert Sound(s);
    RestoreKeepsItsDir(s, ar, m, ar');
    assert !HasResources(w'.slots[i]);
  }

  lemma UncleanDropShows(w: World, i: nat, w': World)
    requires DropsRowAt(w, i, w') && Accounted(w')
    ensures w.slots[i].unit.None?
  {
    assert w'.slots[i].row.None?;
    assert !HasResources(w'.slots[i]);
  }

  // ----- Where a unit without a row comes from

  // A destroy or a snapshot is past stopping the unit.
  predicate PastStop(s: Slot) {
    && s.act.Some? && (s.act.value.command.Destroy? || s.act.value.command.Snapshot?)
    && (s.act.value.stage.StopForwards? || s.act.value.stage.DeleteTap? || s.act.value.stage.RemoveDir?
        || s.act.value.stage.Register? || s.act.value.stage.DropRow?)
  }

  ghost predicate PastStopFrom(run: seq<World>, a: nat, m: nat, i: nat)
    requires a <= m < |run|
  {
    forall k :: a <= k <= m ==> i < |run[k].slots| && PastStop(run[k].slots[i])
  }

  lemma PastStopStartsNoUnit(w: World, i: nat, j: nat, w': World)
    requires i < |w.slots| && PastStop(w.slots[i]) && w.slots[i].unit.None?
    requires StepAt(w, j, w') || RestoreGivesUpAt(w, j, w')
    requires i < |w'.slots| && PastStop(w'.slots[i])
    ensures w'.slots[i].unit.None?
  {
  }

  // If the unit is there while its VM's command goes on past the stop, then it has been there all
  // along, and the stop was in vain.
  lemma {:induction false} UnitLeftByVainStop(run: seq<World>, a: nat, m: nat, i: nat)
    requires IsRun(run) && a < m < |run| && PastStopFrom(run, a + 1, m, i)
    requires i < |run[a].slots| && run[a].slots[i].act.Some? && run[a].slots[i].act.value.stage.StopUnit?
    requires run[m].slots[i].unit.Some?
    ensures StopsInVain(run[a].slots[i], run[a + 1].slots[i])
  {
    hide StepAt, RestoreGivesUpAt, PastStop, StopsInVain;
    assert PastStop(run[a + 1].slots[i]) && PastStop(run[m].slots[i]);
    assert Step(run[m - 1], run[m - 1 + 1]);
    if m == a + 1 {
      StopEndsInVain(run[a], i, run[a + 1]);
    } else {
      assert PastStop(run[m - 1].slots[i]);
      if run[m - 1].slots[i].unit.None? && !Forgets(run[m - 1], run[m]) {
        var j: nat :| StepAt(run[m - 1], j, run[m]) || RestoreGivesUpAt(run[m - 1], j, run[m]);
        PastStopStartsNoUnit(run[m - 1], i, j, run[m]);
      }
      UnitLeftByVainStop(run, a, m - 1, i);
    }
  }

  lemma StopEndsInVain(w: World, i: nat, w': World)
    requires Step(w, w') && i < |w.slots| && i < |w'.slots|
    requires w.slots[i].act.Some? && w.slots[i].act.value.stage.StopUnit?
    requires PastStop(w'.slots[i]) && w'.slots[i].unit.Some?
    ensures StopsInVain(w.slots[i], w'.slots[i])
  {
    hide StepAt, RestoreGivesUpAt, PastStop, StopsInVain;
    assert !PastStop(w.slots[i]) by { StoppingIsNotPast(w.slots[i]); }
    var j: nat :| StepAt(w, j, w') || RestoreGivesUpAt(w, j, w');
    StepsAreSlotSteps(w, j, w');
    OwnStopEndsInVain(w, i, w');
  }

  lemma StoppingIsNotPast(s: Slot)
    requires s.act.Some? && s.act.value.stage.StopUnit?
    ensures !PastStop(s)
  {
  }

  lemma OwnStopEndsInVain(w: World, i: nat, w': World)
    requires i < |w.slots| && (StepAt(w, i, w') || RestoreGivesUpAt(w, i, w'))
    requires w.slots[i].act.Some? && w.slots[i].act.value.stage.StopUnit?
    requires PastStop(w'.slots[i]) && w'.slots[i].unit.Some?
    ensures StopsInVain(w.slots[i], w'.slots[i])
  {
    hide PartOf;
  }

  // The last step of a destroy leaves no row, no tap and no directory of the VM, and it leaves
  // nothing at all if and only if its unit is gone; the last step of a snapshot leaves nothing.
  // Every other slot is exactly as it was.
  lemma TearDownLeavesNothing(run: seq<World>, k: nat, i: nat)
    requires IsRun(run) && k + 1 < |run| && i < |run[k].slots| && i < |run[k + 1].slots|
    requires DropsRow(run[k].slots[i], run[k].archive, run[k + 1].slots[i], run[k + 1].archive)
    ensures var s, s' := run[k].slots[i], run[k + 1].slots[i];
            && s'.row.None? && !s'.tap && s'.dir.None? && s'.act.None? && s'.unit == s.unit
            && (s' == EMPTY_SLOT <==> s.unit.None?)
            && (s.act.value.command.Snapshot? ==> s' == EMPTY_SLOT)
            && run[k + 1] == run[k].(slots := run[k].slots[i := s'])
  {
    hide StepAt, RestoreGivesUpAt, Sound, DropsRow;
    RunKeepsSound(run, k);
    DropRowEmpties(run[k].slots[i], run[k].archive, run[k + 1].slots[i], run[k + 1].archive);
    assert Step(run[k], run[k + 1]);
    if !Forgets(run[k], run[k + 1]) {
      var j: nat :| StepAt(run[k], j, run[k + 1]) || RestoreGivesUpAt(run[k], j, run[k + 1]);
      StepsAreSlotSteps(run[k], j, run[k + 1]);
    }
  }

  lemma StepsAreSlotSteps(w: World, j: nat, w': World)
    requires StepAt(w, j, w') || RestoreGivesUpAt(w, j, w')
    ensures SlotStep(w, j, w')
  {
  }

  lemma DropRowEmpties(s: Slot, ar: Archive, s': Slot, ar': Archive)
    requires Sound(s) && DropsRow(s, ar, s', ar')
    ensures s.row.Some? && s'.row.None? && !s'.tap && s'.dir.None? && s'.act.None? && s'.unit == s.unit
    ensures s' == EMPTY_SLOT <==> s.unit.None?
    ensures s.act.value.command.Snapshot? ==> s' == EMPTY_SLOT
    ensures ar' == ar
  {
  }

  // Slots and table rows tell the same story: where they agree on which slots are taken, they
  // agree on which one is allocated next.
  lemma SlotsAllocateAsTable(w: World, t: VmTable, i: nat)
    requires |w.slots| == SLOT_LIMIT && Consistent(t)
    requires forall j :: 0 <= j < SLOT_LIMIT ==> (w.slots[j].row.Some? <==> j in Slots(t))
    ensures LowestFreeSlot(w, i) <==> LowestFree(t) == Some(i)
  {
    hide Consistent, TapUsed, Slots;
    forall j: nat | j < SLOT_LIMIT ensures w.slots[j].row.Some? <==> TapUsed(t, TapName(j)) {
      TapUsedIffSlot(t, j);
    }
    if LowestFreeSlot(w, i) {
      LowestFreeUnique(t, i);
    }
  }
}
