// What a snapshot command does not protect (vm/vm.go Snapshot, cmd/snapshot.go), each with the exact
// condition: when a snapshot that fails leaves its VM running, what becomes of a paused and of a
// stopped VM, and when the last copy of a VM is lost to another command with the same directory.
module SnapshotLimits {
  import opened Wrappers
  import opened Ledger
  import opened Lifecycle
  import opened SnapshotPaths
  import opened LifecycleSafety
  import opened SnapshotSafety

  predicate Runs(s: Slot) {
    s.unit.Some? && s.unit.value.Running?
  }

  // After a snapshot command that fails or is killed, at any point of any run, the guest runs if
  // and only if the command was still at its pause, and that had not taken effect on the running
  // guest. Past the pause the VM is suspended or gone.
  lemma FailedSnapshotSuspends(run: seq<World>, k: nat, i: nat)
    requires IsRun(run) && k + 1 < |run| && i < |run[k].slots| && i < |run[k + 1].slots|
    requires run[k].slots[i].act.Some? && run[k].slots[i].act.value.command.Snapshot?
    requires Fail(run[k].slots[i], run[k].archive, run[k + 1].slots[i], run[k + 1].archive)
             || Die(run[k].slots[i], run[k + 1].slots[i])
    ensures var s, s' := run[k].slots[i], run[k + 1].slots[i];
            && (Runs(s') <==> s.act.value.stage.Pause? && Runs(s) && s'.unit == s.unit)
            && (!s.act.value.stage.Pause? ==> PausedOrGone(s'))
  {
    RunKeepsSound(run, k);
    assert Sound(run[k].slots[i]);
  }

  // A paused VM never runs again: a snapshot that fails leaves its VM suspended, and until its
  // unit is gone no step of any command resumes it.
  lemma {:induction false} PausedVmNeverRunsAgain(run: seq<World>, k: nat, m: nat, i: nat)
    requires IsRun(run) && k <= m < |run|
    requires i < SLOT_LIMIT && i < |run[k].slots|
    requires run[k].slots[i].unit.Some? && run[k].slots[i].unit.value.Paused?
    ensures forall j :: k <= j <= m ==> |run[j].slots| == SLOT_LIMIT
    ensures (exists j :: k <= j <= m && run[j].slots[i].unit.None?) || run[m].slots[i].unit == run[k].slots[i].unit
  {
    hide Sound, StepAt, RestoreGivesUpAt;
    RunKeepsSound(run, m);
    if k < m {
      PausedVmNeverRunsAgain(run, k, m - 1, i);
      if forall j :: k <= j <= m - 1 ==> run[j].slots[i].unit.Some? {
        assert Step(run[m - 1], run[m]);
        RunKeepsSound(run, m - 1);
        if !Forgets(run[m - 1], run[m]) {
          var j: nat :| StepAt(run[m - 1], j, run[m]) || RestoreGivesUpAt(run[m - 1], j, run[m]);
          PausedStep(run[m - 1], i, j, run[m]);
        }
      }
    }
  }

  lemma PausedStep(w: World, i: nat, j: nat, w': World)
    requires AllSound(w) && i < |w.slots| && w.slots[i].unit.Some? && w.slots[i].unit.value.Paused?
    requires StepAt(w, j, w') || RestoreGivesUpAt(w, j, w')
    ensures SlotStep(w, j, w')
    ensures w'.slots[i].unit.None? || w'.slots[i].unit == w.slots[i].unit
  {
    var s, s', ar, ar' := w.slots[i], w'.slots[i], w.archive, w'.archive;
    assert Sound(s);
    if j == i && Advance(s, ar, s', ar') {
      PausedAdvance(s, ar, s', ar');
    }
  }

  lemma PausedAdvance(s: Slot, ar: Archive, s': Slot, ar': Archive)
    requires s.unit.Some? && s.unit.value.Paused? && Advance(s, ar, s', ar')
    ensures s'.unit.None? || s'.unit == s.unit
  {
  }

  // A VM whose unit is gone and that no command is bringing up or has written out already.
  predicate Stopped(s: Slot) {
    && s.row.Some? && s.unit.None?
    && (s.act.Some? ==>
          && !s.act.value.command.Run? && !s.act.value.command.Restore?
          && (s.act.value.command.Snapshot? ==> s.act.value.stage.Pause?))
  }

  // It is stopped for good: until its row is dropped it never runs, forwards, or gets past the
  // pause of a snapshot. So a port added to it is never forwarded, by a restore or otherwise.
  lemma {:induction false} StoppedForGood(run: seq<World>, k: nat, m: nat, i: nat)
    requires IsRun(run) && k <= m < |run|
    requires i < SLOT_LIMIT && i < |run[k].slots| && Stopped(run[k].slots[i])
    ensures forall j :: k <= j <= m ==> |run[j].slots| == SLOT_LIMIT
    ensures (exists j :: k <= j <= m && run[j].slots[i].row.None?)
            || (Stopped(run[m].slots[i]) && run[m].slots[i].forwards == {})
  {
    hide Sound, StepAt, RestoreGivesUpAt, Stopped;
    RunKeepsSound(run, m);
    if k < m {
      StoppedForGood(run, k, m - 1, i);
      if forall j :: k <= j <= m - 1 ==> run[j].slots[i].row.Some? {
        assert Step(run[m - 1], run[m]);
        RunKeepsSound(run, m - 1);
        if !Forgets(run[m - 1], run[m]) {
          var j: nat :| StepAt(run[m - 1], j, run[m]) || RestoreGivesUpAt(run[m - 1], j, run[m]);
          StoppedStep(run[m - 1], i, j, run[m]);
        }
      }
    } else {
      assert Sound(run[k].slots[i]);
      StoppedForwardsNothing(run[k].slots[i]);
    }
  }

  lemma StoppedForwardsNothing(s: Slot)
    requires Sound(s) && Stopped(s)
    ensures s.forwards == {}
  {
  }

  lemma StoppedStep(w: World, i: nat, j: nat, w': World)
    requires AllSound(w) && i < |w.slots| && Stopped(w.slots[i])
    requires StepAt(w, j, w') || RestoreGivesUpAt(w, j, w')
    ensures SlotStep(w, j, w')
    ensures (Stopped(w'.slots[i]) && w'.slots[i].forwards == {}) || w'.slots[i].row.None?
  {
    var s, s', ar, ar' := w.slots[i], w'.slots[i], w.archive, w'.archive;
    assert Sound(s);
    if j == i && Advance(s, ar, s', ar') {
      StoppedAdvance(s, ar, s', ar');
    }
  }

  lemma StoppedAdvance(s: Slot, ar: Archive, s': Slot, ar': Archive)
    requires Sound(s) && Stopped(s) && Advance(s, ar, s', ar')
    ensures (Stopped(s') || s'.row.None?) && s'.forwards == {}
  {
  }

  // ----- Two commands with one directory

  predicate DirOk(s: Slot) {
    s.act.Some? && s.act.value.command.Snapshot? ==> SaveDirOk(s, s.act.value.stage, s.act.value.cut)
  }

  lemma AdvanceKeepsDir(s: Slot, ar: Archive, s': Slot, ar': Archive)
    requires Sound(s) && DirOk(s) && Advance(s, ar, s', ar')
    ensures DirOk(s')
  {
    hide Sound, DirOk, BringUp, TearDown, TakeSnapshot;
    if BringUp(s, ar, s') {
      BringUpKeepsDir(s, ar, s');
    } else if TearDown(s, s') {
      TearDownKeepsDir(s, s');
    } else {
      SavingKeepsDir(s, ar, s', ar');
    }
  }

  lemma BringUpKeepsDir(s: Slot, ar: Archive, s': Slot)
    requires Sound(s) && s.act.Some? && BringUp(s, ar, s')
    ensures DirOk(s')
  {
    hide SaveDirOk;
  }

  lemma TearDownKeepsDir(s: Slot, s': Slot)
    requires Sound(s) && DirOk(s) && s.act.Some? && TearDown(s, s')
    ensures DirOk(s')
  {
  }

  lemma SavingKeepsDir(s: Slot, ar: Archive, s': Slot, ar': Archive)
    requires Sound(s) && DirOk(s) && s.act.Some? && s.act.value.command.Snapshot? && TakeSnapshot(s, ar, s', ar')
    ensures DirOk(s')
  {
  }

  lemma StepKeepsDirs(w: World, j: nat, w': World)
    requires AllSound(w) && (StepAt(w, j, w') || RestoreGivesUpAt(w, j, w')) && DirOk(w.slots[j])
    ensures DirOk(w'.slots[j])
  {
    hide Advance, StageSound, StageOf;
    var s, s', ar, ar' := w.slots[j], w'.slots[j], w.archive, w'.archive;
    assert Sound(s);
    if Advance(s, ar, s', ar') {
      AdvanceKeepsDir(s, ar, s', ar');
    }
  }

  // Whatever others do to the snapshot directory, a VM being saved keeps its own files and stays
  // paused until its own command stops it.
  lemma {:induction false} RunKeepsDirs(run: seq<World>, k: nat)
    requires IsRun(run) && k < |run|
    ensures forall i :: 0 <= i < |run[k].slots| ==> DirOk(run[k].slots[i])
  {
    hide Sound, DirOk, StepAt, RestoreGivesUpAt;
    if k == 0 {
      assert DirOk(EMPTY_SLOT) by { EmptyDirOk(); }
    } else {
      RunKeepsDirs(run, k - 1);
      RunKeepsSound(run, k - 1);
      assert Step(run[k - 1], run[k]);
      if !Forgets(run[k - 1], run[k]) {
        var j: nat :| StepAt(run[k - 1], j, run[k]) || RestoreGivesUpAt(run[k - 1], j, run[k]);
        StepsAreSlotSteps(run[k - 1], j, run[k]);
        StepKeepsDirs(run[k - 1], j, run[k]);
      }
    }
  }

  lemma EmptyDirOk()
    ensures DirOk(EMPTY_SLOT)
  {
  }

  // Slot j's snapshot into the directory is copying file f out, and has just put other bytes
  // there than the cut's, all of them or some.
  predicate Spoils(w: World, j: nat, w': World, dir: Path, c: Cut, f: nat) {
    && SlotStep(w, j, w') && SnapshotSafety.Saves(w.slots[j], dir)
    && f < |SNAPSHOT_FILES| && w.slots[j].act.value.stage == CopyOut(f)
    && dir in w'.archive.dirs && !Has(w'.archive.dirs[dir], c, SNAPSHOT_FILES[f])
  }

  ghost predicate SpoiltAt(run: seq<World>, k: nat, j: nat, dir: Path, c: Cut, f: nat)
    requires k + 1 < |run|
  {
    Spoils(run[k], j, run[k + 1], dir, c, f)
  }

  // Only a copy-out into the directory changes what it holds.
  lemma SpoiltOnlyByCopies(w: World, j: nat, w': World, dir: Path, c: Cut, f: nat)
    requires StepAt(w, j, w') || RestoreGivesUpAt(w, j, w')
    requires f < |SNAPSHOT_FILES| && dir in w.archive.dirs && Has(w.archive.dirs[dir], c, SNAPSHOT_FILES[f])
    ensures dir in w'.archive.dirs
    ensures !Has(w'.archive.dirs[dir], c, SNAPSHOT_FILES[f]) <==> Spoils(w, j, w', dir, c, f)
  {
    var s, s', ar, ar' := w.slots[j], w'.slots[j], w.archive, w'.archive;
    if Advance(s, ar, s', ar') {
      AdvanceSpoils(s, ar, s', ar', dir, c, f);
    }
  }

  lemma AdvanceSpoils(s: Slot, ar: Archive, s': Slot, ar': Archive, dir: Path, c: Cut, f: nat)
    requires Advance(s, ar, s', ar')
    requires f < |SNAPSHOT_FILES| && dir in ar.dirs && Has(ar.dirs[dir], c, SNAPSHOT_FILES[f])
    ensures dir in ar'.dirs
    ensures !Has(ar'.dirs[dir], c, SNAPSHOT_FILES[f]) ==>
              SnapshotSafety.Saves(s, dir) && s.act.value.stage == CopyOut(f)
  {
  }

  // When the last copy of a VM being saved is lost: exactly when, its directory removed and its
  // snapshot not registered yet, another command's copy-out puts other bytes into the snapshot
  // directory; or when its own command removes its directory, or part of it, and the snapshot
  // directory no longer holds the copy.
  lemma LastCopyLostExactly(run: seq<World>, k: nat, i: nat, dir: Path, c: Cut)
    requires IsRun(run) && k + 1 < |run| && i < |run[k].slots| && i < |run[k + 1].slots|
    requires Saving(run[k].slots[i], dir, c) && SomewhereWhole(run[k].slots[i], run[k].archive, dir, c)
    ensures !SomewhereWhole(run[k + 1].slots[i], run[k + 1].archive, dir, c) <==>
            var s := run[k].slots[i];
            || (s.act.value.stage.Register? && exists j: nat, f: nat :: SpoiltAt(run, k, j, dir, c, f))
            || (&& s.act.value.stage.RemoveDir? && !DirHolds(run[k + 1].slots[i], c)
                && !ArchiveHolds(run[k].archive, dir, c))
  {
    hide Sound, StepAt, RestoreGivesUpAt, DirOk, HoldsCut, Spoils, Has;
    var w, w' := run[k], run[k + 1];
    RunKeepsDirs(run, k);
    RunKeepsSound(run, k);
    WholeUntilRemoved(w.slots[i], w.archive, dir, c);
    forall j: nat, f: nat | SpoiltAt(run, k, j, dir, c, f) ensures !ArchiveHolds(w'.archive, dir, c) {
      WholeIsNotSpoilt(w, j, w', dir, c, f);
    }
    assert Step(w, w');
    if Forgets(w, w') {
      ForgettingLosesNothing(w, i, dir, c, w');
    } else {
      var j: nat :| StepAt(w, j, w') || RestoreGivesUpAt(w, j, w');
      StepsAreSlotSteps(w, j, w');
      if j == i {
        OwnStepLoses(w, i, w', dir, c);
      } else {
        OthersStepLoses(w, i, j, w', dir, c);
        assert forall f: nat :: Spoils(w, j, w', dir, c, f) ==> SpoiltAt(run, k, j, dir, c, f);
      }
    }
  }

  lemma ForgettingLosesNothing(w: World, i: nat, dir: Path, c: Cut, w': World)
    requires Forgets(w, w') && i < |w.slots| && Saving(w.slots[i], dir, c)
    requires SomewhereWhole(w.slots[i], w.archive, dir, c)
    requires Sound(w.slots[i]) && DirOk(w.slots[i])
    ensures w'.slots == w.slots && SomewhereWhole(w'.slots[i], w'.archive, dir, c)
    ensures w.slots[i].act.value.stage.Register? ==> ArchiveHolds(w'.archive, dir, c)
    ensures w.slots[i].act.value.stage.RemoveDir? ==> DirHolds(w'.slots[i], c)
  {
  }

  // A VM being saved has its own files until it removes them.
  lemma WholeUntilRemoved(s: Slot, ar: Archive, dir: Path, c: Cut)
    requires Sound(s) && DirOk(s) && Saving(s, dir, c)
    ensures s.act.value.stage.Register? ==> s.dir.None?
    ensures !s.act.value.stage.Register? ==> DirHolds(s, c)
    ensures s.act.value.stage.CopyOut? ==> s.act.value.stage.k < |SNAPSHOT_FILES|
  {
  }

  lemma OwnStepLoses(w: World, i: nat, w': World, dir: Path, c: Cut)
    requires i < |w.slots| && (StepAt(w, i, w') || RestoreGivesUpAt(w, i, w'))
    requires Sound(w.slots[i]) && DirOk(w.slots[i]) && Saving(w.slots[i], dir, c)
    requires SomewhereWhole(w.slots[i], w.archive, dir, c)
    ensures |w'.slots| == |w.slots|
    ensures w.slots[i].act.value.stage.Register? || w.slots[i].act.value.stage.RemoveDir? ==>
              w'.archive.dirs == w.archive.dirs
    ensures !w.slots[i].act.value.stage.RemoveDir? ==> SomewhereWhole(w'.slots[i], w'.archive, dir, c)
  {
    var s, s', ar, ar' := w.slots[i], w'.slots[i], w.archive, w'.archive;
    WholeUntilRemoved(s, ar, dir, c);
    if Advance(s, ar, s', ar') {
      OwnAdvanceLoses(s, ar, s', ar', dir, c);
    }
  }

  lemma OwnAdvanceLoses(s: Slot, ar: Archive, s': Slot, ar': Archive, dir: Path, c: Cut)
    requires Sound(s) && DirOk(s) && Saving(s, dir, c) && Advance(s, ar, s', ar')
    ensures s.act.value.stage.Register? || s.act.value.stage.RemoveDir? ==> ar'.dirs == ar.dirs
    ensures !s.act.value.stage.RemoveDir? && DirHolds(s, c) ==> DirHolds(s', c)
  {
  }

  lemma OthersStepLoses(w: World, i: nat, j: nat, w': World, dir: Path, c: Cut)
    requires i < |w.slots| && j != i && (StepAt(w, j, w') || RestoreGivesUpAt(w, j, w'))
    requires Sound(w.slots[i]) && DirOk(w.slots[i]) && Saving(w.slots[i], dir, c)
    requires SomewhereWhole(w.slots[i], w.archive, dir, c)
    ensures |w'.slots| == |w.slots| && w'.slots[i] == w.slots[i]
    ensures !SomewhereWhole(w'.slots[i], w'.archive, dir, c) ==>
              w.slots[i].act.value.stage.Register? && exists f: nat :: Spoils(w, j, w', dir, c, f)
  {
    hide StepAt, RestoreGivesUpAt, Sound, Has, DirOk, Spoils;
    StepsAreSlotSteps(w, j, w');
    WholeUntilRemoved(w.slots[i], w.archive, dir, c);
    if w.slots[i].act.value.stage.Register? {
      SpoiltOnlyByCopies(w, j, w', dir, c, 0);
      SpoiltOnlyByCopies(w, j, w', dir, c, 1);
      SpoiltOnlyByCopies(w, j, w', dir, c, 2);
    }
  }

  // A directory that holds the cut is not spoilt.
  lemma WholeIsNotSpoilt(w: World, j: nat, w': World, dir: Path, c: Cut, f: nat)
    requires Spoils(w, j, w', dir, c, f)
    ensures !ArchiveHolds(w'.archive, dir, c)
  {
  }

  // How many of its files a VM being saved has copied out.
  function CopiedOut(stage: Stage): nat {
    match stage
    case MakeSnapshotDir => 0
    case CopyOut(k) => k
    case _ => |SNAPSHOT_FILES|
  }

  // They are still in the snapshot directory as they were copied.
  predicate CopiesStand(s: Slot, ar: Archive, dir: Path, c: Cut)
    requires Saving(s, dir, c)
  {
    s.act.value.stage.MakeSnapshotDir? || (dir in ar.dirs && HasFirst(ar.dirs[dir], c, CopiedOut(s.act.value.stage)))
  }

  // As long as the command goes on, its copies are spoilt exactly when another command with the
  // same directory copies out, over one of them, other bytes.
  lemma CopiesSpoiltExactly(run: seq<World>, k: nat, i: nat, dir: Path, c: Cut)
    requires IsRun(run) && k + 1 < |run| && i < |run[k].slots| && i < |run[k + 1].slots|
    requires Saving(run[k].slots[i], dir, c) && Saving(run[k + 1].slots[i], dir, c)
    requires CopiesStand(run[k].slots[i], run[k].archive, dir, c)
    ensures !CopiesStand(run[k + 1].slots[i], run[k + 1].archive, dir, c) <==>
            exists j: nat, f: nat :: f < CopiedOut(run[k].slots[i].act.value.stage) && SpoiltAt(run, k, j, dir, c, f)
  {
    hide Sound, StepAt, RestoreGivesUpAt, DirOk, Spoils, Has;
    var w, w' := run[k], run[k + 1];
    RunKeepsDirs(run, k);
    RunKeepsSound(run, k);
    RunKeepsDirs(run, k + 1);
    RunKeepsSound(run, k + 1);
    WholeUntilRemoved(w.slots[i], w.archive, dir, c);
    WholeUntilRemoved(w'.slots[i], w'.archive, dir, c);
    assert Step(w, w');
    forall j: nat, f: nat | SpoiltAt(run, k, j, dir, c, f)
      ensures dir in w'.archive.dirs && f < |SNAPSHOT_FILES| && !Has(w'.archive.dirs[dir], c, SNAPSHOT_FILES[f])
    {
      SpoiltMeansWrong(w, j, w', dir, c, f);
    }
    if !Forgets(w, w') {
      var j: nat :| StepAt(w, j, w') || RestoreGivesUpAt(w, j, w');
      StepsAreSlotSteps(w, j, w');
      if j == i {
        OwnStepCopies(w, i, w', dir, c);
      }
      var n := CopiedOut(w.slots[i].act.value.stage);
      forall f: nat | f < n
        ensures dir in w'.archive.dirs
        ensures SpoiltAt(run, k, j, dir, c, f) <==> Spoils(w, j, w', dir, c, f)
        ensures Has(w'.archive.dirs[dir], c, SNAPSHOT_FILES[f]) <==> !Spoils(w, j, w', dir, c, f)
      {
        SpoiltOnlyByCopies(w, j, w', dir, c, f);
      }
      DirsStay(w, j, w');
    }
    if dir in w.archive.dirs {
      FilesByNumber(w.archive, dir, c, CopiedOut(w.slots[i].act.value.stage));
    }
    if dir in w'.archive.dirs {
      FilesByNumber(w'.archive, dir, c, CopiedOut(w'.slots[i].act.value.stage));
    }
  }

  lemma FilesByNumber(ar: Archive, dir: Path, c: Cut, n: nat)
    requires n <= |SNAPSHOT_FILES| && dir in ar.dirs
    ensures HasFirst(ar.dirs[dir], c, n) <==> forall f :: 0 <= f < n ==> Has(ar.dirs[dir], c, SNAPSHOT_FILES[f])
  {
    hide Has;
    assert SNAPSHOT_FILES[0] == SnapshotBin && SNAPSHOT_FILES[1] == MemBin && SNAPSHOT_FILES[2] == Rootfs;
  }

  lemma DirsStay(w: World, j: nat, w': World)
    requires StepAt(w, j, w') || RestoreGivesUpAt(w, j, w')
    ensures w.archive.dirs.Keys <= w'.archive.dirs.Keys
  {
    hide Has;
    StepIsLocal(w, j, w');
    var s, s', ar, ar' := w.slots[j], w'.slots[j], w.archive, w'.archive;
    if Advance(s, ar, s', ar') {
      AdvanceDirsStay(s, ar, s', ar');
    }
  }

  lemma AdvanceDirsStay(s: Slot, ar: Archive, s': Slot, ar': Archive)
    requires Advance(s, ar, s', ar')
    ensures ar.dirs.Keys <= ar'.dirs.Keys
  {
  }

  lemma SpoiltMeansWrong(w: World, j: nat, w': World, dir: Path, c: Cut, f: nat)
    requires Spoils(w, j, w', dir, c, f)
    ensures f < |SNAPSHOT_FILES| && dir in w'.archive.dirs && !Has(w'.archive.dirs[dir], c, SNAPSHOT_FILES[f])
  {
  }

  // A step of the VM's own command adds at most the next copy, and a right one.
  lemma OwnStepCopies(w: World, i: nat, w': World, dir: Path, c: Cut)
    requires i < |w.slots| && (StepAt(w, i, w') || RestoreGivesUpAt(w, i, w'))
    requires Sound(w.slots[i]) && DirOk(w.slots[i]) && Saving(w.slots[i], dir, c)
    requires SlotStep(w, i, w') && Saving(w'.slots[i], dir, c)
    ensures var n, n' := CopiedOut(w.slots[i].act.value.stage), CopiedOut(w'.slots[i].act.value.stage);
            && n <= n' <= n + 1
            && (n' > n ==> dir in w'.archive.dirs && Has(w'.archive.dirs[dir], c, SNAPSHOT_FILES[n]))
            && (w.slots[i].act.value.stage.MakeSnapshotDir? && !w'.slots[i].act.value.stage.MakeSnapshotDir? ==>
                  dir in w'.archive.dirs)
  {
    var s, s', ar, ar' := w.slots[i], w'.slots[i], w.archive, w'.archive;
    if Advance(s, ar, s', ar') {
      OwnAdvanceCopies(s, ar, s', ar', dir, c);
    }
  }

  lemma OwnAdvanceCopies(s: Slot, ar: Archive, s': Slot, ar': Archive, dir: Path, c: Cut)
    requires Sound(s) && DirOk(s) && Saving(s, dir, c) && Saving(s', dir, c) && Advance(s, ar, s', ar')
    ensures var n, n' := CopiedOut(s.act.value.stage), CopiedOut(s'.act.value.stage);
            && n <= n' <= n + 1
            && (n' > n ==> dir in ar'.dirs && Has(ar'.dirs[dir], c, SNAPSHOT_FILES[n]))
            && (s.act.value.stage.MakeSnapshotDir? && !s'.act.value.stage.MakeSnapshotDir? ==> dir in ar'.dirs)
  {
  }

  ghost predicate UnspoiltUntil(run: seq<World>, a: nat, m: nat, dir: Path, c: Cut)
    requires a <= m < |run|
  {
    forall k: nat, j: nat, f: nat :: a <= k < m ==> !SpoiltAt(run, k, j, dir, c, f)
  }

  // The command stays between the creation of the snapshot and the removal of the row.
  ghost predicate SavingUntil(run: seq<World>, a: nat, m: nat, i: nat, dir: Path, c: Cut)
    requires a <= m < |run|
  {
    forall k :: a <= k <= m ==> i < |run[k].slots| && Saving(run[k].slots[i], dir, c)
  }

  // So a snapshot command whose copies no other command spoils brings a whole copy to the
  // registration of its name, without any assumption on who uses which name or directory.
  lemma {:induction false} UnspoiltCopiesStand(run: seq<World>, a: nat, m: nat, i: nat, dir: Path, c: Cut)
    requires IsRun(run) && a <= m < |run|
    requires UnspoiltUntil(run, a, m, dir, c) && SavingUntil(run, a, m, i, dir, c)
    requires run[a].slots[i].act.value.stage.MakeSnapshotDir?
    ensures CopiesStand(run[m].slots[i], run[m].archive, dir, c)
    ensures run[m].slots[i].act.value.stage.Register? ==> ArchiveHolds(run[m].archive, dir, c)
  {
    hide IsRun, SpoiltAt, Has;
    if a < m {
      UnspoiltCopiesStand(run, a, m - 1, i, dir, c);
      assert run[m - 1 + 1] == run[m];
      CopiesSpoiltExactly(run, m - 1, i, dir, c);
    }
  }
}
