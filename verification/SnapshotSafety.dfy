// Snapshots as consistent cuts: what is saved is one instant of one VM, a whole copy of it exists
// at every point of the command, and a restore brings exactly that instant back. All of it rests
// on no command saving into a directory that another command uses or a registered snapshot has,
// which nothing in the source enforces; for names that are single path elements it is enough that
// no two commands use one name at once.
module SnapshotSafety {
  import opened Wrappers
  import opened Ledger
  import opened Lifecycle
  import opened SnapshotPaths
  import opened LifecycleSafety

  // What each file of a snapshot must hold.
  function CutFile(c: Cut, f: File): Bytes {
    match f
    case SnapshotBin => c.guest.devices
    case MemBin => c.guest.memory
    case Rootfs => c.rootfs
  }

  predicate Has(fs: Files, c: Cut, f: File) {
    f in fs && fs[f] == CutFile(c, f)
  }

  predicate HasFirst(fs: Files, c: Cut, k: nat) {
    (k > 0 ==> Has(fs, c, SnapshotBin)) && (k > 1 ==> Has(fs, c, MemBin)) && (k > 2 ==> Has(fs, c, Rootfs))
  }

  // All three files, each with its content at the instant of the cut.
  predicate HoldsCut(fs: Files, c: Cut) {
    HasFirst(fs, c, |SNAPSHOT_FILES|)
  }

  predicate DirHolds(s: Slot, c: Cut) {
    s.dir.Some? && HoldsCut(s.dir.value, c)
  }

  predicate ArchiveHolds(ar: Archive, dir: Path, c: Cut) {
    dir in ar.dirs && HoldsCut(ar.dirs[dir], c)
  }

  // From the pause on, the guest stands still: it is paused or gone, and its disk is the cut's.
  predicate Frozen(s: Slot, c: Cut) {
    && (s.unit.Some? ==> s.unit == Some(Paused(c.guest)))
    && s.dir.Some? && Has(s.dir.value, c, Rootfs)
  }

  // ----- The commands that use a snapshot directory

  predicate Saves(s: Slot, dir: Path) {
    s.act.Some? && s.act.value.command.Snapshot? && s.act.value.command.dir == dir
  }

  predicate Uses(s: Slot, dir: Path) {
    && s.act.Some? && (s.act.value.command.Snapshot? || s.act.value.command.Restore?)
    && s.act.value.command.dir == dir
  }

  // The command has not registered its snapshot yet.
  predicate Writing(s: Slot, dir: Path) {
    Saves(s, dir) && !s.act.value.stage.DropRow?
  }

  // The assumption: while a snapshot is being saved into a directory, no other command uses the
  // directory, and until it is registered no registered snapshot is kept there.
  ghost predicate DirsExclusive(w: World) {
    && (forall i, j, dir :: 0 <= i < |w.slots| && 0 <= j < |w.slots| && i != j ==>
                              !(Saves(w.slots[i], dir) && Uses(w.slots[j], dir)))
    && (forall i, name :: 0 <= i < |w.slots| && name in w.archive.registered ==>
                            !Writing(w.slots[i], w.archive.registered[name].dir))
  }

  // ----- Invariant

  // What a VM being saved keeps of itself: from the creation of the snapshot to the removal of its
  // directory, the three files are there as they were at the cut.
  predicate SaveDirOk(s: Slot, stage: Stage, cut: Option<Cut>) {
    && (!stage.Pause? ==> cut.Some?)
    && match stage
       case Create => Frozen(s, cut.value)
       case MakeSnapshotDir => Frozen(s, cut.value) && DirHolds(s, cut.value)
       case CopyOut(_) => Frozen(s, cut.value) && DirHolds(s, cut.value)
       case StopUnit => Frozen(s, cut.value) && DirHolds(s, cut.value)
       case StopForwards(_) => Frozen(s, cut.value) && DirHolds(s, cut.value)
       case DeleteTap => Frozen(s, cut.value) && DirHolds(s, cut.value)
       case RemoveDir => s.unit.None? && DirHolds(s, cut.value)
       case _ => true
  }

  // What the snapshot directory has of it so far.
  predicate SaveOk(ar: Archive, name: string, dir: Path, stage: Stage, cut: Option<Cut>)
    requires !stage.Pause? ==> cut.Some?
  {
    && dir == DirOf(ar.dataDir, name)
    && (!stage.DropRow? ==> name !in ar.registered)
    && match stage
       case CopyOut(k) => dir in ar.dirs && HasFirst(ar.dirs[dir], cut.value, k)
       case StopUnit => ArchiveHolds(ar, dir, cut.value)
       case StopForwards(_) => ArchiveHolds(ar, dir, cut.value)
       case DeleteTap => ArchiveHolds(ar, dir, cut.value)
       case RemoveDir => ArchiveHolds(ar, dir, cut.value)
       case Register => ArchiveHolds(ar, dir, cut.value)
       case _ => true
  }

  // A restore on a slot with a leftover tap never gets past adding its own, so what a leftover
  // guest does to its directory does not matter.
  predicate RestoreOk(s: Slot, ar: Archive, dir: Path, stage: Stage, cut: Option<Cut>) {
    && cut.Some?
    && match stage
       case MakeDir => ArchiveHolds(ar, dir, cut.value)
       case CopyIn(k) =>
         && ArchiveHolds(ar, dir, cut.value) && s.dir.Some?
         && (!s.tap ==> HasFirst(s.dir.value, cut.value, k))
       case AddTap => !s.tap ==> DirHolds(s, cut.value)
       case Launch => DirHolds(s, cut.value)
       case Boot => DirHolds(s, cut.value)
       case _ => true
  }

  predicate SlotOk(s: Slot, ar: Archive) {
    s.act.Some? ==>
      var a := s.act.value;
      match a.command
      case Snapshot(name, dir) => SaveDirOk(s, a.stage, a.cut) && SaveOk(ar, name, dir, a.stage, a.cut)
      case Restore(_, dir) => RestoreOk(s, ar, dir, a.stage, a.cut)
      case _ => true
  }

  // Every registered name stands for a cut, and its directory holds exactly that cut.
  predicate ArchiveOk(ar: Archive) {
    && ar.registered.Keys == ar.cuts.Keys
    && forall name :: name in ar.registered ==> ArchiveHolds(ar, ar.registered[name].dir, ar.cuts[name])
  }

  predicate AllOk(w: World) {
    AllSound(w) && ArchiveOk(w.archive) && forall i :: 0 <= i < |w.slots| ==> SlotOk(w.slots[i], w.archive)
  }

  // Nothing registered is kept where this command writes.
  ghost predicate WritesApart(s: Slot, ar: Archive) {
    forall name :: name in ar.registered ==> !Writing(s, ar.registered[name].dir)
  }

  lemma BringUpKeepsOk(s: Slot, ar: Archive, s': Slot)
    requires Sound(s) && SlotOk(s, ar) && s.act.Some? && BringUp(s, ar, s')
    ensures SlotOk(s', ar)
  {
  }

  lemma TearDownKeepsOk(s: Slot, ar: Archive, s': Slot)
    requires Sound(s) && SlotOk(s, ar) && s.act.Some? && TearDown(s, s')
    ensures SlotOk(s', ar)
  {
  }

  lemma TakeSnapshotKeepsOk(s: Slot, ar: Archive, s': Slot, ar': Archive)
    requires Sound(s) && SlotOk(s, ar) && ArchiveOk(ar)
    requires s.act.Some? && s.act.value.command.Snapshot? && TakeSnapshot(s, ar, s', ar')
    requires WritesApart(s, ar)
    ensures SlotOk(s', ar') && ArchiveOk(ar')
  {
    hide Sound, SlotOk, ArchiveOk, TakeSnapshot;
    SavingKeepsSlot(s, ar, s', ar');
    SavingKeepsArchive(s, ar, s', ar');
  }

  lemma SavingKeepsSlot(s: Slot, ar: Archive, s': Slot, ar': Archive)
    requires Sound(s) && SlotOk(s, ar)
    requires s.act.Some? && s.act.value.command.Snapshot? && TakeSnapshot(s, ar, s', ar')
    ensures SlotOk(s', ar')
  {
    hide SaveDirOk, SaveOk, Sound;
    SavingKeepsDir(s, ar, s', ar');
    SavingKeepsCopies(s, ar, s', ar');
  }

  lemma SavingKeepsDir(s: Slot, ar: Archive, s': Slot, ar': Archive)
    requires Sound(s) && SlotOk(s, ar)
    requires s.act.Some? && s.act.value.command.Snapshot? && TakeSnapshot(s, ar, s', ar')
    ensures s'.act.Some? && s'.act.value.command == s.act.value.command
    ensures SaveDirOk(s', s'.act.value.stage, s'.act.value.cut)
  {
    hide SaveOk;
  }

  lemma SavingKeepsCopies(s: Slot, ar: Archive, s': Slot, ar': Archive)
    requires SlotOk(s, ar)
    requires s.act.Some? && s.act.value.command.Snapshot? && TakeSnapshot(s, ar, s', ar')
    ensures s'.act.Some? && s'.act.value.command == s.act.value.command
    ensures !s'.act.value.stage.Pause? ==> s'.act.value.cut.Some?
    ensures var a := s'.act.value;
            SaveOk(ar', a.command.name, a.command.dir, a.stage, a.cut)
  {
  }

  lemma SavingKeepsArchive(s: Slot, ar: Archive, s': Slot, ar': Archive)
    requires SlotOk(s, ar) && ArchiveOk(ar) && WritesApart(s, ar)
    requires s.act.Some? && s.act.value.command.Snapshot? && TakeSnapshot(s, ar, s', ar')
    ensures ArchiveOk(ar')
  {
  }

  // What a step may do to the archive: only to the directory and the name of its own snapshot
  // command.
  ghost predicate ArchiveChangesOnlyAt(s: Slot, ar: Archive, ar': Archive) {
    ar' == ar ||
    (&& s.act.Some? && s.act.value.command.Snapshot? && ar'.dataDir == ar.dataDir
     && var name, dir := s.act.value.command.name, s.act.value.command.dir;
        && (forall d :: d != dir ==> (d in ar.dirs <==> d in ar'.dirs) && (d in ar.dirs ==> ar'.dirs[d] == ar.dirs[d]))
        && (forall n :: n != name ==>
              (n in ar.registered <==> n in ar'.registered) && (n in ar.registered ==> ar'.registered[n] == ar.registered[n])))
  }

  lemma ChangeIsLocal(s: Slot, ar: Archive, s': Slot, ar': Archive)
    requires Advance(s, ar, s', ar') || Fail(s, ar, s', ar')
    ensures ArchiveChangesOnlyAt(s, ar, ar')
  {
  }

  // A failed operation ends its command; the archive still holds every registered cut.
  lemma FailKeepsArchive(s: Slot, ar: Archive, s': Slot, ar': Archive)
    requires SlotOk(s, ar) && ArchiveOk(ar) && Sound(s) && WritesApart(s, ar)
    requires Fail(s, ar, s', ar') || FailDroppingRow(s, ar, s', ar')
    ensures ArchiveOk(ar') && SlotOk(s', ar')
  {
  }

  // A command that shares no directory with the one that moved is not affected by it.
  lemma OthersStayOk(s: Slot, ar: Archive, ar': Archive, t: Slot)
    requires ArchiveChangesOnlyAt(s, ar, ar') && SlotOk(s, ar) && SlotOk(t, ar)
    requires forall dir :: !(Saves(s, dir) && Uses(t, dir))
    ensures SlotOk(t, ar')
  {
    if ar' != ar {
      var dir := s.act.value.command.dir;
      assert Saves(s, dir) && !Uses(t, dir);
    }
  }

  lemma StepKeepsOk(w: World, i: nat, w': World)
    requires AllOk(w) && DirsExclusive(w) && (StepAt(w, i, w') || RestoreGivesUpAt(w, i, w'))
    ensures AllOk(w')
  {
    hide Sound, SlotOk, ArchiveOk, Advance, PartOf, Saves, Uses, Writing, WritesApart;
    MovesApart(w, i);
    var s, s', ar, ar' := w.slots[i], w'.slots[i], w.archive, w'.archive;
    StepKeepsSound(w, i, w');
    MovedSlotOk(w, i, w');
    StepIsLocal(w, i, w');
    forall j | 0 <= j < |w.slots| && j != i ensures SlotOk(w'.slots[j], ar') {
      OthersStayOk(s, ar, ar', w.slots[j]);
    }
  }

  lemma MovesApart(w: World, i: nat)
    requires DirsExclusive(w) && i < |w.slots|
    ensures WritesApart(w.slots[i], w.archive)
  {
  }

  lemma StepIsLocal(w: World, i: nat, w': World)
    requires StepAt(w, i, w') || RestoreGivesUpAt(w, i, w')
    ensures ArchiveChangesOnlyAt(w.slots[i], w.archive, w'.archive)
  {
    hide Advance, ArchiveChangesOnlyAt;
    var s, s', ar, ar' := w.slots[i], w'.slots[i], w.archive, w'.archive;
    if Advance(s, ar, s', ar') {
      ChangeIsLocal(s, ar, s', ar');
    } else if Fail(s, ar, s', ar') {
      ChangeIsLocal(s, ar, s', ar');
    } else if FailDroppingRow(s, ar, s', ar') {
      var m :| PartOf(s, ar, m, ar') && s' == End(m).(row := None);
      assert Fail(s, ar, End(m), ar');
      ChangeIsLocal(s, ar, End(m), ar');
    } else {
      assert ArchiveChangesOnlyAt(s, ar, ar') by { NoChange(s, ar); }
    }
  }

  lemma NoChange(s: Slot, ar: Archive)
    ensures ArchiveChangesOnlyAt(s, ar, ar)
  {
  }

  lemma MovedSlotOk(w: World, i: nat, w': World)
    requires AllOk(w) && (StepAt(w, i, w') || RestoreGivesUpAt(w, i, w'))
    requires i < |w.slots| && WritesApart(w.slots[i], w.archive)
    ensures SlotOk(w'.slots[i], w'.archive) && ArchiveOk(w'.archive)
  {
    hide WritesApart;
    var s, s', ar, ar' := w.slots[i], w'.slots[i], w.archive, w'.archive;
    assert Sound(s) && SlotOk(s, ar);
    if RestoreGivesUpAt(w, i, w') || Fail(s, ar, s', ar') {
      FailKeepsArchive(s, ar, s', ar');
    } else if Advance(s, ar, s', ar') {
      AdvanceKeepsOk(s, ar, s', ar');
    } else if StartsRestore(w, i, w') {
      assert ArchiveOk(ar);
    } else {
      QuietStepKeepsOk(s, ar, s');
    }
  }

  lemma AdvanceKeepsOk(s: Slot, ar: Archive, s': Slot, ar': Archive)
    requires Sound(s) && SlotOk(s, ar) && ArchiveOk(ar) && WritesApart(s, ar) && Advance(s, ar, s', ar')
    ensures SlotOk(s', ar') && ArchiveOk(ar')
  {
    hide Sound, SlotOk, ArchiveOk, WritesApart, BringUp, TearDown, TakeSnapshot;
    if BringUp(s, ar, s') && ar' == ar {
      BringUpKeepsOk(s, ar, s');
    } else if TearDown(s, s') && ar' == ar {
      TearDownKeepsOk(s, ar, s');
    } else {
      TakeSnapshotKeepsOk(s, ar, s', ar');
    }
  }

  lemma QuietStepKeepsOk(s: Slot, ar: Archive, s': Slot)
    requires Sound(s) && SlotOk(s, ar)
    requires
      || Begin(s, ar, s') || StopsInVain(s, s') || Die(s, s') || UnitDies(s, s') || ForwardDies(s, s') || GuestWrites(s, s')
      || (exists image, row :: Allocated(s, s', Run(image), row, None))
    ensures SlotOk(s', ar)
  {
  }

  lemma ForgettingKeepsOk(w: World, w': World)
    requires AllOk(w) && Forgets(w, w')
    ensures AllOk(w')
  {
  }

  // ----- Main results

  ghost predicate ExclusiveUntil(run: seq<World>, k: nat)
    requires k < |run|
  {
    forall j :: 0 <= j < k ==> DirsExclusive(run[j])
  }

  lemma {:induction false} RunKeepsOk(run: seq<World>, k: nat)
    requires IsRun(run) && k < |run| && ExclusiveUntil(run, k)
    ensures AllOk(run[k])
  {
    hide Sound, SlotOk, AllSound, DirsExclusive;
    if k == 0 {
      InitiallyOk(run[0].archive.dataDir);
    } else {
      RunKeepsOk(run, k - 1);
      var w, w' := run[k - 1], run[k];
      assert Step(w, w');
      if Forgets(w, w') {
        ForgettingKeepsOk(w, w');
      } else {
        var i: nat :| StepAt(w, i, w') || RestoreGivesUpAt(w, i, w');
        StepKeepsOk(w, i, w');
      }
    }
  }

  lemma InitiallyOk(dataDir: Path)
    ensures AllOk(InitialWorld(dataDir))
  {
  }

  // At every point of every run, each registered snapshot's directory holds all three files of
  // the one instant the name stands for.
  lemma RegisteredSnapshotsAreWhole(run: seq<World>, k: nat, name: string)
    requires IsRun(run) && k < |run| && ExclusiveUntil(run, k)
    requires name in run[k].archive.registered
    ensures name in run[k].archive.cuts
    ensures ArchiveHolds(run[k].archive, run[k].archive.registered[name].dir, run[k].archive.cuts[name])
  {
    RunKeepsOk(run, k);
  }

  // The VM has been written out but its command has not ended.
  predicate Saving(s: Slot, dir: Path, c: Cut) {
    && Saves(s, dir) && s.act.value.cut == Some(c)
    && !s.act.value.stage.Pause? && !s.act.value.stage.Create? && !s.act.value.stage.DropRow?
  }

  predicate SomewhereWhole(s: Slot, ar: Archive, dir: Path, c: Cut) {
    DirHolds(s, c) || ArchiveHolds(ar, dir, c)
  }

  // A snapshot never loses the VM: at every point of every run from the moment the snapshot is
  // created to the registration of its name, a whole copy of the cut is in the VM directory or in
  // the snapshot directory, and still is after the next step of the system: the operation
  // succeeding, failing half-way or being killed, or anything another VM does.
  lemma SnapshotNeverLosesTheVm(run: seq<World>, k: nat, i: nat, dir: Path, c: Cut)
    requires IsRun(run) && k + 1 < |run| && ExclusiveUntil(run, k + 1)
    requires i < |run[k].slots| && Saving(run[k].slots[i], dir, c)
    ensures SomewhereWhole(run[k].slots[i], run[k].archive, dir, c)
    ensures i < |run[k + 1].slots| && SomewhereWhole(run[k + 1].slots[i], run[k + 1].archive, dir, c)
  {
    hide AllOk, Saving, SomewhereWhole, DirsExclusive;
    var w, w' := run[k], run[k + 1];
    RunKeepsOk(run, k);
    SlotsOk(w, i);
    SavingMeansWhole(w.slots[i], w.archive, dir, c);
    assert Step(w, w');
    if Forgets(w, w') {
      ForgettingKeepsCopies(w, i, dir, c, w');
    } else {
      var j: nat :| StepAt(w, j, w') || RestoreGivesUpAt(w, j, w');
      StepKeepsCopy(w, i, dir, c, j, w');
    }
  }

  lemma ForgettingKeepsCopies(w: World, i: nat, dir: Path, c: Cut, w': World)
    requires i < |w.slots| && SomewhereWhole(w.slots[i], w.archive, dir, c) && Forgets(w, w')
    ensures i < |w'.slots| && SomewhereWhole(w'.slots[i], w'.archive, dir, c)
  {
  }

  lemma StepKeepsCopy(w: World, i: nat, dir: Path, c: Cut, j: nat, w': World)
    requires AllOk(w) && DirsExclusive(w) && i < |w.slots| && Saving(w.slots[i], dir, c)
    requires StepAt(w, j, w') || RestoreGivesUpAt(w, j, w')
    ensures i < |w'.slots| && SomewhereWhole(w'.slots[i], w'.archive, dir, c)
  {
    hide AllSound, Sound, StepAt, RestoreGivesUpAt, ArchiveOk, DirsExclusive;
    var s := w.slots[i];
    SlotsOk(w, i);
    StepsAreSlotSteps(w, j, w');
    if j == i {
      SavingStepKeepsCopy(w, i, dir, c, w');
    } else {
      StepIsLocal(w, j, w');
      ExclusiveAt(w, j, i);
      OthersStayOk(w.slots[j], w.archive, w'.archive, s);
      SavingMeansWhole(s, w'.archive, dir, c);
    }
  }

  lemma SavingMeansWhole(s: Slot, ar: Archive, dir: Path, c: Cut)
    requires Sound(s) && SlotOk(s, ar) && Saving(s, dir, c)
    ensures SomewhereWhole(s, ar, dir, c)
  {
  }

  lemma SlotsOk(w: World, i: nat)
    requires AllOk(w) && i < |w.slots|
    ensures Sound(w.slots[i]) && SlotOk(w.slots[i], w.archive)
  {
  }

  lemma ExclusiveAt(w: World, j: nat, i: nat)
    requires DirsExclusive(w) && i < |w.slots| && j < |w.slots| && i != j
    ensures forall dir :: !(Saves(w.slots[j], dir) && Uses(w.slots[i], dir))
  {
  }

  lemma SavingStepKeepsCopy(w: World, i: nat, dir: Path, c: Cut, w': World)
    requires AllOk(w) && i < |w.slots| && Saving(w.slots[i], dir, c)
    requires StepAt(w, i, w') || RestoreGivesUpAt(w, i, w')
    ensures SomewhereWhole(w'.slots[i], w'.archive, dir, c)
  {
    var s, s', ar, ar' := w.slots[i], w'.slots[i], w.archive, w'.archive;
    assert Sound(s) && SlotOk(s, ar);
    assert !Begin(s, ar, s') && s.row.Some? && !FailDroppingRow(s, ar, s', ar');
    if Advance(s, ar, s', ar') {
      AdvanceKeepsCopy(s, ar, s', ar', dir, c);
    } else if Fail(s, ar, s', ar') {
      FailKeepsCopy(s, ar, s', ar', dir, c);
    }
  }

  lemma AdvanceKeepsCopy(s: Slot, ar: Archive, s': Slot, ar': Archive, dir: Path, c: Cut)
    requires Sound(s) && SlotOk(s, ar) && Saving(s, dir, c) && Advance(s, ar, s', ar')
    ensures SomewhereWhole(s', ar', dir, c)
  {
  }

  lemma FailKeepsCopy(s: Slot, ar: Archive, s': Slot, ar': Archive, dir: Path, c: Cut)
    requires Sound(s) && SlotOk(s, ar) && Saving(s, dir, c) && Fail(s, ar, s', ar')
    ensures SomewhereWhole(s', ar', dir, c)
  {
  }

  // A restore starts the guest exactly where the snapshot paused it: same device state, same
  // memory, same disk.
  lemma RestoreResumesTheCut(run: seq<World>, k: nat, i: nat)
    requires IsRun(run) && k + 1 < |run| && ExclusiveUntil(run, k) && SlotStep(run[k], i, run[k + 1])
    requires run[k].slots[i].act.Some?
    requires run[k].slots[i].act.value.command.Restore? && run[k].slots[i].act.value.stage.Boot?
    requires Advance(run[k].slots[i], run[k].archive, run[k + 1].slots[i], run[k + 1].archive)
    ensures var cut, s' := run[k].slots[i].act.value.cut, run[k + 1].slots[i];
            && cut.Some?
            && s'.unit == Some(Running(cut.value.guest))
            && s'.dir.Some? && Has(s'.dir.value, cut.value, Rootfs)
  {
    hide AllOk, DirsExclusive;
    RunKeepsOk(run, k);
    SlotsOk(run[k], i);
  }

  // ----- Every cut is an instant of some VM's life

  predicate AtInstant(s: Slot, c: Cut) {
    s.unit == Some(Paused(c.guest)) && s.dir.Some? && Has(s.dir.value, c, Rootfs)
  }

  // A step has paused the VM and left it as it was: before it, the VM had just this memory and this
  // disk, and ran, or was paused already.
  predicate WasPaused(was: Slot, now: Slot, c: Cut) {
    AtInstant(now, c) && LivesAs(was, c)
  }

  predicate LivesAs(s: Slot, c: Cut) {
    && s.unit.Some? && !s.unit.value.Starting? && s.unit.value.guest == c.guest
    && s.dir.Some? && Rootfs in s.dir.value && s.dir.value[Rootfs] == c.rootfs
  }

  ghost predicate WasReal(run: seq<World>, k: nat, c: Cut)
    requires k < |run|
  {
    exists j, i :: 0 < j <= k && 0 <= i < |run[j].slots| && i < |run[j - 1].slots|
                    && WasPaused(run[j - 1].slots[i], run[j].slots[i], c)
  }

  ghost predicate CutsReal(run: seq<World>, k: nat)
    requires k < |run|
  {
    && (forall name :: name in run[k].archive.cuts ==> WasReal(run, k, run[k].archive.cuts[name]))
    && (forall i :: 0 <= i < |run[k].slots| && run[k].slots[i].act.Some? && run[k].slots[i].act.value.cut.Some? ==>
                      WasReal(run, k, run[k].slots[i].act.value.cut.value))
  }

  // No snapshot mixes two moments or two VMs: whatever is registered, or being restored, is the
  // memory and the disk that one VM had together, paused, at one earlier state of the run.
  lemma {:induction false} CutsWereReal(run: seq<World>, k: nat)
    requires IsRun(run) && k < |run|
    ensures CutsReal(run, k)
  {
    hide WasPaused, StepAt, RestoreGivesUpAt, WasReal;
    if k > 0 {
      CutsWereReal(run, k - 1);
      var w, w' := run[k - 1], run[k];
      assert Step(w, run[k - 1 + 1]);
      forall c | WasReal(run, k - 1, c) ensures WasReal(run, k, c) {
        StillReal(run, k, c);
      }
      if !Forgets(w, w') {
        var i: nat :| StepAt(w, i, w') || RestoreGivesUpAt(w, i, w');
        StepCuts(w, i, w');
        forall c: Cut ensures WasPaused(w.slots[i], w'.slots[i], c) ==> WasReal(run, k, c) {
          JustPaused(run, k, i, c);
        }
      }
    }
  }

  lemma StillReal(run: seq<World>, k: nat, c: Cut)
    requires 0 < k < |run| && WasReal(run, k - 1, c)
    ensures WasReal(run, k, c)
  {
    var j, i :| 0 < j <= k - 1 && 0 <= i < |run[j].slots| && i < |run[j - 1].slots|
                && WasPaused(run[j - 1].slots[i], run[j].slots[i], c);
  }

  lemma JustPaused(run: seq<World>, k: nat, i: nat, c: Cut)
    requires 0 < k < |run| && i < |run[k].slots| && i < |run[k - 1].slots|
    ensures WasPaused(run[k - 1].slots[i], run[k].slots[i], c) ==> WasReal(run, k, c)
  {
    hide WasPaused;
  }

  // A step brings in no cut that was not already there, except the one it has just paused.
  lemma StepCuts(w: World, i: nat, w': World)
    requires StepAt(w, i, w') || RestoreGivesUpAt(w, i, w')
    ensures SlotStep(w, i, w')
    ensures forall name :: name in w'.archive.cuts ==>
              || (name in w.archive.cuts && w'.archive.cuts[name] == w.archive.cuts[name])
              || (w.slots[i].act.Some? && w.slots[i].act.value.cut == Some(w'.archive.cuts[name]))
    ensures w'.slots[i].act.Some? && w'.slots[i].act.value.cut.Some? ==>
              var c := w'.slots[i].act.value.cut.value;
              || WasPaused(w.slots[i], w'.slots[i], c)
              || (w.slots[i].act.Some? && w.slots[i].act.value.cut == Some(c))
              || (exists name :: name in w.archive.cuts && w.archive.cuts[name] == c)
  {
    var s, s', ar, ar' := w.slots[i], w'.slots[i], w.archive, w'.archive;
    if Advance(s, ar, s', ar') {
      AdvanceCuts(s, ar, s', ar');
    }
  }

  lemma AdvanceCuts(s: Slot, ar: Archive, s': Slot, ar': Archive)
    requires Advance(s, ar, s', ar')
    ensures forall name :: name in ar'.cuts ==>
              (name in ar.cuts && ar'.cuts[name] == ar.cuts[name]) || s.act.value.cut == Some(ar'.cuts[name])
    ensures s'.act.Some? && s'.act.value.cut.Some? ==>
              || WasPaused(s, s', s'.act.value.cut.value)
              || s.act.value.cut == s'.act.value.cut
  {
  }
}
