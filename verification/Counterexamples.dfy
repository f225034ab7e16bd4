// Runs of the VM lifecycle, from the empty host, that break what one would expect of it.
// - Two VMs saved at the same time under one snapshot name (cmd/snapshot.go): nothing stops both
//   commands, as each only checks that the name is not registered yet, and the first VM is lost
//   although nothing fails.
// - Two VMs saved one after the other under two names that are one directory, like "a" and "a/":
//   the first VM is lost although nothing fails and no two commands are ever under way at once.
// - A restore whose unit does not start (cmd/restore.go): its row is removed, its tap and directory
//   stay.
// - A snapshot that fails after its pause, and leaves the VM suspended.
// - A destroy whose stop was in vain (vm/vm.go:355-370): its row is removed, its unit stays.
module Counterexamples {
  import opened Wrappers
  import opened Ledger
  import opened Lifecycle
  import opened LifecycleSafety
  import opened SnapshotPaths
  import opened SnapshotSafety

  const ROW := Row(1, 256, [])

  function Last(run: seq<World>): World
    requires run != []
  {
    run[|run| - 1]
  }

  // A command starts or one of its operations succeeds.
  ghost predicate SmoothAt(w: World, i: nat, w': World) {
    SlotStep(w, i, w') &&
    (|| StartsRun(w, i, w') || StartsRestore(w, i, w')
     || (Begin(w.slots[i], w.archive, w'.slots[i]) && w'.archive == w.archive)
     || Advance(w.slots[i], w.archive, w'.slots[i], w'.archive))
  }

  ghost predicate SmoothStep(w: World, w': World) {
    exists i: nat :: SmoothAt(w, i, w')
  }

  ghost predicate NothingFails(run: seq<World>) {
    && run != [] && run[0] == InitialWorld(run[0].archive.dataDir)
    && forall k :: 0 <= k < |run| - 1 ==> SmoothStep(run[k], run[k + 1])
  }

  lemma SmoothRunsAreRuns(run: seq<World>)
    requires NothingFails(run)
    ensures IsRun(run)
  {
    hide Advance, StartsRun, StartsRestore, Begin, SlotStep;
    forall k | 0 <= k < |run| - 1 ensures Step(run[k], run[k + 1]) {
      assert SmoothStep(run[k], run[k + 1]);
      var i: nat :| SmoothAt(run[k], i, run[k + 1]);
      assert StepAt(run[k], i, run[k + 1]);
    }
  }

  // No VM but i has a command.
  predicate Alone(w: World, i: nat) {
    forall j :: 0 <= j < |w.slots| && j != i ==> w.slots[j].act.None?
  }

  ghost predicate SomeoneAlone(w: World) {
    exists i: nat :: Alone(w, i)
  }

  ghost predicate OneAtATime(run: seq<World>) {
    forall k :: 0 <= k < |run| ==> SomeoneAlone(run[k])
  }

  // So far at most one command has been under way at any time, and now it is at most VM i's.
  ghost predicate SoloOn(run: seq<World>, i: nat)
    requires run != []
  {
    OneAtATime(run) && Alone(Last(run), i)
  }

  lemma Extended(run: seq<World>, i: nat, w: World) returns (run': seq<World>)
    requires NothingFails(run) && SmoothAt(Last(run), i, w)
    ensures NothingFails(run') && run < run' && Last(run') == w
    ensures SoloOn(run, i) ==> SoloOn(run', i)
  {
    run' := run + [w];
    assert SmoothStep(Last(run), w);
    if SoloOn(run, i) {
      StaysAlone(Last(run), i, w);
      SoloExtends(run, i, w);
    }
  }

  lemma SoloExtends(run: seq<World>, i: nat, w: World)
    requires run != [] && OneAtATime(run) && Alone(w, i)
    ensures SoloOn(run + [w], i)
  {
    hide Alone;
    var longer := run + [w];
    assert Last(longer) == w;
    forall k | 0 <= k < |longer| ensures SomeoneAlone(longer[k]) {
      assert k < |run| ==> longer[k] == run[k];
    }
  }

  lemma StaysAlone(w: World, i: nat, w': World)
    requires SmoothAt(w, i, w') && Alone(w, i)
    ensures Alone(w', i)
  {
    hide Advance, StartsRun, StartsRestore, Begin;
  }

  lemma Advanced(run: seq<World>, i: nat, s': Slot, ar': Archive) returns (run': seq<World>)
    requires NothingFails(run) && i < |Last(run).slots|
    requires Advance(Last(run).slots[i], Last(run).archive, s', ar')
    ensures NothingFails(run') && run < run' && Last(run') == World(Last(run).slots[i := s'], ar')
    ensures SoloOn(run, i) ==> SoloOn(run', i)
  {
    hide Advance;
    var w' := World(Last(run).slots[i := s'], ar');
    assert SmoothAt(Last(run), i, w');
    run' := Extended(run, i, w');
  }

  // ----- One VM's way to a snapshot

  // A snapshot's name and its directory.
  datatype Place = Place(name: string, dir: Path)

  predicate IsPlace(dataDir: Path, p: Place) {
    p.name != "" && Contained(dataDir, p.name) && p.dir == DirOf(dataDir, p.name)
  }

  function CutFiles(c: Cut): Files {
    map[SnapshotBin := c.guest.devices, MemBin := c.guest.memory, Rootfs := c.rootfs]
  }

  function InRun(image: Bytes, tap: bool, unit: Option<Unit>, dir: Option<Files>, stage: Stage): Slot {
    Slot(Some(ROW), tap, unit, {}, dir, Some(Activity(Run(image), stage, ROW, None)))
  }

  function Up(image: Bytes, guest: Guest): Slot {
    Slot(Some(ROW), true, Some(Running(guest)), {}, Some(map[Rootfs := image]), None)
  }

  function InSnapshot(tap: bool, unit: Option<Unit>, files: Option<Files>, stage: Stage, p: Place, c: Cut): Slot {
    Slot(Some(ROW), tap, unit, {}, files, Some(Activity(Snapshot(p.name, p.dir), stage, ROW, Some(c))))
  }

  function PausedWith(stage: Stage, p: Place, c: Cut): Slot {
    InSnapshot(true, Some(Paused(c.guest)), Some(CutFiles(c)), stage, p, c)
  }

  lemma Allocates(run: seq<World>, i: nat, image: Bytes) returns (run': seq<World>)
    requires NothingFails(run) && LowestFreeSlot(Last(run), i) && Last(run).slots[i] == EMPTY_SLOT
    ensures NothingFails(run') && run < run'
    ensures Last(run') == Last(run).(slots := Last(run).slots[i := InRun(image, false, None, None, MakeDir)])
    ensures SoloOn(run, i) ==> SoloOn(run', i)
  {
    var w := Last(run);
    var w' := w.(slots := w.slots[i := InRun(image, false, None, None, MakeDir)]);
    assert Allocated(w.slots[i], w'.slots[i], Run(image), Row(1, 256, []), None);
    assert SmoothAt(w, i, w');
    hide SoloOn;
    run' := Extended(run, i, w');
  }

  // Up to the point where the unit has been started and the guest has not.
  lemma Launches(run: seq<World>, i: nat, image: Bytes) returns (run': seq<World>)
    requires NothingFails(run) && LowestFreeSlot(Last(run), i) && Last(run).slots[i] == EMPTY_SLOT
    ensures NothingFails(run') && run < run'
    ensures Last(run') == Last(run).(slots :=
              Last(run).slots[i := InRun(image, true, Some(Starting), Some(map[Rootfs := image]), Boot)])
    ensures SoloOn(run, i) ==> SoloOn(run', i)
  {
    var slots, ar := Last(run).slots, Last(run).archive;
    hide NothingFails, SoloOn;
    var dir: Option<Files> := Some(map[Rootfs := image]);
    run' := Allocates(run, i, image);
    run' := Advanced(run', i, InRun(image, false, None, Some(map[]), CopyIn(0)), ar);
    run' := Advanced(run', i, InRun(image, false, None, dir, AddTap), ar);
    run' := Advanced(run', i, InRun(image, true, None, dir, Launch), ar);
    run' := Advanced(run', i, InRun(image, true, Some(Starting), dir, Boot), ar);
    assert Last(run').slots == slots[i := InRun(image, true, Some(Starting), dir, Boot)];
  }

  lemma ComesUp(run: seq<World>, i: nat, image: Bytes, guest: Guest) returns (run': seq<World>)
    requires NothingFails(run) && LowestFreeSlot(Last(run), i) && Last(run).slots[i] == EMPTY_SLOT
    ensures NothingFails(run') && run < run'
    ensures Last(run') == Last(run).(slots := Last(run).slots[i := Up(image, guest)])
    ensures SoloOn(run, i) ==> SoloOn(run', i)
  {
    var slots, ar := Last(run).slots, Last(run).archive;
    run' := Launches(run, i, image);
    hide NothingFails, SoloOn;
    run' := Advanced(run', i, InRun(image, true, Some(Running(guest)), Some(map[Rootfs := image]), StartForwards([])), ar);
    run' := Advanced(run', i, Up(image, guest), ar);
    assert Last(run').slots == slots[i := Up(image, guest)];
  }

  lemma BeginsSnapshot(run: seq<World>, i: nat, image: Bytes, guest: Guest, p: Place) returns (run': seq<World>)
    requires NothingFails(run) && i < |Last(run).slots| && Last(run).slots[i] == Up(image, guest)
    requires p.name !in Last(run).archive.registered && IsPlace(Last(run).archive.dataDir, p)
    ensures NothingFails(run') && run < run'
    ensures var s' := Up(image, guest).(act := Some(Activity(Snapshot(p.name, p.dir), Pause, ROW, None)));
            Last(run') == Last(run).(slots := Last(run).slots[i := s'])
    ensures SoloOn(run, i) ==> SoloOn(run', i)
  {
    hide Contained, DirOf;
    var w := Last(run);
    var w' := w.(slots := w.slots[i := w.slots[i].(act := Some(Activity(Snapshot(p.name, p.dir), Pause, ROW, None)))]);
    assert SmoothAt(w, i, w');
    hide SoloOn;
    run' := Extended(run, i, w');
  }

  // It is paused, at the state c of the run numbered `at`, and Firecracker writes its files.
  lemma IsPaused(run: seq<World>, i: nat, image: Bytes, guest: Guest, p: Place)
    returns (run': seq<World>, at: nat)
    requires NothingFails(run) && i < |Last(run).slots| && Last(run).slots[i] == Up(image, guest)
    requires p.name !in Last(run).archive.registered && IsPlace(Last(run).archive.dataDir, p)
    ensures var c := Cut(guest, image);
            && NothingFails(run') && run < run'
            && Last(run') == Last(run).(slots := Last(run).slots[i := PausedWith(MakeSnapshotDir, p, c)])
            && at < |run'| && i < |run'[at].slots| && AtInstant(run'[at].slots[i], c)
    ensures SoloOn(run, i) ==> SoloOn(run', i)
  {
    var c, slots, ar := Cut(guest, image), Last(run).slots, Last(run).archive;
    hide NothingFails, SoloOn, IsPlace;
    run' := BeginsSnapshot(run, i, image, guest, p);
    run' := Advanced(run', i, InSnapshot(true, Some(Paused(guest)), Some(map[Rootfs := image]), Create, p, c), ar);
    at := |run'| - 1;
    var files: Files := map[Rootfs := image];
    assert files[SnapshotBin := guest.devices][MemBin := guest.memory] == CutFiles(c);
    run' := Advanced(run', i, PausedWith(MakeSnapshotDir, p, c), ar);
    assert Last(run').slots == slots[i := PausedWith(MakeSnapshotDir, p, c)];
  }

  lemma CopiesOne(run: seq<World>, i: nat, p: Place, c: Cut, k: nat) returns (run': seq<World>)
    requires NothingFails(run) && i < |Last(run).slots| && k < 3
    requires Last(run).slots[i] == PausedWith(CopyOut(k), p, c) && p.dir in Last(run).archive.dirs
    ensures NothingFails(run') && run < run'
    ensures Last(run').slots == Last(run).slots[i := PausedWith(if k < 2 then CopyOut(k + 1) else StopUnit, p, c)]
    ensures var dirs, f := Last(run).archive.dirs, SNAPSHOT_FILES[k];
            Last(run').archive == Last(run).archive.(dirs := dirs[p.dir := dirs[p.dir][f := CutFiles(c)[f]]])
    ensures SoloOn(run, i) ==> SoloOn(run', i)
  {
    hide SoloOn;
    var ar, f := Last(run).archive, SNAPSHOT_FILES[k];
    run' := Advanced(run, i, PausedWith(if k < 2 then CopyOut(k + 1) else StopUnit, p, c),
                     ar.(dirs := ar.dirs[p.dir := ar.dirs[p.dir][f := CutFiles(c)[f]]]));
  }

  lemma Overwritten(d: Files, fs: Files)
    requires SnapshotBin in fs && MemBin in fs && Rootfs in fs
    ensures d[SnapshotBin := fs[SnapshotBin]][MemBin := fs[MemBin]][Rootfs := fs[Rootfs]] == fs
  {
    var out := d[SnapshotBin := fs[SnapshotBin]][MemBin := fs[MemBin]][Rootfs := fs[Rootfs]];
    forall f: File ensures f in out && f in fs && out[f] == fs[f] {
      match f
      case SnapshotBin =>
      case MemBin =>
      case Rootfs =>
    }
  }

  // The snapshot directory is made, unless it is there, and the three files copied into it.
  lemma CopiesOut(run: seq<World>, i: nat, p: Place, c: Cut) returns (run': seq<World>)
    requires NothingFails(run) && i < |Last(run).slots|
    requires Last(run).slots[i] == PausedWith(MakeSnapshotDir, p, c)
    ensures NothingFails(run') && run < run'
    ensures Last(run').slots == Last(run).slots[i := PausedWith(StopUnit, p, c)]
    ensures Last(run').archive == Last(run).archive.(dirs := Last(run).archive.dirs[p.dir := CutFiles(c)])
    ensures SoloOn(run, i) ==> SoloOn(run', i)
  {
    hide SoloOn;
    var slots, ar, fs := Last(run).slots, Last(run).archive, CutFiles(c);
    var d0: Files := if p.dir in ar.dirs then ar.dirs[p.dir] else map[];
    run' := Advanced(run, i, PausedWith(CopyOut(0), p, c), ar.(dirs := ar.dirs[p.dir := d0]));
    hide NothingFails, Advance;
    run' := CopiesOne(run', i, p, c, 0);
    run' := CopiesOne(run', i, p, c, 1);
    run' := CopiesOne(run', i, p, c, 2);
    Overwritten(d0, fs);
    assert Last(run').archive.dirs == ar.dirs[p.dir := fs];
    assert Last(run').slots == slots[i := PausedWith(StopUnit, p, c)];
  }

  lemma TearDownAdvances(p: Place, c: Cut, ar: Archive)
    ensures var dir := Some(CutFiles(c));
            && Advance(PausedWith(StopUnit, p, c), ar, InSnapshot(true, None, dir, StopForwards([]), p, c), ar)
            && Advance(InSnapshot(true, None, dir, StopForwards([]), p, c), ar, InSnapshot(true, None, dir, DeleteTap, p, c), ar)
            && Advance(InSnapshot(true, None, dir, DeleteTap, p, c), ar, InSnapshot(false, None, dir, RemoveDir, p, c), ar)
            && Advance(InSnapshot(false, None, dir, RemoveDir, p, c), ar, InSnapshot(false, None, None, Register, p, c), ar)
  {
    hide CutFiles;
  }

  lemma TearsDown(run: seq<World>, i: nat, p: Place, c: Cut) returns (run': seq<World>)
    requires NothingFails(run) && i < |Last(run).slots| && Last(run).slots[i] == PausedWith(StopUnit, p, c)
    ensures NothingFails(run') && run < run'
    ensures Last(run') == Last(run).(slots := Last(run).slots[i := InSnapshot(false, None, None, Register, p, c)])
    ensures SoloOn(run, i) ==> SoloOn(run', i)
  {
    var slots, ar, dir := Last(run).slots, Last(run).archive, Some(CutFiles(c));
    TearDownAdvances(p, c, ar);
    hide NothingFails, SoloOn, Advance, InSnapshot, CutFiles;
    run' := Advanced(run, i, InSnapshot(true, None, dir, StopForwards([]), p, c), ar);
    run' := Advanced(run', i, InSnapshot(true, None, dir, DeleteTap, p, c), ar);
    run' := Advanced(run', i, InSnapshot(false, None, dir, RemoveDir, p, c), ar);
    run' := Advanced(run', i, InSnapshot(false, None, None, Register, p, c), ar);
    assert Last(run').slots == slots[i := InSnapshot(false, None, None, Register, p, c)];
  }

  lemma Registers(run: seq<World>, i: nat, p: Place, c: Cut) returns (run': seq<World>)
    requires NothingFails(run) && i < |Last(run).slots| && p.name !in Last(run).archive.registered
    requires Last(run).slots[i] == InSnapshot(false, None, None, Register, p, c)
    ensures NothingFails(run') && run < run' && Last(run').slots == Last(run).slots[i := EMPTY_SLOT]
    ensures var ar := Last(run).archive;
            Last(run').archive == ar.(registered := ar.registered[p.name := Saved(ROW, p.dir)], cuts := ar.cuts[p.name := c])
    ensures SoloOn(run, i) ==> SoloOn(run', i)
  {
    var slots, ar := Last(run).slots, Last(run).archive;
    hide NothingFails, SoloOn;
    var ar' := ar.(registered := ar.registered[p.name := Saved(ROW, p.dir)], cuts := ar.cuts[p.name := c]);
    run' := Advanced(run, i, InSnapshot(false, None, None, DropRow, p, c), ar');
    run' := Advanced(run', i, EMPTY_SLOT, ar');
    assert Last(run').slots == slots[i := EMPTY_SLOT];
  }

  // The whole command, by itself.
  lemma IsSaved(run: seq<World>, i: nat, image: Bytes, guest: Guest, p: Place)
    returns (run': seq<World>, at: nat)
    requires NothingFails(run) && i < |Last(run).slots| && Last(run).slots[i] == Up(image, guest)
    requires p.name !in Last(run).archive.registered && IsPlace(Last(run).archive.dataDir, p)
    ensures var c, ar := Cut(guest, image), Last(run).archive;
            && NothingFails(run') && run < run' && Last(run').slots == Last(run).slots[i := EMPTY_SLOT]
            && Last(run').archive == ar.(dirs := ar.dirs[p.dir := CutFiles(c)],
                                         registered := ar.registered[p.name := Saved(ROW, p.dir)],
                                         cuts := ar.cuts[p.name := c])
            && at < |run'| && i < |run'[at].slots| && AtInstant(run'[at].slots[i], c)
    ensures SoloOn(run, i) ==> SoloOn(run', i)
  {
    var slots, c := Last(run).slots, Cut(guest, image);
    hide NothingFails, SoloOn, IsPlace, AtInstant;
    run', at := IsPaused(run, i, image, guest, p);
    run' := CopiesOut(run', i, p, c);
    run' := TearsDown(run', i, p, c);
    run' := Registers(run', i, p, c);
    assert Last(run').slots == slots[i := EMPTY_SLOT];
  }

  // ----- A restore

  function InRestore(tap: bool, unit: Option<Unit>, files: Option<Files>, stage: Stage, p: Place, c: Cut): Slot {
    Slot(Some(ROW), tap, unit, {}, files, Some(Activity(Restore(p.name, p.dir), stage, ROW, Some(c))))
  }

  lemma BeginsRestore(run: seq<World>, i: nat, p: Place, c: Cut) returns (run': seq<World>)
    requires NothingFails(run) && LowestFreeSlot(Last(run), i) && Last(run).slots[i] == EMPTY_SLOT
    requires p.name in Last(run).archive.registered && Last(run).archive.registered[p.name] == Saved(ROW, p.dir)
    requires p.name in Last(run).archive.cuts && Last(run).archive.cuts[p.name] == c
    ensures NothingFails(run') && run < run'
    ensures Last(run') == Last(run).(slots := Last(run).slots[i := InRestore(false, None, None, MakeDir, p, c)])
    ensures SoloOn(run, i) ==> SoloOn(run', i)
  {
    var w := Last(run);
    var w' := w.(slots := w.slots[i := InRestore(false, None, None, MakeDir, p, c)]);
    assert Allocated(w.slots[i], w'.slots[i], Restore(p.name, w.archive.registered[p.name].dir),
                     w.archive.registered[p.name].row, Some(w.archive.cuts[p.name]));
    assert SmoothAt(w, i, w');
    hide SoloOn;
    run' := Extended(run, i, w');
  }

  // All files are copied in, whatever cut they are of, and the tap is there.
  lemma LaunchAdvances(p: Place, c: Cut, d: Cut, ar: Archive, d0: Files, d1: Files, d2: Files)
    requires p.dir in ar.dirs && ar.dirs[p.dir] == CutFiles(d)
    requires d0 == map[] && d1 == d0[SnapshotBin := CutFiles(d)[SnapshotBin]] && d2 == d1[MemBin := CutFiles(d)[MemBin]]
    ensures var fs := CutFiles(d);
            && Advance(InRestore(false, None, None, MakeDir, p, c), ar, InRestore(false, None, Some(d0), CopyIn(0), p, c), ar)
            && Advance(InRestore(false, None, Some(d0), CopyIn(0), p, c), ar, InRestore(false, None, Some(d1), CopyIn(1), p, c), ar)
            && Advance(InRestore(false, None, Some(d1), CopyIn(1), p, c), ar, InRestore(false, None, Some(d2), CopyIn(2), p, c), ar)
            && Advance(InRestore(false, None, Some(d2), CopyIn(2), p, c), ar, InRestore(false, None, Some(fs), AddTap, p, c), ar)
            && Advance(InRestore(false, None, Some(fs), AddTap, p, c), ar, InRestore(true, None, Some(fs), Launch, p, c), ar)
  {
    Overwritten(d0, CutFiles(d));
  }

  lemma GetsToLaunch(run: seq<World>, i: nat, p: Place, c: Cut, d: Cut) returns (run': seq<World>)
    requires NothingFails(run) && i < |Last(run).slots|
    requires Last(run).slots[i] == InRestore(false, None, None, MakeDir, p, c)
    requires p.dir in Last(run).archive.dirs && Last(run).archive.dirs[p.dir] == CutFiles(d)
    ensures NothingFails(run') && run < run'
    ensures Last(run') == Last(run).(slots := Last(run).slots[i := InRestore(true, None, Some(CutFiles(d)), Launch, p, c)])
    ensures SoloOn(run, i) ==> SoloOn(run', i)
  {
    var slots, ar, fs := Last(run).slots, Last(run).archive, CutFiles(d);
    hide NothingFails, SoloOn;
    var d0: Files := map[];
    var d1 := d0[SnapshotBin := fs[SnapshotBin]];
    var d2 := d1[MemBin := fs[MemBin]];
    LaunchAdvances(p, c, d, ar, d0, d1, d2);
    hide Advance, InRestore, CutFiles;
    run' := Advanced(run, i, InRestore(false, None, Some(d0), CopyIn(0), p, c), ar);
    run' := Advanced(run', i, InRestore(false, None, Some(d1), CopyIn(1), p, c), ar);
    run' := Advanced(run', i, InRestore(false, None, Some(d2), CopyIn(2), p, c), ar);
    run' := Advanced(run', i, InRestore(false, None, Some(fs), AddTap, p, c), ar);
    run' := Advanced(run', i, InRestore(true, None, Some(fs), Launch, p, c), ar);
    assert Last(run').slots == slots[i := InRestore(true, None, Some(fs), Launch, p, c)];
  }

  lemma Resumes(run: seq<World>, i: nat, p: Place, c: Cut, d: Cut) returns (run': seq<World>)
    requires NothingFails(run) && i < |Last(run).slots|
    requires Last(run).slots[i] == InRestore(true, None, Some(CutFiles(d)), Launch, p, c)
    ensures NothingFails(run') && run < run'
    ensures Last(run') == Last(run).(slots := Last(run).slots[i :=
              InRestore(true, Some(Running(d.guest)), Some(CutFiles(d)), StartForwards([]), p, c)])
    ensures SoloOn(run, i) ==> SoloOn(run', i)
  {
    var slots, ar, fs := Last(run).slots, Last(run).archive, Some(CutFiles(d));
    hide NothingFails, SoloOn;
    run' := Advanced(run, i, InRestore(true, Some(Starting), fs, Boot, p, c), ar);
    run' := Advanced(run', i, InRestore(true, Some(Running(d.guest)), fs, StartForwards([]), p, c), ar);
    assert Last(run').slots == slots[i := InRestore(true, Some(Running(d.guest)), fs, StartForwards([]), p, c)];
  }

  // ----- The runs

  lemma TheStart(dataDir: Path) returns (run: seq<World>)
    ensures NothingFails(run) && Last(run) == InitialWorld(dataDir)
    ensures forall i: nat :: SoloOn(run, i)
  {
    run := [InitialWorld(dataDir)];
    assert Alone(run[0], 0);
  }

  // Between two commands any VM may be next.
  lemma NoneAtWork(run: seq<World>, i: nat, j: nat)
    requires run != [] && SoloOn(run, i) && (i < |Last(run).slots| ==> Last(run).slots[i].act.None?)
    ensures SoloOn(run, j)
  {
    hide OneAtATime;
  }

  // Two names that are one directory: both VMs are saved, one after the other, both names stay
  // registered, and restoring the first resumes the second. Nothing is left of the first, though
  // it was saved from a state it was in.
  lemma OneDirectoryLosesAVm(dataDir: Path, p: Place, q: Place, a: Cut, b: Cut)
    returns (run: seq<World>, at: nat)
    requires IsPlace(dataDir, p) && IsPlace(dataDir, q) && p.name != q.name && p.dir == q.dir && a != b
    ensures NothingFails(run) && IsRun(run) && OneAtATime(run)
    ensures at < |run| && 0 < |run[at].slots| && AtInstant(run[at].slots[0], a)
    ensures var w := Last(run);
            && p.name in w.archive.registered && q.name in w.archive.registered
            && p.name in w.archive.cuts && w.archive.cuts[p.name] == a
            && !ArchiveHolds(w.archive, p.dir, a)
            && |w.slots| == SLOT_LIMIT && w.slots[0].act.Some? && w.slots[0].act.value.command == Restore(p.name, p.dir)
            && w.slots[0].unit == Some(Running(b.guest))
            && w.slots[0].dir.Some? && Has(w.slots[0].dir.value, b, Rootfs)
  {
    run, at := BothSaved(dataDir, p, q, a, b);
    hide NothingFails, SoloOn, OneAtATime, AtInstant;
    run := BeginsRestore(run, 0, p, a);
    run := GetsToLaunch(run, 0, p, a, b);
    run := Resumes(run, 0, p, a, b);
    SmoothRunsAreRuns(run);
    assert OneAtATime(run) by { SoloIsOne(run, 0); }
  }

  lemma SoloIsOne(run: seq<World>, i: nat)
    requires run != [] && SoloOn(run, i)
    ensures OneAtATime(run)
  {
  }

  lemma BothSaved(dataDir: Path, p: Place, q: Place, a: Cut, b: Cut) returns (run: seq<World>, at: nat)
    requires IsPlace(dataDir, p) && IsPlace(dataDir, q) && p.name != q.name && p.dir == q.dir
    ensures NothingFails(run) && SoloOn(run, 0)
    ensures at < |run| && 0 < |run[at].slots| && AtInstant(run[at].slots[0], a)
    ensures Last(run).slots == InitialWorld(dataDir).slots
    ensures Last(run).archive == Archive(dataDir, map[p.dir := CutFiles(b)],
                                         map[p.name := Saved(ROW, p.dir), q.name := Saved(ROW, p.dir)],
                                         map[p.name := a, q.name := b])
  {
    hide NothingFails, SoloOn, AtInstant, IsPlace;
    run := TheStart(dataDir);
    run := ComesUp(run, 0, a.rootfs, a.guest);
    NoneAtWork(run, 0, 1);
    run := ComesUp(run, 1, b.rootfs, b.guest);
    NoneAtWork(run, 1, 0);
    run, at := IsSaved(run, 0, a.rootfs, a.guest, p);
    NoneAtWork(run, 0, 1);
    var second;
    run, second := IsSaved(run, 1, b.rootfs, b.guest, q);
    NoneAtWork(run, 1, 0);
    assert Last(run).slots == InitialWorld(dataDir).slots;
  }

  // For instance "a" and "a/", or any single path element.
  lemma SlashedNameLosesAVm(dataDir: Path, name: string, a: Cut, b: Cut) returns (run: seq<World>, at: nat)
    requires PlainElement(name) && a != b
    ensures NothingFails(run) && IsRun(run) && OneAtATime(run)
    ensures at < |run| && 0 < |run[at].slots| && AtInstant(run[at].slots[0], a)
    ensures name in Last(run).archive.registered && name + "/" in Last(run).archive.registered
    ensures |Last(run).slots| == SLOT_LIMIT && Last(run).slots[0].act.Some?
    ensures Last(run).slots[0].act.value.command == Restore(name, DirOf(dataDir, name))
    ensures Last(run).slots[0].unit == Some(Running(b.guest))
  {
    hide Contained, DirOf, NothingFails, OneAtATime;
    PlainIsContained(dataDir, name);
    NamesOfOneDirectory(dataDir, name, name);
    SlashedIsContained(dataDir, name);
    var dir := DirOf(dataDir, name);
    run, at := OneDirectoryLosesAVm(dataDir, Place(name, dir), Place(name + "/", dir), a, b);
  }

  lemma SlashedIsContained(dataDir: Path, name: string)
    requires Contained(dataDir, name) && DirOf(dataDir, name + "/") == DirOf(dataDir, name)
    ensures Contained(dataDir, name + "/")
  {
  }

  // A VM is saved, and restored until its unit is to start; that fails without any effect. From
  // then on there are a tap and a directory that no row accounts for.
  lemma FailedRestoreLeaks(dataDir: Path, p: Place, c: Cut) returns (run: seq<World>, w: World)
    requires IsPlace(dataDir, p)
    ensures NothingFails(run) && IsRun(run + [w]) && RestoreGivesUpAt(Last(run), 0, w)
    ensures |w.slots| == SLOT_LIMIT && w.slots[0].row.None? && w.slots[0].tap && w.slots[0].dir.Some?
    ensures !Accounted(w)
  {
    hide NothingFails, SoloOn, IsPlace;
    var at;
    run := TheStart(dataDir);
    run := ComesUp(run, 0, c.rootfs, c.guest);
    run, at := IsSaved(run, 0, c.rootfs, c.guest, p);
    run := BeginsRestore(run, 0, p, c);
    run := GetsToLaunch(run, 0, p, c, c);
    SmoothRunsAreRuns(run);
    w := Abandoned(Last(run), p, c);
    assert IsRun(run + [w]) by { OneMore(run, w); }
    assert HasResources(w.slots[0]);
  }

  lemma Abandoned(w: World, p: Place, c: Cut) returns (w': World)
    requires 0 < |w.slots| && w.slots[0] == InRestore(true, None, Some(CutFiles(c)), Launch, p, c)
    ensures RestoreGivesUpAt(w, 0, w')
    ensures w'.slots == w.slots[0 := Slot(None, true, None, {}, Some(CutFiles(c)), None)]
  {
    w' := w.(slots := w.slots[0 := Slot(None, true, None, {}, Some(CutFiles(c)), None)]);
    assert PartOf(w.slots[0], w.archive, w.slots[0], w.archive);
    assert FailDroppingRow(w.slots[0], w.archive, w'.slots[0], w'.archive);
  }

  lemma OneMore(run: seq<World>, w: World)
    requires IsRun(run) && (StepAt(Last(run), 0, w) || RestoreGivesUpAt(Last(run), 0, w))
    ensures IsRun(run + [w])
  {
    hide StepAt, RestoreGivesUpAt;
    assert Step(Last(run), w);
  }

  // A VM is paused to be saved, the snapshot directory cannot be made, and the command ends with
  // the error: the VM has its row and stays suspended.
  lemma FailedSnapshotLeavesItPaused(dataDir: Path, p: Place, c: Cut) returns (run: seq<World>, w: World)
    requires IsPlace(dataDir, p)
    ensures NothingFails(run) && IsRun(run + [w]) && |Last(run).slots| == |w.slots| == SLOT_LIMIT
    ensures Last(run).slots[0].act.Some? && Last(run).slots[0].act.value.command == Snapshot(p.name, p.dir)
    ensures Fail(Last(run).slots[0], Last(run).archive, w.slots[0], w.archive)
    ensures w.slots[0].row.Some? && w.slots[0].act.None? && w.slots[0].unit == Some(Paused(c.guest))
  {
    hide NothingFails, SoloOn, IsPlace;
    var at;
    run := TheStart(dataDir);
    run := ComesUp(run, 0, c.rootfs, c.guest);
    run, at := IsPaused(run, 0, c.rootfs, c.guest, p);
    SmoothRunsAreRuns(run);
    w := GivenUp(Last(run));
    assert IsRun(run + [w]) by { OneMore(run, w); }
  }

  lemma GivenUp(w: World) returns (w': World)
    requires 0 < |w.slots| && w.slots[0].act.Some?
    ensures StepAt(w, 0, w') && Fail(w.slots[0], w.archive, w'.slots[0], w'.archive)
    ensures w' == w.(slots := w.slots[0 := End(w.slots[0])])
  {
    w' := w.(slots := w.slots[0 := End(w.slots[0])]);
    assert PartOf(w.slots[0], w.archive, w.slots[0], w.archive);
  }

  // ----- A stop in vain

  // A run fails waiting for the API socket, its unit still starting.
  lemma RunFailsAtItsSocket(dataDir: Path, image: Bytes) returns (run: seq<World>)
    ensures IsRun(run) && |Last(run).slots| == SLOT_LIMIT
    ensures Last(run).slots[0] == InDestroy(true, Some(map[Rootfs := image]), StopUnit).(act := None)
  {
    run := TheStart(dataDir);
    run := Launches(run, 0, image);
    SmoothRunsAreRuns(run);
    var w := GivenUp(Last(run));
    OneMore(run, w);
    run := run + [w];
  }

  // Of the destroy that follows both systemctl calls fail, so the stop reports success; the rest
  // succeeds, and the unit is there without a row.
  lemma VainStopLeaksAUnit(dataDir: Path, image: Bytes) returns (run: seq<World>)
    ensures IsRun(run) && |Last(run).slots| == SLOT_LIMIT
    ensures Last(run).slots[0] == EMPTY_SLOT.(unit := Some(Starting)) && !Accounted(Last(run))
  {
    var dir: Option<Files> := Some(map[Rootfs := image]);
    run := RunFailsAtItsSocket(dataDir, image);
    hide IsRun, Advance, Begin, StopsInVain;
    assert Begin(Last(run).slots[0], Last(run).archive, InDestroy(true, dir, StopUnit)) by {
      DestroyBegins(Last(run).slots[0], Last(run).archive, InDestroy(true, dir, StopUnit));
    }
    run := Steps(run, InDestroy(true, dir, StopUnit));
    DestroyGoesOn(Last(run).archive, dir.value);
    run := Steps(run, InDestroy(true, dir, StopForwards([])));
    run := Steps(run, InDestroy(true, dir, DeleteTap));
    run := Steps(run, InDestroy(false, dir, RemoveDir));
    run := Steps(run, InDestroy(false, None, DropRow));
    run := Steps(run, EMPTY_SLOT.(unit := Some(Starting)));
    assert HasResources(Last(run).slots[0]);
  }

  lemma DestroyBegins(s: Slot, ar: Archive, s': Slot)
    requires s.row.Some? && s.act.None? && s' == s.(act := Some(Activity(Destroy, StopUnit, s.row.value, None)))
    ensures Begin(s, ar, s')
  {
  }

  lemma DestroyGoesOn(ar: Archive, files: Files)
    ensures var dir := Some(files);
            && StopsInVain(InDestroy(true, dir, StopUnit), InDestroy(true, dir, StopForwards([])))
            && Advance(InDestroy(true, dir, StopForwards([])), ar, InDestroy(true, dir, DeleteTap), ar)
            && Advance(InDestroy(true, dir, DeleteTap), ar, InDestroy(false, dir, RemoveDir), ar)
            && Advance(InDestroy(false, dir, RemoveDir), ar, InDestroy(false, None, DropRow), ar)
            && Advance(InDestroy(false, None, DropRow), ar, EMPTY_SLOT.(unit := Some(Starting)), ar)
  {
  }

  function InDestroy(tap: bool, dir: Option<Files>, stage: Stage): Slot {
    Slot(Some(ROW), tap, Some(Starting), {}, dir, Some(Activity(Destroy, stage, ROW, None)))
  }

  lemma Steps(run: seq<World>, s': Slot) returns (run': seq<World>)
    requires IsRun(run) && 0 < |Last(run).slots|
    requires var w := Last(run);
             || Begin(w.slots[0], w.archive, s') || Advance(w.slots[0], w.archive, s', w.archive)
             || StopsInVain(w.slots[0], s')
    ensures IsRun(run') && Last(run') == Last(run).(slots := Last(run).slots[0 := s'])
  {
    var w := Last(run).(slots := Last(run).slots[0 := s']);
    assert StepAt(Last(run), 0, w);
    OneMore(run, w);
    run' := run + [w];
  }

  // ----- One name at the same time

  // Both VMs are up and paused, and about to make the same snapshot directory.
  lemma BothPaused(dataDir: Path, p: Place, a: Cut, b: Cut) returns (run: seq<World>, at: nat)
    requires IsPlace(dataDir, p)
    ensures NothingFails(run) && |Last(run).slots| == SLOT_LIMIT && Last(run).archive == InitialWorld(dataDir).archive
    ensures Last(run).slots[0] == PausedWith(MakeSnapshotDir, p, a)
    ensures Last(run).slots[1] == PausedWith(MakeSnapshotDir, p, b)
    ensures at < |run| && 0 < |run[at].slots| && AtInstant(run[at].slots[0], a)
  {
    hide NothingFails, AtInstant, PausedWith, SoloOn, IsPlace;
    run := TheStart(dataDir);
    run := ComesUp(run, 0, a.rootfs, a.guest);
    run := ComesUp(run, 1, b.rootfs, b.guest);
    run, at := IsPaused(run, 0, a.rootfs, a.guest, p);
    var second;
    run, second := IsPaused(run, 1, b.rootfs, b.guest, p);
  }

  // For any two different states: both VMs come up and are snapshotted under one name, the first
  // copies its files out, the second copies its own over them, and the first is torn down. Then
  // no copy of the first is left anywhere, though it was paused there and its command goes on to
  // register it.
  lemma SharedNameLosesAVm(dataDir: Path, p: Place, a: Cut, b: Cut) returns (run: seq<World>, at: nat)
    requires IsPlace(dataDir, p) && a != b
    ensures NothingFails(run) && IsRun(run)
    ensures at < |run| && 0 < |run[at].slots| && AtInstant(run[at].slots[0], a)
    ensures |Last(run).slots| == SLOT_LIMIT && Saving(Last(run).slots[0], p.dir, a)
    ensures !SomewhereWhole(Last(run).slots[0], Last(run).archive, p.dir, a)
  {
    run, at := BothPaused(dataDir, p, a, b);
    hide NothingFails, AtInstant, PausedWith, SoloOn;
    run := CopiesOut(run, 0, p, a);
    run := CopiesOut(run, 1, p, b);
    run := TearsDown(run, 0, p, a);
    SmoothRunsAreRuns(run);
  }
}
