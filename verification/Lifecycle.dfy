// The VM lifecycle as a step system (vm/vm.go and the run, restore, destroy, snapshot and ports
// drivers in cmd/). Each slot holds what the host has under that slot's derived names; each
// command is a program counter over the external operations its source performs, in order. Any
// operation may fail with part of its effect done, any command may be killed between two
// operations, units may die, and guests write to their disk while they run. One command at a time
// acts on a given VM; commands on different VMs interleave freely.
module Lifecycle {
  import opened Wrappers
  import opened Ledger
  import opened PortList
  import opened SnapshotPaths

  type Bytes = seq<bv8>

  // The files a snapshot is made of, in a VM's chroot or in a snapshot directory.
  datatype File = SnapshotBin | MemBin | Rootfs

  type Files = map<File, Bytes>

  const SNAPSHOT_FILES: seq<File> := [SnapshotBin, MemBin, Rootfs]

  // The part of a microVM that is not on disk.
  datatype Guest = Guest(devices: Bytes, memory: Bytes)

  // A systemd unit for the jailer process: firecracker waiting to be told what to boot, or a
  // guest that runs, or a guest that is paused. A unit that is not active does not exist.
  datatype Unit = Starting | Running(guest: Guest) | Paused(guest: Guest)

  // The whole state of a VM at one instant.
  datatype Cut = Cut(guest: Guest, rootfs: Bytes)

  datatype Row = Row(vcpus: int, memMib: int, ports: seq<int>)

  datatype Command =
    | Run(image: Bytes)
    | Restore(name: string, dir: Path)
    | Destroy
    | Snapshot(name: string, dir: Path)
    | AddPort
    | RemovePort
    | ReloadPorts

  // The external operation a command is about to perform.
  datatype Stage =
    | MakeDir
    | CopyIn(k: nat)
    | AddTap
    | Launch
    | Boot
    | StartForwards(todo: seq<int>)
    | Attach
    | Pause
    | Create
    | MakeSnapshotDir
    | CopyOut(k: nat)
    | StopUnit
    | StopForwards(todo: seq<int>)
    | RestartForwards(todo: seq<int>)
    | DeleteTap
    | RemoveDir
    | Register
    | DropRow

  // `row` is the ledger row as the command read or wrote it; `cut` is, for a snapshot, the VM's
  // state when it was paused, and for a restore, the state the snapshot was taken of.
  datatype Activity = Activity(command: Command, stage: Stage, row: Row, cut: Option<Cut>)

  datatype Slot = Slot(row: Option<Row>, tap: bool, unit: Option<Unit>, forwards: set<int>,
                       dir: Option<Files>, act: Option<Activity>)

  // A row of the snapshots table.
  datatype Saved = Saved(row: Row, dir: Path)

  // The data directory all commands are given, the snapshot directories by path, the snapshots
  // table by name, and, as history, the cut each registered name stands for.
  datatype Archive = Archive(dataDir: Path, dirs: map<Path, Files>, registered: map<string, Saved>, cuts: map<string, Cut>)

  datatype World = World(slots: seq<Slot>, archive: Archive)

  const EMPTY_SLOT := Slot(None, false, None, {}, None, None)

  function InitialWorld(dataDir: Path): World {
    World(seq(SLOT_LIMIT, _ => EMPTY_SLOT), Archive(dataDir, map[], map[], map[]))
  }

  // ----- Success of the current operation

  function Goto(s: Slot, stage: Stage): Slot
    requires s.act.Some?
  {
    s.(act := Some(s.act.value.(stage := stage)))
  }

  function End(s: Slot): Slot { s.(act := None) }

  function WithoutUnit(s: Slot): Slot { s.(unit := None, forwards := {}) }

  function FilesToCopy(c: Command): seq<File> {
    if c.Restore? then SNAPSHOT_FILES else [Rootfs]
  }

  // What `cp` reads: the image for a run, the snapshot directory for a restore.
  function Source(c: Command, f: File, ar: Archive): Option<Bytes> {
    match c
    case Run(image) => if f == Rootfs then Some(image) else None
    case Restore(_, dir) => if dir in ar.dirs && f in ar.dirs[dir] then Some(ar.dirs[dir][f]) else None
    case _ => None
  }

  predicate BringUp(s: Slot, ar: Archive, s': Slot)
    requires s.act.Some?
  {
    var a := s.act.value;
    match a.stage
    case MakeDir =>
      s' == Goto(s, CopyIn(0)).(dir := if s.dir.Some? then s.dir else Some(map[]))
    case CopyIn(k) =>
      var files := FilesToCopy(a.command);
      && k < |files| && s.dir.Some? && Source(a.command, files[k], ar).Some?
      && s' == Goto(s, if k + 1 < |files| then CopyIn(k + 1) else AddTap)
               .(dir := Some(s.dir.value[files[k] := Source(a.command, files[k], ar).value]))
    case AddTap =>
      !s.tap && s' == Goto(s, Launch).(tap := true)
    case Launch =>
      s.unit.None? && s.dir.Some? && s' == Goto(s, Boot).(unit := Some(Starting))
    case Boot =>
      && s.unit == Some(Starting) && s'.unit.Some? && s'.unit.value.Running? && s.dir.Some?
      && s' == Goto(s, StartForwards(a.row.ports)).(unit := s'.unit)
      && (a.command.Restore? ==>
            && SnapshotBin in s.dir.value && MemBin in s.dir.value
            && s'.unit == Some(Running(Guest(s.dir.value[SnapshotBin], s.dir.value[MemBin]))))
    case StartForwards(todo) =>
      if todo == [] then
        if a.command.AddPort? then s' == End(s) else s' == End(s) || s' == Goto(s, Attach)
      else
        && s.unit.Some? && todo[0] !in s.forwards
        && s' == Goto(s, StartForwards(todo[1..])).(forwards := s.forwards + {todo[0]})
    case Attach =>
      s' == End(s) || s' == End(WithoutUnit(s))
    case _ => false
  }

  // No guest has the tap open; while one has, the kernel does not delete it.
  predicate TapIsIdle(s: Slot) {
    s.unit.Some? ==> s.unit.value.Starting?
  }

  predicate TearDown(s: Slot, s': Slot)
    requires s.act.Some?
  {
    var a := s.act.value;
    match a.stage
    case StopUnit =>
      s' == Goto(WithoutUnit(s), StopForwards(a.row.ports))
    case StopForwards(todo) =>
      if todo == [] then s' == if a.command.RemovePort? then End(s) else Goto(s, DeleteTap)
      else s' == Goto(s, StopForwards(todo[1..])).(forwards := s.forwards - {todo[0]})
    case RestartForwards(todo) =>
      if todo == [] then s' == End(s)
      else todo[0] in s.forwards && s' == Goto(s, RestartForwards(todo[1..]))
    case DeleteTap =>
      TapIsIdle(s) && s' == Goto(s, RemoveDir).(tap := false)
    case RemoveDir =>
      s' == Goto(s, if a.command.Snapshot? then Register else DropRow).(dir := None)
    case DropRow =>
      s' == End(s).(row := None)
    case _ => false
  }

  predicate TakeSnapshot(s: Slot, ar: Archive, s': Slot, ar': Archive)
    requires s.act.Some? && s.act.value.command.Snapshot?
  {
    var a := s.act.value;
    var name, dir := a.command.name, a.command.dir;
    match a.stage
    case Pause =>
      && s.unit.Some? && !s.unit.value.Starting? && s.dir.Some? && Rootfs in s.dir.value
      && s' == s.(unit := Some(Paused(s.unit.value.guest)),
                  act := Some(a.(stage := Create, cut := Some(Cut(s.unit.value.guest, s.dir.value[Rootfs])))))
      && ar' == ar
    case Create =>
      && s.unit.Some? && s.unit.value.Paused? && s.dir.Some?
      && s' == Goto(s, MakeSnapshotDir)
               .(dir := Some(s.dir.value[SnapshotBin := s.unit.value.guest.devices][MemBin := s.unit.value.guest.memory]))
      && ar' == ar
    case MakeSnapshotDir =>
      && s' == Goto(s, CopyOut(0))
      && ar' == ar.(dirs := ar.dirs[dir := if dir in ar.dirs then ar.dirs[dir] else map[]])
    case CopyOut(k) =>
      && k < |SNAPSHOT_FILES| && dir in ar.dirs && s.dir.Some? && SNAPSHOT_FILES[k] in s.dir.value
      && s' == Goto(s, if k + 1 < |SNAPSHOT_FILES| then CopyOut(k + 1) else StopUnit)
      && ar' == ar.(dirs := ar.dirs[dir := ar.dirs[dir][SNAPSHOT_FILES[k] := s.dir.value[SNAPSHOT_FILES[k]]]])
    case Register =>
      && name !in ar.registered && a.cut.Some?
      && s' == Goto(s, DropRow)
      && ar' == ar.(registered := ar.registered[name := Saved(a.row, dir)], cuts := ar.cuts[name := a.cut.value])
    case _ => false
  }

  predicate Advance(s: Slot, ar: Archive, s': Slot, ar': Archive) {
    s.act.Some? &&
    (|| (BringUp(s, ar, s') && ar' == ar)
     || (TearDown(s, s') && ar' == ar)
     || (s.act.value.command.Snapshot? && TakeSnapshot(s, ar, s', ar')))
  }

  // ----- Failure of the current operation

  // Part of the operation's effect may have happened; nothing else has. A copy that fails may
  // leave its file in any state, but it removes no file that was there.
  predicate PartOf(s: Slot, ar: Archive, m: Slot, ar': Archive)
    requires s.act.Some?
  {
    var a := s.act.value;
    if m == s && ar' == ar then true else
    match a.stage
    case MakeDir => s.dir.None? && m == s.(dir := Some(map[])) && ar' == ar
    case CopyIn(k) =>
      && s.dir.Some? && m.dir.Some? && k < |FilesToCopy(a.command)|
      && SameExcept(m.dir.value, s.dir.value, {FilesToCopy(a.command)[k]})
      && (FilesToCopy(a.command)[k] in s.dir.value ==> FilesToCopy(a.command)[k] in m.dir.value)
      && m == s.(dir := m.dir) && ar' == ar
    case AddTap => m == s.(tap := true) && ar' == ar
    case Launch => s.unit.None? && s.dir.Some? && m == s.(unit := Some(Starting)) && ar' == ar
    case Boot => s.unit.Some? && m.unit.Some? && m == s.(unit := m.unit) && ar' == ar
    case StartForwards(todo) =>
      s.unit.Some? && todo != [] && m == s.(forwards := s.forwards + {todo[0]}) && ar' == ar
    case Pause =>
      s.unit.Some? && s.unit.value.Running? && m == s.(unit := Some(Paused(s.unit.value.guest))) && ar' == ar
    case Create =>
      && s.dir.Some? && m.dir.Some? && SameExcept(m.dir.value, s.dir.value, {SnapshotBin, MemBin})
      && m == s.(dir := m.dir) && ar' == ar
    case MakeSnapshotDir =>
      && a.command.Snapshot? && a.command.dir !in ar.dirs && m == s
      && ar' == ar.(dirs := ar.dirs[a.command.dir := map[]])
    case CopyOut(k) =>
      && a.command.Snapshot? && m == s && k < |SNAPSHOT_FILES|
      && a.command.dir in ar.dirs && a.command.dir in ar'.dirs
      && SameExcept(ar'.dirs[a.command.dir], ar.dirs[a.command.dir], {SNAPSHOT_FILES[k]})
      && ar' == ar.(dirs := ar.dirs[a.command.dir := ar'.dirs[a.command.dir]])
    case StopUnit => m == WithoutUnit(s) && ar' == ar
    case StopForwards(todo) => todo != [] && m == s.(forwards := s.forwards - {todo[0]}) && ar' == ar
    case DeleteTap => TapIsIdle(s) && m == s.(tap := false) && ar' == ar
    case RemoveDir => m == s.(dir := m.dir) && (s.dir.None? ==> m.dir.None?) && ar' == ar
    case _ => false
  }

  predicate SameExcept(a: Files, b: Files, changed: set<File>) {
    forall f :: f !in changed ==> (f in a <==> f in b) && (f in a ==> a[f] == b[f])
  }

  // The command returns the error. The VM keeps its row, so that it can be destroyed later.
  ghost predicate Fail(s: Slot, ar: Archive, s': Slot, ar': Archive) {
    s.act.Some? && exists m :: PartOf(s, ar, m, ar') && s' == End(m)
  }

  // A failed restore also removes the row it had allocated.
  ghost predicate FailDroppingRow(s: Slot, ar: Archive, s': Slot, ar': Archive) {
    && s.act.Some? && s.act.value.command.Restore?
    && exists m :: PartOf(s, ar, m, ar') && s' == End(m).(row := None)
  }

  // systemctl stop fails, and systemctl show too, from which labctl concludes that there is no such
  // unit: the stop reports success, and the unit is still there.
  predicate StopsInVain(s: Slot, s': Slot) {
    s.act.Some? &&
    var a := s.act.value;
    match a.stage
    case StopUnit => s.unit.Some? && s' == Goto(s, StopForwards(a.row.ports))
    case StopForwards(todo) => todo != [] && todo[0] in s.forwards && s' == Goto(s, StopForwards(todo[1..]))
    case _ => false
  }

  // The labctl process is killed; whatever it started stays.
  predicate Die(s: Slot, s': Slot) {
    s.act.Some? && s' == End(s)
  }

  // ----- What happens without labctl

  predicate UnitDies(s: Slot, s': Slot) {
    s.unit.Some? && s' == WithoutUnit(s)
  }

  predicate ForwardDies(s: Slot, s': Slot) {
    s'.forwards <= s.forwards && s' == s.(forwards := s'.forwards)
  }

  // A running guest changes its memory and its disk; a paused or starting one cannot.
  predicate GuestWrites(s: Slot, s': Slot) {
    && s.unit.Some? && s.unit.value.Running? && s.dir.Some?
    && s'.unit.Some? && s'.unit.value.Running?
    && s'.dir.Some? && Rootfs in s'.dir.value && SameExcept(s'.dir.value, s.dir.value, {Rootfs})
    && s' == s.(unit := s'.unit, dir := s'.dir)
  }

  // ----- The start of a command on an existing VM

  ghost predicate Begin(s: Slot, ar: Archive, s': Slot) {
    && s.row.Some? && s.act.None?
    && var row := s.row.value;
       || s' == s.(act := Some(Activity(Destroy, StopUnit, row, None)))
       || (exists name :: name != "" && name !in ar.registered && Contained(ar.dataDir, name) &&
             s' == s.(act := Some(Activity(Snapshot(name, DirOf(ar.dataDir, name)), Pause, row, None))))
       || (exists port :: port !in row.ports &&
             var row' := row.(ports := row.ports + [port]);
             s' == s.(row := Some(row'),
                      act := if s.unit.Some? then Some(Activity(AddPort, StartForwards([port]), row', None)) else None))
       || (exists port :: port in row.ports &&
             var row' := row.(ports := Without(row.ports, port));
             s' == s.(row := Some(row'), act := Some(Activity(RemovePort, StopForwards([port]), row', None))))
       || s' == s.(act := Some(Activity(ReloadPorts, RestartForwards(row.ports), row, None)))
  }

  // The row is allocated and the bring-up starts.
  predicate Allocated(s: Slot, s': Slot, c: Command, row: Row, cut: Option<Cut>) {
    s' == s.(row := Some(row), act := Some(Activity(c, MakeDir, row, cut)))
  }

  // ----- Steps of the whole system

  predicate LowestFreeSlot(w: World, i: nat) {
    i < |w.slots| && w.slots[i].row.None? && forall j :: 0 <= j < i ==> w.slots[j].row.Some?
  }

  ghost predicate StartsRun(w: World, i: nat, w': World) {
    && LowestFreeSlot(w, i) && w'.archive == w.archive && SlotStep(w, i, w')
    && exists image, vcpus, memMib :: Allocated(w.slots[i], w'.slots[i], Run(image), Row(vcpus, memMib, []), None)
  }

  ghost predicate StartsRestore(w: World, i: nat, w': World) {
    && LowestFreeSlot(w, i) && w'.archive == w.archive && SlotStep(w, i, w')
    && exists name ::
         && name in w.archive.registered && name in w.archive.cuts
         && var saved := w.archive.registered[name];
            Allocated(w.slots[i], w'.slots[i], Restore(name, saved.dir), saved.row, Some(w.archive.cuts[name]))
  }

  predicate SlotStep(w: World, i: nat, w': World) {
    i < |w.slots| && |w'.slots| == |w.slots| && w'.slots == w.slots[i := w'.slots[i]]
  }

  // One step at slot i, other than a failed restore removing its row.
  ghost predicate StepAt(w: World, i: nat, w': World) {
    SlotStep(w, i, w') &&
    var s, s' := w.slots[i], w'.slots[i];
    || StartsRun(w, i, w')
    || StartsRestore(w, i, w')
    || (Begin(s, w.archive, s') && w'.archive == w.archive)
    || Advance(s, w.archive, s', w'.archive)
    || Fail(s, w.archive, s', w'.archive)
    || (w'.archive == w.archive && (StopsInVain(s, s') || Die(s, s') || UnitDies(s, s') || ForwardDies(s, s') || GuestWrites(s, s')))
  }

  ghost predicate RestoreGivesUpAt(w: World, i: nat, w': World) {
    SlotStep(w, i, w') && FailDroppingRow(w.slots[i], w.archive, w'.slots[i], w'.archive)
  }

  // `labctl snapshot delete`: the registration goes, the directory stays.
  predicate Forgets(w: World, w': World) {
    exists name :: name in w.archive.registered &&
      w' == w.(archive := w.archive.(registered := w.archive.registered - {name}, cuts := w.archive.cuts - {name}))
  }

  ghost predicate Step(w: World, w': World) {
    Forgets(w, w') || exists i: nat :: StepAt(w, i, w') || RestoreGivesUpAt(w, i, w')
  }

  ghost predicate IsRun(run: seq<World>) {
    && run != [] && run[0] == InitialWorld(run[0].archive.dataDir)
    && forall k :: 0 <= k < |run| - 1 ==> Step(run[k], run[k + 1])
  }
}
