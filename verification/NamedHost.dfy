// The host as the kernel, systemd and the file system see it: taps and units by name, VM
// directories by id, as all commands share one data directory and one firecracker binary, and no
// slots. The drivers address all of these by the names of state/state.go
// and vm/vm.go. Because those names are injective and of disjoint kinds, every operation done for
// a VM touches its slot of Lifecycle and nothing of any other VM.
module NamedHost {
  import opened Wrappers
  import opened Names
  import opened Ledger
  import opened Lifecycle
  import opened LifecycleSafety

  // A running unit: a jailer, or a socat that is bound to another unit.
  datatype Service = Jailer(unit: Unit) | Socat(bindsTo: string)

  datatype Host = Host(taps: set<string>, units: map<string, Service>, dirs: map<string, Files>)

  const BARE_HOST := Host({}, map[], map[])

  datatype Op =
    | TuntapAdd(tap: string)
    | TuntapDel(tap: string)
    | UnitSet(unit: string, service: Service)
    | UnitStop(unit: string)
    | UnitsVanish(gone: set<string>)
    | DirSet(id: string, files: Files)
    | DirRemove(id: string)

  // Stopping a unit also stops every unit that is bound to it; units may also end by themselves.
  function Do(h: Host, op: Op): Host {
    match op
    case TuntapAdd(tap) => h.(taps := h.taps + {tap})
    case TuntapDel(tap) => h.(taps := h.taps - {tap})
    case UnitSet(unit, service) => h.(units := h.units[unit := service])
    case UnitStop(unit) =>
      h.(units := map u | u in h.units && u != unit && h.units[u] != Socat(unit) :: h.units[u])
    case UnitsVanish(gone) => h.(units := map u | u in h.units && u !in gone :: h.units[u])
    case DirSet(id, files) => h.(dirs := h.dirs[id := files])
    case DirRemove(id) => h.(dirs := h.dirs - {id})
  }

  // ----- The same operations as the drivers mean them

  datatype SlotOp =
    | TapOn | TapOff | UnitIs(unit: Unit) | UnitOff | ForwardOn(port: int) | ForwardOff(port: int)
    | ForwardsVanish(gone: set<int>) | DirIs(files: Files) | DirOff

  function VmUnitName(i: nat): string { HostUnitName(VmUnit(i)) }

  function ForwardName(i: nat, port: int): string { HostUnitName(Forwarder(i, port)) }

  // With the names the drivers pass to ip, systemd-run, systemctl and the file system.
  function Named(i: nat, so: SlotOp): Op {
    match so
    case TapOn => TuntapAdd(TapName(i))
    case TapOff => TuntapDel(TapName(i))
    case UnitIs(unit) => UnitSet(VmUnitName(i), Jailer(unit))
    case UnitOff => UnitStop(VmUnitName(i))
    case ForwardOn(port) => UnitSet(ForwardName(i, port), Socat(VmUnitName(i)))
    case ForwardOff(port) => UnitStop(ForwardName(i, port))
    case ForwardsVanish(gone) => UnitsVanish(set port | port in gone :: ForwardName(i, port))
    case DirIs(files) => DirSet(VmId(i), files)
    case DirOff => DirRemove(VmId(i))
  }

  function OnSlot(s: Slot, so: SlotOp): Slot {
    match so
    case TapOn => s.(tap := true)
    case TapOff => s.(tap := false)
    case UnitIs(unit) => s.(unit := Some(unit))
    case UnitOff => WithoutUnit(s)
    case ForwardOn(port) => s.(forwards := s.forwards + {port})
    case ForwardOff(port) => s.(forwards := s.forwards - {port})
    case ForwardsVanish(gone) => s.(forwards := s.forwards - gone)
    case DirIs(files) => s.(dir := Some(files))
    case DirOff => s.(dir := None)
  }

  // ----- What the host shows of a slot

  function Lookup<V>(m: map<string, V>, key: string): Option<V> {
    if key in m then Some(m[key]) else None
  }

  predicate ShowsUnits(units: map<string, Service>, i: nat, unit: Option<Unit>) {
    Lookup(units, VmUnitName(i)) == if unit.Some? then Some(Jailer(unit.value)) else None
  }

  ghost predicate ShowsForwards(units: map<string, Service>, i: nat, forwards: set<int>) {
    forall port: int ::
      Lookup(units, ForwardName(i, port)) == if port in forwards then Some(Socat(VmUnitName(i))) else None
  }

  ghost predicate ShowsSlot(h: Host, i: nat, s: Slot) {
    && (TapName(i) in h.taps <==> s.tap)
    && ShowsUnits(h.units, i, s.unit)
    && ShowsForwards(h.units, i, s.forwards)
    && Lookup(h.dirs, VmId(i)) == s.dir
  }

  ghost predicate Shows(h: Host, w: World) {
    forall i :: 0 <= i < |w.slots| ==> ShowsSlot(h, i, w.slots[i])
  }

  lemma NamesApart(i: nat, j: nat)
    ensures TapName(i) == TapName(j) <==> i == j
    ensures VmId(i) == VmId(j) <==> i == j
    ensures VmUnitName(i) == VmUnitName(j) <==> i == j
    ensures forall port :: ForwardName(i, port) != VmUnitName(j)
    ensures forall port, port' :: ForwardName(i, port) == ForwardName(j, port') <==> i == j && port == port'
  {
    if TapName(i) == TapName(j) { TapNameInjective(i, j); }
    if VmId(i) == VmId(j) { VmIdInjective(i, j); }
    if VmUnitName(i) == VmUnitName(j) { HostUnitNameInjective(VmUnit(i), VmUnit(j)); }
    forall port ensures ForwardName(i, port) != VmUnitName(j) {
      if ForwardName(i, port) == VmUnitName(j) { HostUnitNameInjective(Forwarder(i, port), VmUnit(j)); }
    }
    forall port, port' | ForwardName(i, port) == ForwardName(j, port') ensures i == j && port == port' {
      HostUnitNameInjective(Forwarder(i, port), Forwarder(j, port'));
    }
  }

  // An operation named for slot i does to the objects of slot i what it is meant to do, and to
  // those of any other slot nothing.
  lemma NamedOpIsLocal(h: Host, i: nat, so: SlotOp, j: nat, s: Slot)
    requires ShowsSlot(h, j, s)
    ensures ShowsSlot(Do(h, Named(i, so)), j, if i == j then OnSlot(s, so) else s)
  {
    hide HostUnitName, TapName, VmId;
    NamesApart(i, j);
    NamesApart(j, i);
    NamesApart(i, i);
  }

  // ----- The steps of Lifecycle as named operations

  function DoAll(h: Host, i: nat, ops: seq<SlotOp>): Host {
    if ops == [] then h else Do(DoAll(h, i, ops[..|ops| - 1]), Named(i, ops[|ops| - 1]))
  }

  function OnSlotAll(s: Slot, ops: seq<SlotOp>): Slot {
    if ops == [] then s else OnSlot(OnSlotAll(s, ops[..|ops| - 1]), ops[|ops| - 1])
  }

  predicate SameResources(s: Slot, s': Slot) {
    s.tap == s'.tap && s.unit == s'.unit && s.forwards == s'.forwards && s.dir == s'.dir
  }

  // The one operation that a command performs at a stage, finished or in part.
  predicate Performs(stage: Stage, so: SlotOp) {
    match stage
    case MakeDir => so.DirIs?
    case CopyIn(_) => so.DirIs?
    case AddTap => so.TapOn?
    case Launch => so == UnitIs(Starting)
    case Boot => so.UnitIs?
    case StartForwards(todo) => todo != [] && so == ForwardOn(todo[0])
    case Attach => so.UnitOff?
    case Pause => so.UnitIs? && so.unit.Paused?
    case Create => so.DirIs?
    case StopUnit => so.UnitOff?
    case StopForwards(todo) => todo != [] && so == ForwardOff(todo[0])
    case DeleteTap => so.TapOff?
    case RemoveDir => so.DirOff? || so.DirIs?
    case _ => false
  }

  predicate AtMost(stage: Stage, ops: seq<SlotOp>) {
    ops == [] || (|ops| == 1 && Performs(stage, ops[0]))
  }

  // What may be done on the host in a step of slot i: what its command's stage says, or nothing
  // if the command only starts or ends, or what happens by itself.
  ghost predicate MayDo(w: World, i: nat, w': World, ops: seq<SlotOp>)
    requires i < |w.slots| && i < |w'.slots|
  {
    var s, s', ar, ar' := w.slots[i], w'.slots[i], w.archive, w'.archive;
    && SameResources(OnSlotAll(s, ops), s')
    && (s.act.Some? && (Advance(s, ar, s', ar') || Fail(s, ar, s', ar') || FailDroppingRow(s, ar, s', ar')) ==>
          AtMost(s.act.value.stage, ops))
  }

  lemma One(s: Slot, so: SlotOp)
    ensures OnSlotAll(s, [so]) == OnSlot(s, so) && OnSlotAll(s, []) == s
  {
    assert [so][..0] == [];
  }

  // The operation of a stage, with the state it leads to.
  function OpAt(s: Slot, stage: Stage, s': Slot): SlotOp {
    match stage
    case AddTap => TapOn
    case DeleteTap => TapOff
    case StartForwards(todo) => if todo != [] then ForwardOn(todo[0]) else TapOn
    case StopForwards(todo) => if todo != [] then ForwardOff(todo[0]) else TapOn
    case StopUnit => UnitOff
    case Attach => UnitOff
    case Launch => UnitIs(Starting)
    case Boot => if s'.unit.Some? then UnitIs(s'.unit.value) else UnitOff
    case Pause => if s'.unit.Some? then UnitIs(s'.unit.value) else UnitOff
    case _ => if s'.dir.Some? then DirIs(s'.dir.value) else DirOff
  }

  lemma BringUpOp(s: Slot, ar: Archive, s': Slot)
    requires s.act.Some? && BringUp(s, ar, s') && !SameResources(s, s')
    ensures Performs(s.act.value.stage, OpAt(s, s.act.value.stage, s'))
    ensures SameResources(OnSlot(s, OpAt(s, s.act.value.stage, s')), s')
  {
  }

  lemma TearDownOp(s: Slot, s': Slot)
    requires s.act.Some? && TearDown(s, s') && !SameResources(s, s')
    ensures Performs(s.act.value.stage, OpAt(s, s.act.value.stage, s'))
    ensures SameResources(OnSlot(s, OpAt(s, s.act.value.stage, s')), s')
  {
  }

  lemma SnapshotOp(s: Slot, ar: Archive, s': Slot, ar': Archive)
    requires s.act.Some? && s.act.value.command.Snapshot? && TakeSnapshot(s, ar, s', ar') && !SameResources(s, s')
    ensures Performs(s.act.value.stage, OpAt(s, s.act.value.stage, s'))
    ensures SameResources(OnSlot(s, OpAt(s, s.act.value.stage, s')), s')
  {
  }

  // A success does exactly the stage's operation, or has nothing to do.
  lemma AdvanceIsNamed(s: Slot, ar: Archive, s': Slot, ar': Archive) returns (ops: seq<SlotOp>)
    requires Advance(s, ar, s', ar')
    ensures AtMost(s.act.value.stage, ops) && SameResources(OnSlotAll(s, ops), s')
  {
    hide BringUp, TearDown, TakeSnapshot, OpAt, Performs;
    ops := [];
    if !SameResources(s, s') {
      if BringUp(s, ar, s') {
        BringUpOp(s, ar, s');
      } else if TearDown(s, s') {
        TearDownOp(s, s');
      } else {
        SnapshotOp(s, ar, s', ar');
      }
      One(s, OpAt(s, s.act.value.stage, s'));
      ops := [OpAt(s, s.act.value.stage, s')];
    }
  }

  lemma PartIsNamed(s: Slot, ar: Archive, m: Slot, ar': Archive) returns (ops: seq<SlotOp>)
    requires s.act.Some? && PartOf(s, ar, m, ar')
    ensures AtMost(s.act.value.stage, ops) && SameResources(OnSlotAll(s, ops), m)
  {
    ops := [];
    if !SameResources(s, m) {
      var so := OpAt(s, s.act.value.stage, m);
      One(s, so);
      ops := [so];
    } else {
      One(s, TapOn);
    }
  }

  lemma StepIsNamed(w: World, i: nat, w': World) returns (ops: seq<SlotOp>)
    requires StepAt(w, i, w') || RestoreGivesUpAt(w, i, w')
    ensures SlotStep(w, i, w') && MayDo(w, i, w', ops)
  {
    hide Advance, PartOf, Begin, AtMost;
    StepsAreSlotSteps(w, i, w');
    var s, s', ar, ar' := w.slots[i], w'.slots[i], w.archive, w'.archive;
    if Advance(s, ar, s', ar') {
      ops := AdvanceIsNamed(s, ar, s', ar');
    } else if Fail(s, ar, s', ar') || FailDroppingRow(s, ar, s', ar') {
      var m :| PartOf(s, ar, m, ar') && (s' == End(m) || s' == End(m).(row := None));
      ops := PartIsNamed(s, ar, m, ar');
    } else {
      ops := QuietStepIsNamed(s, ar, s', w, i, w');
    }
  }

  lemma QuietStepIsNamed(s: Slot, ar: Archive, s': Slot, w: World, i: nat, w': World) returns (ops: seq<SlotOp>)
    requires
      || Begin(s, ar, s') || StopsInVain(s, s') || Die(s, s') || UnitDies(s, s') || ForwardDies(s, s') || GuestWrites(s, s')
      || StartsRun(w, i, w') || StartsRestore(w, i, w')
    requires i < |w.slots| && i < |w'.slots| && s == w.slots[i] && s' == w'.slots[i]
    ensures SameResources(OnSlotAll(s, ops), s')
  {
    ops := [];
    if SameResources(s, s') {
    } else if UnitDies(s, s') {
      One(s, UnitOff);
      ops := [UnitOff];
    } else if ForwardDies(s, s') {
      var so := ForwardsVanish(s.forwards - s'.forwards);
      One(s, so);
      ops := [so];
      assert s.forwards - (s.forwards - s'.forwards) == s'.forwards;
    } else {
      var first, second := UnitIs(s'.unit.value), DirIs(s'.dir.value);
      One(s, first);
      ops := [first] + [second];
      assert ops[..1] == [first];
    }
  }

  // ----- Runs of the named host

  ghost predicate NamedStepAt(w: World, h: Host, i: nat, ops: seq<SlotOp>, w': World, h': Host) {
    && SlotStep(w, i, w') && (StepAt(w, i, w') || RestoreGivesUpAt(w, i, w'))
    && MayDo(w, i, w', ops) && h' == DoAll(h, i, ops)
  }

  ghost predicate MovesAt(w: World, h: Host, i: nat, w': World, h': Host) {
    exists ops :: NamedStepAt(w, h, i, ops, w', h')
  }

  ghost predicate NamedStep(w: World, h: Host, w': World, h': Host) {
    (Forgets(w, w') && h' == h) || exists i: nat :: MovesAt(w, h, i, w', h')
  }

  // A run of Lifecycle together with what the named host goes through. The host only ever sees
  // the names; it is not told the slot.
  ghost predicate IsNamedRun(run: seq<World>, hosts: seq<Host>) {
    && IsRun(run) && |hosts| == |run| && hosts[0] == BARE_HOST
    && forall k :: 0 <= k < |run| - 1 ==> NamedStep(run[k], hosts[k], run[k + 1], hosts[k + 1])
  }

  // Every run of Lifecycle is one.
  lemma {:induction false} EveryRunIsNamed(run: seq<World>) returns (hosts: seq<Host>)
    requires IsRun(run)
    ensures IsNamedRun(run, hosts)
  {
    hide NamedStep, Step;
    if |run| == 1 {
      hosts := [BARE_HOST];
    } else {
      var n := |run| - 1;
      var before := EveryRunIsNamed(run[..n]);
      assert Step(run[n - 1], run[n - 1 + 1]);
      var next := NextHost(run[n - 1], before[n - 1], run[n]);
      hosts := before + [next];
      forall k | 0 <= k < |run| - 1 ensures NamedStep(run[k], hosts[k], run[k + 1], hosts[k + 1]) {
        if k < n - 1 {
          assert NamedStep(run[..n][k], before[k], run[..n][k + 1], before[k + 1]);
        }
      }
    }
  }

  lemma NextHost(w: World, h: Host, w': World) returns (h': Host)
    requires Step(w, w')
    ensures NamedStep(w, h, w', h')
  {
    hide StepAt, RestoreGivesUpAt, MayDo;
    if Forgets(w, w') {
      h' := h;
    } else {
      var i: nat :| StepAt(w, i, w') || RestoreGivesUpAt(w, i, w');
      var ops := StepIsNamed(w, i, w');
      h' := DoAll(h, i, ops);
      assert NamedStepAt(w, h, i, ops, w', h');
      assert MovesAt(w, h, i, w', h');
    }
  }

  lemma {:induction false} NamedOpsAreLocal(h: Host, i: nat, ops: seq<SlotOp>, j: nat, s: Slot)
    requires ShowsSlot(h, j, s)
    ensures ShowsSlot(DoAll(h, i, ops), j, if i == j then OnSlotAll(s, ops) else s)
  {
    hide ShowsSlot, Do, Named, OnSlot;
    if ops != [] {
      var n := |ops| - 1;
      NamedOpsAreLocal(h, i, ops[..n], j, s);
      NamedOpIsLocal(DoAll(h, i, ops[..n]), i, ops[n], j, if i == j then OnSlotAll(s, ops[..n]) else s);
    }
  }

  lemma ResourcesShow(h: Host, i: nat, s: Slot, s': Slot)
    requires ShowsSlot(h, i, s) && SameResources(s, s')
    ensures ShowsSlot(h, i, s')
  {
  }

  lemma StepKeepsShowing(w: World, h: Host, w': World, h': Host)
    requires Shows(h, w) && NamedStep(w, h, w', h')
    ensures Shows(h', w')
  {
    hide ShowsSlot, StepAt, RestoreGivesUpAt, OnSlotAll, DoAll, AtMost;
    if !(Forgets(w, w') && h' == h) {
      var i: nat :| MovesAt(w, h, i, w', h');
      var ops :| NamedStepAt(w, h, i, ops, w', h');
      forall j | 0 <= j < |w'.slots| ensures ShowsSlot(h', j, w'.slots[j]) {
        NamedOpsAreLocal(h, i, ops, j, w.slots[j]);
        if j == i {
          ResourcesShow(h', i, OnSlotAll(w.slots[i], ops), w'.slots[i]);
        }
      }
    }
  }

  // The slots of Lifecycle are what is there under their names, at every point of every run.
  lemma {:induction false} NamedRunShows(run: seq<World>, hosts: seq<Host>, k: nat)
    requires IsNamedRun(run, hosts) && k < |run|
    ensures Shows(hosts[k], run[k])
  {
    hide ShowsSlot, NamedStep;
    if k == 0 {
      forall i | 0 <= i < SLOT_LIMIT ensures ShowsSlot(BARE_HOST, i, EMPTY_SLOT) {
        BareShowsEmpty(i);
      }
    } else {
      NamedRunShows(run, hosts, k - 1);
      assert NamedStep(run[k - 1], hosts[k - 1], run[k - 1 + 1], hosts[k - 1 + 1]);
      StepKeepsShowing(run[k - 1], hosts[k - 1], run[k], hosts[k]);
    }
  }

  lemma BareShowsEmpty(i: nat)
    ensures ShowsSlot(BARE_HOST, i, EMPTY_SLOT)
  {
  }

  // ----- The teardown frame

  // Nothing on the host bears a name of VM i.
  ghost predicate NothingNamed(h: Host, i: nat) {
    && TapName(i) !in h.taps && VmUnitName(i) !in h.units && VmId(i) !in h.dirs
    && forall port: int :: ForwardName(i, port) !in h.units
  }

  // Everything named for VM j is as it was.
  ghost predicate SameNamed(h: Host, h': Host, j: nat) {
    && (TapName(j) in h.taps <==> TapName(j) in h'.taps)
    && Lookup(h.units, VmUnitName(j)) == Lookup(h'.units, VmUnitName(j))
    && Lookup(h.dirs, VmId(j)) == Lookup(h'.dirs, VmId(j))
    && forall port: int :: Lookup(h.units, ForwardName(j, port)) == Lookup(h'.units, ForwardName(j, port))
  }

  // A step of another VM, or of no VM.
  ghost predicate MovesElsewhere(w: World, h: Host, j: nat, w': World, h': Host) {
    (Forgets(w, w') && h' == h) || exists i: nat :: i != j && MovesAt(w, h, i, w', h')
  }

  // From state a to state m VM j takes no step.
  ghost predicate Rests(run: seq<World>, hosts: seq<Host>, a: nat, m: nat, j: nat)
    requires a <= m < |run| && |hosts| == |run|
  {
    forall k :: a <= k < m ==> MovesElsewhere(run[k], hosts[k], j, run[k + 1], hosts[k + 1])
  }

  // VM j is in state m as it was in state a, and so is all that bears its names.
  ghost predicate Untouched(run: seq<World>, hosts: seq<Host>, a: nat, m: nat, j: nat)
    requires a <= m < |run| && |hosts| == |run| && j < |run[a].slots|
  {
    j < |run[m].slots| && run[m].slots[j] == run[a].slots[j] && SameNamed(hosts[a], hosts[m], j)
  }

  // Whatever the commands of all other VMs do meanwhile.
  lemma {:induction false} RestingVmIsUntouched(run: seq<World>, hosts: seq<Host>, a: nat, m: nat, j: nat)
    requires IsNamedRun(run, hosts) && a <= m < |run| && j < |run[a].slots| && Rests(run, hosts, a, m, j)
    ensures Untouched(run, hosts, a, m, j)
  {
    hide IsRun, NamedStep, StepAt, RestoreGivesUpAt, MayDo, ShowsSlot, SameNamed;
    if a < m {
      RestingVmIsUntouched(run, hosts, a, m - 1, j);
      assert MovesElsewhere(run[m - 1], hosts[m - 1], j, run[m - 1 + 1], hosts[m - 1 + 1]);
    }
    assert j < |run[m].slots| && run[m].slots[j] == run[a].slots[j];
    NamedRunShows(run, hosts, a);
    NamedRunShows(run, hosts, m);
    SameSlotSameNames(hosts[a], hosts[m], j, run[a].slots[j]);
  }

  lemma SameSlotSameNames(h: Host, h': Host, j: nat, s: Slot)
    requires ShowsSlot(h, j, s) && ShowsSlot(h', j, s)
    ensures SameNamed(h, h', j)
  {
  }

  // A destroy or a snapshot that succeeds leaves no tap and no directory under its VM's names, and
  // nothing at all if and only if the unit is gone, which after a snapshot it is. Over the whole
  // command, from any state a before it, every VM that took no step of its own finds everything
  // under its names as it was.
  lemma TearDownFrame(run: seq<World>, hosts: seq<Host>, a: nat, m: nat, i: nat)
    requires IsNamedRun(run, hosts) && a < m < |run|
    requires i < |run[m - 1].slots| && i < |run[m].slots|
    requires DropsRow(run[m - 1].slots[i], run[m - 1].archive, run[m].slots[i], run[m].archive)
    ensures run[m].slots[i].row.None? && TapName(i) !in hosts[m].taps && VmId(i) !in hosts[m].dirs
    ensures NothingNamed(hosts[m], i) <==> VmUnitName(i) !in hosts[m].units
    ensures run[m - 1].slots[i].act.value.command.Snapshot? ==> NothingNamed(hosts[m], i)
    ensures forall j: nat :: j < |run[a].slots| && Rests(run, hosts, a, m, j) ==> Untouched(run, hosts, a, m, j)
  {
    hide Advance, NamedStep, MovesAt, ShowsSlot, SameNamed, NothingNamed, Rests, DropsRow;
    TearDownLeavesNothing(run, m - 1, i);
    NamedRunShows(run, hosts, m);
    DroppedShows(hosts[m], i, run[m].slots[i]);
    forall j: nat | j < |run[a].slots| && Rests(run, hosts, a, m, j) ensures Untouched(run, hosts, a, m, j) {
      RestingVmIsUntouched(run, hosts, a, m, j);
    }
  }

  lemma DroppedShows(h: Host, i: nat, s: Slot)
    requires ShowsSlot(h, i, s) && !s.tap && s.dir.None? && s.row.None? && s.act.None?
    requires s == EMPTY_SLOT <==> s.unit.None?
    ensures TapName(i) !in h.taps && VmId(i) !in h.dirs
    ensures NothingNamed(h, i) <==> VmUnitName(i) !in h.units
    ensures s == EMPTY_SLOT ==> NothingNamed(h, i)
  {
  }
}
