// The drivers of vm/vm.go and cmd/ in their own shape: straight-line operations, loops over ports
// and files, early returns on the first error. Each is proved to be a path of the step system of
// Lifecycle, with arbitrary steps of other commands, guests and dying units between any two
// operations, so what holds of every run holds at every point of these.
module Runner {
  import opened Wrappers
  import opened Ledger
  import opened Lifecycle
  import opened LifecycleSafety
  import opened SnapshotSafety
  import opened SnapshotPaths
  import opened PortList
  import opened StoredPorts

  lemma ExtendRun(run: seq<World>, w': World)
    requires IsRun(run) && Step(run[|run| - 1], w')
    ensures IsRun(run + [w'])
  {
    hide Step;
  }

  // ----- What a command may rely on between two of its operations

  // A step at slot j that is not a command step of VM i. A restore of another VM may fail at any
  // point and leave what it had set up.
  ghost predicate ElsewhereStep(w: World, i: nat, j: nat, w': World) {
    && i < |w.slots|
    && ((StepAt(w, j, w') && (i != j || OwnAccord(w, i, w'))) || (i != j && RestoreGivesUpAt(w, j, w')))
  }

  // VM i's unit dies, one of its forwarders dies, or its guest writes.
  predicate OwnAccord(w: World, i: nat, w': World)
    requires i < |w.slots|
  {
    && SlotStep(w, i, w') && w'.archive == w.archive
    && var s, s' := w.slots[i], w'.slots[i];
       UnitDies(s, s') || ForwardDies(s, s') || GuestWrites(s, s')
  }

  // Or somebody deletes a snapshot's registration.
  ghost predicate Elsewhere(w: World, i: nat, w': World) {
    i < |w.slots| && (Forgets(w, w') || exists j: nat :: ElsewhereStep(w, i, j, w'))
  }

  // Such a step never touches the command of VM i and never gives it a unit, and what held of the
  // whole system still holds.
  lemma RelyHolds(w: World, i: nat, w': World)
    requires AllOk(w) && DirsExclusive(w) && Elsewhere(w, i, w')
    ensures AllOk(w') && i < |w.slots| == |w'.slots| && w'.slots[i].act == w.slots[i].act
    ensures w.slots[i].unit.None? ==> w'.slots[i].unit.None?
  {
    hide AllOk, DirsExclusive, StepAt, RestoreGivesUpAt, ElsewhereStep;
    if Forgets(w, w') {
      ForgettingKeepsOk(w, w');
    } else {
      var j: nat :| ElsewhereStep(w, i, j, w');
      ElsewhereKeepsAct(w, i, j, w');
      StepKeepsOk(w, j, w');
    }
  }

  // Where no unit and no forwarder dies by itself, all that may happen to VM i is that its guest, if
  // it runs, writes.
  predicate Steady(s: Slot, s': Slot) {
    s' == s || GuestWrites(s, s')
  }

  lemma CalmStepIsSteady(w: World, i: nat, w': World)
    requires Elsewhere(w, i, w') && i < |w'.slots|
    requires !UnitDies(w.slots[i], w'.slots[i]) && !ForwardDies(w.slots[i], w'.slots[i])
    ensures Steady(w.slots[i], w'.slots[i])
  {
    hide StepAt, RestoreGivesUpAt;
    if !Forgets(w, w') {
      var j: nat :| ElsewhereStep(w, i, j, w');
      if j != i {
        StepsAreSlotSteps(w, j, w');
      }
    }
  }

  lemma SteadyStill(s: Slot, s': Slot, s'': Slot)
    requires Steady(s, s') && Steady(s', s'')
    ensures Steady(s, s'')
  {
  }

  // Any number of them.
  ghost predicate ElsewherePath(path: seq<World>, i: nat) {
    path != [] && forall k :: 0 <= k < |path| - 1 ==> Elsewhere(path[k], i, path[k + 1])
  }

  lemma {:induction false} RelyHoldsAlong(path: seq<World>, i: nat, k: nat)
    requires ElsewherePath(path, i) && k < |path| && i < |path[0].slots|
    requires AllOk(path[0]) && forall j :: 0 <= j < k ==> DirsExclusive(path[j])
    ensures AllOk(path[k]) && i < |path[k].slots| && path[k].slots[i].act == path[0].slots[i].act
    ensures path[0].slots[i].unit.None? ==> path[k].slots[i].unit.None?
  {
    hide AllOk, DirsExclusive, Elsewhere;
    if k > 0 {
      RelyHoldsAlong(path, i, k - 1);
      assert Elsewhere(path[k - 1], i, path[k - 1 + 1]);
      RelyHolds(path[k - 1], i, path[k]);
    }
  }

  lemma ElsewhereKeepsAct(w: World, i: nat, j: nat, w': World)
    requires ElsewhereStep(w, i, j, w')
    ensures StepAt(w, j, w') || RestoreGivesUpAt(w, j, w')
    ensures i < |w.slots| == |w'.slots| && w'.slots[i].act == w.slots[i].act
    ensures w.slots[i].unit.None? ==> w'.slots[i].unit.None?
  {
  }

  lemma SlotFacts(w: World, i: nat)
    requires AllOk(w) && i < |w.slots|
    ensures |w.slots| == SLOT_LIMIT && ArchiveOk(w.archive)
    ensures Sound(w.slots[i]) && SlotOk(w.slots[i], w.archive)
  {
  }

  // A step of VM i that starts no command and registers nothing leaves directories as exclusive as
  // they were.
  lemma DirsStayExclusive(w: World, i: nat, w': World)
    requires DirsExclusive(w) && SlotStep(w, i, w') && w'.archive.registered == w.archive.registered
    requires w'.slots[i].act.Some? ==>
               && w.slots[i].act.Some? && w'.slots[i].act.value.command == w.slots[i].act.value.command
               && (w.slots[i].act.value.stage.DropRow? ==> w'.slots[i].act.value.stage.DropRow?)
    ensures DirsExclusive(w')
  {
    forall k, l, dir | 0 <= k < |w.slots| && 0 <= l < |w.slots| && k != l
      ensures !(Saves(w'.slots[k], dir) && Uses(w'.slots[l], dir))
    {
      assert !(Saves(w.slots[k], dir) && Uses(w.slots[l], dir));
    }
    forall k, name | 0 <= k < |w.slots| && name in w'.archive.registered
      ensures !Writing(w'.slots[k], w'.archive.registered[name].dir)
    {
      assert !Writing(w.slots[k], w.archive.registered[name].dir);
    }
  }

  // Nor does registering the snapshot just saved.
  lemma RegisteringStaysExclusive(w: World, i: nat, w': World)
    requires DirsExclusive(w) && SlotStep(w, i, w')
    requires w.slots[i].act.Some? && w.slots[i].act.value.command.Snapshot?
    requires w'.slots[i].act == Some(w.slots[i].act.value.(stage := DropRow))
    requires var a := w.slots[i].act.value;
             w'.archive.registered == w.archive.registered[a.command.name := Saved(a.row, a.command.dir)]
    ensures DirsExclusive(w')
  {
    var dir := w.slots[i].act.value.command.dir;
    assert Saves(w.slots[i], dir);
    forall k, l, d | 0 <= k < |w.slots| && 0 <= l < |w.slots| && k != l
      ensures !(Saves(w'.slots[k], d) && Uses(w'.slots[l], d))
    {
      assert !(Saves(w.slots[k], d) && Uses(w.slots[l], d));
    }
    forall k, name | 0 <= k < |w.slots| && name in w'.archive.registered
      ensures !Writing(w'.slots[k], w'.archive.registered[name].dir)
    {
      assert k != i ==> !(Saves(w.slots[i], dir) && Uses(w.slots[k], dir));
    }
  }

  // The step from state k on is a stop of VM i's unit that is in vain.
  predicate VainStopAt(history: seq<World>, k: nat, i: nat) {
    && k + 1 < |history| && i < |history[k].slots| && i < |history[k + 1].slots|
    && StopsInVain(history[k].slots[i], history[k + 1].slots[i])
    && history[k].slots[i].act.value.stage.StopUnit?
  }

  // The name is registered for this row and this cut, and its directory holds the cut.
  predicate HasSaved(ar: Archive, c: Command, row: Row, cut: Cut)
    requires c.Snapshot?
  {
    && c.name in ar.registered && ar.registered[c.name] == Saved(row, c.dir)
    && c.name in ar.cuts && ar.cuts[c.name] == cut && ArchiveHolds(ar, c.dir, cut)
  }

  // The guest of this run or restore has just been started: its VM has the row, the tap and the
  // directory it is meant to have, with the image it was given, or the disk and the rest of the cut.
  predicate Booted(s: Slot, c: Command, row: Row, cut: Option<Cut>) {
    && s.row == Some(row) && s.tap
    && s.unit.Some? && s.unit.value.Running?
    && s.dir.Some? && Rootfs in s.dir.value
    && (c.Run? ==> s.dir.value[Rootfs] == c.image)
    && (c.Restore? ==>
          && cut.Some? && s.unit.value.guest == cut.value.guest && s.dir.value[Rootfs] == cut.value.rootfs)
  }

  ghost predicate BootedAt(h: seq<World>, from: nat, at: nat, i: nat, a: Activity) {
    from <= at < |h| && i < |h[at].slots| && Booted(h[at].slots[i], a.command, a.row, a.cut)
  }

  // The step to state `at` has started the forwarder of VM i for this port, on a unit that was there.
  ghost predicate LaunchedAt(h: seq<World>, at: nat, i: nat, port: int) {
    && 0 < at < |h| && i < |h[at - 1].slots| && i < |h[at].slots|
    && port !in h[at - 1].slots[i].forwards && h[at - 1].slots[i].unit.Some?
    && h[at].slots[i] == h[at - 1].slots[i].(forwards := h[at - 1].slots[i].forwards + {port}, act := h[at].slots[i].act)
  }

  // One after the other, from state `from` on, a forwarder for each of these ports was started.
  ghost predicate Launched(h: seq<World>, from: nat, times: seq<nat>, i: nat, ports: seq<int>) {
    && |times| == |ports|
    && (forall k :: 0 <= k < |ports| ==> from <= times[k] && LaunchedAt(h, times[k], i, ports[k]))
    && forall j, k :: 0 <= j < k < |ports| ==> times[j] < times[k]
  }

  lemma LaunchedOneMore(h: seq<World>, h': seq<World>, from: nat, times: seq<nat>, i: nat, ports: seq<int>, at: nat, port: int)
    requires Launched(h, from, times, i, ports) && h <= h' && from <= |h| <= at && LaunchedAt(h', at, i, port)
    ensures Launched(h', from, times + [at], i, ports + [port])
  {
    forall k | 0 <= k < |ports| ensures times[k] < |h| && LaunchedAt(h', times[k], i, ports[k]) {
      assert LaunchedAt(h, times[k], i, ports[k]);
    }
  }

  lemma LaunchedStay(h: seq<World>, h': seq<World>, from: nat, earlier: nat, times: seq<nat>, i: nat, ports: seq<int>)
    requires Launched(h, from, times, i, ports) && h <= h' && earlier <= from
    ensures Launched(h', earlier, times, i, ports)
  {
    forall k | 0 <= k < |ports| ensures LaunchedAt(h', times[k], i, ports[k]) {
      assert LaunchedAt(h, times[k], i, ports[k]);
    }
  }

  lemma PausesAsItWas(s: Slot, a: Activity)
    requires s.unit.Some? && !s.unit.value.Starting? && s.dir.Some? && Rootfs in s.dir.value
    ensures WasPaused(s, s.(unit := Some(Paused(s.unit.value.guest)), act := Some(a)), Cut(s.unit.value.guest, s.dir.value[Rootfs]))
  {
  }

  lemma VainStopsStay(h: seq<World>, h': seq<World>, i: nat)
    requires h <= h'
    ensures forall k: nat :: VainStopAt(h, k, i) ==> VainStopAt(h', k, i)
  {
  }

  class Host {
    var world: World
    // Every state since the empty host, the current one last.
    ghost var history: seq<World>

    // Also what is assumed of the other commands: none uses or registers a directory that a
    // snapshot is being saved into.
    ghost predicate Valid()
      reads this
    {
      IsRun(history) && history[|history| - 1] == world && AllOk(world) && DirsExclusive(world)
    }

    // No operation fails, and no unit and no forwarder dies by itself.
    const calm: bool

    constructor (dataDir: Path, calm: bool)
      ensures Valid() && world == InitialWorld(dataDir) && this.calm == calm
    {
      this.calm := calm;
      world := InitialWorld(dataDir);
      history := [InitialWorld(dataDir)];
      InitiallyOk(dataDir);
    }

    // No command acts on VM i, which has a row.
    ghost predicate Idle(i: nat)
      reads this
    {
      Valid() && i < |world.slots| && world.slots[i].act.None? && world.slots[i].row.Some?
    }

    // The command on slot i stands at this activity.
    ghost predicate At(i: nat, a: Activity)
      reads this
    {
      Valid() && i < |world.slots| && world.slots[i].act == Some(a)
    }

    // Anything other commands, guests and dying units do meanwhile; RelyHoldsAlong is why this
    // much can be said about it.
    method Others(i: nat)
      requires Valid() && i < |world.slots|
      modifies this
      ensures Valid() && old(history) <= history && i < |world.slots|
      ensures world.slots[i].act == old(world.slots[i].act)
      ensures old(world.slots[i].unit.None?) ==> world.slots[i].unit.None?
      ensures calm ==> Steady(old(world).slots[i], world.slots[i])
    {
    }

    // Whether the current operation does what it should, if it can.
    method Works() returns (ok: bool)
      ensures calm ==> ok
    {
      ok := *;
      ok := calm || ok;
    }

    // One step of a command at slot i.
    method Take(i: nat, s': Slot, ar': Archive)
      requires Valid() && i < |world.slots| && StepAt(world, i, World(world.slots[i := s'], ar'))
      requires DirsExclusive(World(world.slots[i := s'], ar'))
      modifies this
      ensures Valid() && history == old(history) + [world]
      ensures world == World(old(world).slots[i := s'], ar')
    {
      hide StepAt, AllOk, DirsExclusive;
      var w' := World(world.slots[i := s'], ar');
      StepKeepsOk(world, i, w');
      ExtendRun(history, w');
      world := w';
      history := history + [world];
    }

    // The current operation succeeds.
    method Succeed(i: nat, s': Slot, ar': Archive)
      requires Valid() && i < |world.slots| && Advance(world.slots[i], world.archive, s', ar')
      modifies this
      ensures Valid() && history == old(history) + [world]
      ensures world == World(old(world).slots[i := s'], ar')
    {
      hide AllOk, DirsExclusive, BringUp, TearDown, TakeSnapshot;
      var w' := World(world.slots[i := s'], ar');
      assert StepAt(world, i, w');
      AdvanceKeepsCommand(world.slots[i], world.archive, s', ar');
      if world.slots[i].act.value.stage.Register? {
        RegisteringStaysExclusive(world, i, w');
      } else {
        DirsStayExclusive(world, i, w');
      }
      Take(i, s', ar');
    }

    // The stop of a unit or of a forwarder reports success without having stopped it.
    method SucceedInVain(i: nat, s': Slot)
      requires Valid() && i < |world.slots| && StopsInVain(world.slots[i], s')
      modifies this
      ensures Valid() && history == old(history) + [world]
      ensures world == World(old(world).slots[i := s'], old(world).archive)
    {
      hide AllOk, DirsExclusive;
      var w' := World(world.slots[i := s'], world.archive);
      assert StepAt(world, i, w');
      DirsStayExclusive(world, i, w');
      Take(i, s', world.archive);
    }

    // The command is entered.
    method Start(i: nat, s': Slot)
      requires Idle(i) && Begin(world.slots[i], world.archive, s')
      requires DirsExclusive(World(world.slots[i := s'], world.archive))
      modifies this
      ensures Valid() && old(history) < history && i < |world.slots|
      ensures world.slots[i].act == s'.act
      ensures calm ==> Steady(s', world.slots[i])
    {
      hide AllOk, DirsExclusive, Begin;
      assert StepAt(world, i, World(world.slots[i := s'], world.archive));
      Take(i, s', world.archive);
      Others(i);
    }

    // What a failed operation leaves behind: any part of its effect.
    method Partly(i: nat) returns (m: Slot, ar: Archive)
      requires Valid() && i < |world.slots| && world.slots[i].act.Some?
      ensures PartOf(world.slots[i], world.archive, m, ar) && m.row == world.slots[i].row
    {
      m, ar := *, *;
      if !PartOf(world.slots[i], world.archive, m, ar) {
        m, ar := world.slots[i], world.archive;
      }
    }

    // The current operation has failed and the command returns its error: any part of the
    // operation may have taken effect, and the VM keeps its row.
    method ReturnError(i: nat)
      requires Valid() && i < |world.slots| && world.slots[i].act.Some?
      modifies this
      ensures old(history) < history && Idle(i) && world.slots[i].row == old(world.slots[i].row)
      ensures world.slots[i].row == Some(old(world.slots[i].act).value.row)
    {
      hide AllOk, DirsExclusive, PartOf;
      var m, ar := Partly(i);
      assert Fail(world.slots[i], world.archive, End(m), ar);
      ghost var w' := World(world.slots[i := End(m)], ar);
      assert StepAt(world, i, w');
      DirsStayExclusive(world, i, w');
      SlotFacts(world, i);
      Take(i, End(m), ar);
    }

    // ----- The operations (vm/vm.go). Each may fail; what a failure leaves behind comes about
    // where the command returns its error.

    // VM i's unit was still there after a stop that reported success, at a step from `from` on.
    ghost predicate StoppedInVain(from: nat, i: nat)
      reads this
    {
      exists k: nat :: from <= k && VainStopAt(history, k, i)
    }

    method SupervisorStop(i: nat, a: Activity) returns (ok: bool)
      requires At(i, a) && a.stage.StopUnit?
      modifies this
      ensures old(history) <= history && At(i, if ok then a.(stage := StopForwards(a.row.ports)) else a)
      ensures ok ==> world.slots[i].unit.None? || StoppedInVain(|old(history)| - 1, i)
      ensures calm ==> ok && world.slots[i].unit.None?
    {
      hide AllOk, DirsExclusive;
      ok := Works();
      var inVain: bool := *;
      inVain := inVain && !calm;
      ghost var before := |history| - 1;
      if ok && inVain && world.slots[i].unit.Some? {
        SucceedInVain(i, Goto(world.slots[i], StopForwards(a.row.ports)));
        assert VainStopAt(history, before, i);
      } else if ok {
        Succeed(i, Goto(WithoutUnit(world.slots[i]), StopForwards(a.row.ports)), world.archive);
      }
      Others(i);
      assert ok && inVain && old(world.slots[i].unit.Some?) ==> VainStopAt(history, before, i);
    }

    method ForwarderStop(i: nat, a: Activity) returns (ok: bool)
      requires At(i, a) && a.stage.StopForwards? && a.stage.todo != []
      modifies this
      ensures old(history) <= history && At(i, if ok then a.(stage := StopForwards(a.stage.todo[1..])) else a)
      ensures old(world.slots[i].unit.None?) ==> world.slots[i].unit.None?
      ensures calm ==> ok && world.slots[i].forwards == old(world).slots[i].forwards - {a.stage.todo[0]}
    {
      hide AllOk, DirsExclusive;
      ok := Works();
      var inVain: bool := *;
      inVain := inVain && !calm;
      var s, todo := world.slots[i], a.stage.todo;
      if ok && inVain && todo[0] in s.forwards {
        SucceedInVain(i, Goto(s, StopForwards(todo[1..])));
      } else if ok {
        Succeed(i, Goto(s, StopForwards(todo[1..])).(forwards := s.forwards - {todo[0]}), world.archive);
      }
      Others(i);
    }

    method StopPortForwards(i: nat, a: Activity) returns (ok: bool, ghost b: Activity)
      requires At(i, a) && a.stage == StopForwards(a.row.ports) && !a.command.RemovePort?
      modifies this
      ensures old(history) <= history && At(i, b)
      ensures if ok then b == a.(stage := DeleteTap)
              else exists k :: 0 <= k < |a.row.ports| && b == a.(stage := StopForwards(a.row.ports[k..]))
      ensures old(world.slots[i].unit.None?) ==> world.slots[i].unit.None?
      ensures calm ==> ok
    {
      hide AllOk, DirsExclusive;
      b := a;
      for k := 0 to |a.row.ports|
        invariant old(history) <= history
        invariant b == a.(stage := StopForwards(a.row.ports[k..])) && At(i, b)
        invariant old(world.slots[i].unit.None?) ==> world.slots[i].unit.None?
      {
        ok := ForwarderStop(i, a.(stage := StopForwards(a.row.ports[k..])));
        if !ok {
          return;
        }
        assert a.row.ports[k..][1..] == a.row.ports[k + 1..];
        b := a.(stage := StopForwards(a.row.ports[k + 1..]));
      }
      Succeed(i, Goto(world.slots[i], DeleteTap), world.archive);
      ok, b := true, a.(stage := DeleteTap);
    }

    method TeardownTap(i: nat, a: Activity) returns (ok: bool)
      requires At(i, a) && a.stage.DeleteTap?
      modifies this
      ensures old(history) <= history && At(i, if ok then a.(stage := RemoveDir) else a)
      ensures old(world.slots[i].unit.None?) ==> world.slots[i].unit.None?
      ensures calm && old(world.slots[i].unit.None?) ==> ok
    {
      hide AllOk, DirsExclusive;
      ok := Works();
      ok := ok && TapIsIdle(world.slots[i]);
      if ok {
        Succeed(i, Goto(world.slots[i], RemoveDir).(tap := false), world.archive);
      }
      Others(i);
    }

    method RemoveVmDir(i: nat, a: Activity) returns (ok: bool)
      requires At(i, a) && a.stage.RemoveDir?
      modifies this
      ensures old(history) <= history
      ensures At(i, if ok then a.(stage := if a.command.Snapshot? then Register else DropRow) else a)
      ensures old(world.slots[i].unit.None?) ==> world.slots[i].unit.None?
      ensures calm ==> ok
    {
      hide AllOk, DirsExclusive;
      ok := Works();
      if ok {
        Succeed(i, Goto(world.slots[i], if a.command.Snapshot? then Register else DropRow).(dir := None), world.archive);
      }
      Others(i);
    }

    // The part Destroy and Snapshot share: stop the unit, stop the forwarders, delete the tap,
    // remove the directory.
    method TearDownVm(i: nat, a: Activity) returns (ok: bool, ghost b: Activity)
      requires At(i, a) && a.stage.StopUnit? && !a.command.RemovePort?
      modifies this
      ensures old(history) <= history && At(i, b)
      ensures ok ==> b == a.(stage := if a.command.Snapshot? then Register else DropRow)
      ensures b == a.(stage := b.stage)
      ensures ok ==> world.slots[i].unit.None? || StoppedInVain(|old(history)| - 1, i)
      ensures calm ==> ok && world.slots[i].unit.None?
    {
      hide AllOk, DirsExclusive, VainStopAt, IsRun;
      b := a;
      ok := SupervisorStop(i, a);
      if !ok { return; }
      ghost var stopped := history;
      ok, b := StopPortForwards(i, a.(stage := StopForwards(a.row.ports)));
      if !ok { return; }
      ok := TeardownTap(i, a.(stage := DeleteTap));
      if !ok { return; }
      b := a.(stage := RemoveDir);
      ok := RemoveVmDir(i, a.(stage := RemoveDir));
      if !ok { return; }
      b := a.(stage := if a.command.Snapshot? then Register else DropRow);
      VainStopsStay(stopped, history, i);
    }

    // The row is gone, and so is all of the VM but, perhaps, its unit.
    ghost predicate Dropped(i: nat)
      reads this
    {
      && Valid() && i < |world.slots|
      && var s := world.slots[i];
         && s.row.None? && s.act.None? && !s.tap && s.dir.None?
         && (s == EMPTY_SLOT <==> s.unit.None?)
    }

    // s.Remove(id), the last act of destroy and of snapshot.
    method RemoveRow(i: nat, a: Activity) returns (ok: bool)
      requires At(i, a) && a.stage.DropRow?
      modifies this
      ensures old(history) <= history
      ensures ok ==> Dropped(i) && (a.command.Snapshot? ==> world.slots[i] == EMPTY_SLOT)
      ensures ok ==> world.slots[i].unit == old(world.slots[i].unit)
      ensures !ok ==> At(i, a) && world == old(world)
      ensures calm ==> ok
    {
      hide AllOk, DirsExclusive, Sound;
      ok := Works();
      if ok {
        SlotFacts(world, i);
        var s := world.slots[i];
        Succeed(i, End(s).(row := None), world.archive);
        DropRowEmpties(s, old(world).archive, End(s).(row := None), old(world).archive);
      }
    }

    // `labctl destroy` (cmd/destroy.go): when it succeeds, nothing of the VM is left, unless the
    // stop of its unit was in vain and the unit is still there; when it fails, the row is still
    // there for another try.
    method Destroy(i: nat) returns (ok: bool)
      requires Idle(i)
      modifies this
      ensures old(history) < history
      ensures ok ==> Dropped(i) && (world.slots[i] == EMPTY_SLOT || StoppedInVain(|old(history)|, i))
      ensures !ok ==> Idle(i) && world.slots[i].row == old(world).slots[i].row
      ensures calm ==> ok && world.slots[i] == EMPTY_SLOT
    {
      hide AllOk, DirsExclusive, IsRun, VainStopAt;
      var row := world.slots[i].row.value;
      var a := Activity(Command.Destroy, StopUnit, row, None);
      NewUserIsExclusive(world, i, World(world.slots[i := world.slots[i].(act := Some(a))], world.archive));
      Start(i, world.slots[i].(act := Some(a)));
      ghost var b;
      ok, b := TearDownVm(i, a);
      ghost var stopped := history;
      if ok {
        ok := RemoveRow(i, a.(stage := DropRow));
        VainStopsStay(stopped, history, i);
      }
      if !ok {
        ReturnError(i);
      }
    }

    // State `at` of the history, which is not before `from`, has just had VM i paused, with the memory
    // and the disk it had before.
    ghost predicate PausedAt(from: nat, at: nat, i: nat, c: Cut)
      reads this
    {
      && from <= at < |history| && 0 < at && i < |history[at].slots| && i < |history[at - 1].slots|
      && WasPaused(history[at - 1].slots[i], history[at].slots[i], c)
    }

    method PauseVm(i: nat, a: Activity) returns (ok: bool, b: Activity, ghost at: nat)
      requires At(i, a) && a.stage.Pause? && a.command.Snapshot?
      modifies this
      ensures old(history) <= history && At(i, b)
      ensures if ok then b.cut.Some? && b == a.(stage := Create, cut := b.cut) else b == a
      ensures ok ==> PausedAt(|old(history)|, at, i, b.cut.value)
      ensures calm && IsUp(old(world).slots[i]) ==> ok && world.slots[i].unit.Some? && world.slots[i].unit.value.Paused?
    {
      hide AllOk, DirsExclusive, WasPaused;
      SlotFacts(world, i);
      b, at := a, 0;
      ok := Works();
      var s := world.slots[i];
      ok := ok && s.unit.Some? && !s.unit.value.Starting?;
      if ok {
        b := a.(stage := Create, cut := Some(Cut(s.unit.value.guest, s.dir.value[Rootfs])));
        PausesAsItWas(s, b);
        Succeed(i, s.(unit := Some(Paused(s.unit.value.guest)), act := Some(b)), world.archive);
        at := |history| - 1;
      }
      Others(i);
    }

    method CreateSnapshot(i: nat, a: Activity) returns (ok: bool)
      requires At(i, a) && a.stage.Create? && a.command.Snapshot?
      modifies this
      ensures old(history) <= history && At(i, if ok then a.(stage := MakeSnapshotDir) else a)
      ensures calm && old(world).slots[i].unit.Some? ==> ok
    {
      hide AllOk, DirsExclusive;
      SlotFacts(world, i);
      ok := Works();
      var s := world.slots[i];
      ok := ok && s.unit.Some?;
      if ok {
        var g := s.unit.value.guest;
        Succeed(i, Goto(s, MakeSnapshotDir).(dir := Some(s.dir.value[SnapshotBin := g.devices][MemBin := g.memory])), world.archive);
      }
      Others(i);
    }

    method MakeDirForSnapshot(i: nat, a: Activity) returns (ok: bool)
      requires At(i, a) && a.stage.MakeSnapshotDir? && a.command.Snapshot?
      modifies this
      ensures old(history) <= history && At(i, if ok then a.(stage := CopyOut(0)) else a)
      ensures calm ==> ok
    {
      hide AllOk, DirsExclusive;
      ok := Works();
      if ok {
        var ar, dir := world.archive, a.command.dir;
        Succeed(i, Goto(world.slots[i], CopyOut(0)),
                ar.(dirs := ar.dirs[dir := if dir in ar.dirs then ar.dirs[dir] else map[]]));
      }
      Others(i);
    }

    method CopyFileOut(i: nat, a: Activity) returns (ok: bool)
      requires At(i, a) && a.stage.CopyOut? && a.stage.k < |SNAPSHOT_FILES| && a.command.Snapshot?
      modifies this
      ensures old(history) <= history
      ensures At(i, if ok then a.(stage := AfterCopyOut(a.stage.k)) else a)
      ensures calm ==> ok
    {
      hide AllOk, DirsExclusive;
      SlotFacts(world, i);
      ok := Works();
      if ok {
        var s, ar, dir, f := world.slots[i], world.archive, a.command.dir, SNAPSHOT_FILES[a.stage.k];
        Succeed(i, Goto(s, AfterCopyOut(a.stage.k)),
                ar.(dirs := ar.dirs[dir := ar.dirs[dir][f := s.dir.value[f]]]));
      }
      Others(i);
    }

    // State `at` of the history, which is not before `from`, is where the name was registered for
    // this row and this cut, and the directory held the whole of the cut.
    ghost predicate SavedAt(from: nat, at: nat, c: Command, row: Row, cut: Cut)
      requires c.Snapshot?
      reads this
    {
      from <= at < |history| && HasSaved(history[at].archive, c, row, cut)
    }

    // `labctl snapshot` (vm/vm.go Snapshot and cmd/snapshot.go). When it succeeds, the VM is gone,
    // and its name was registered for the one instant c at which the command had paused this VM,
    // with the whole of that instant in the directory; when it fails, the VM keeps its row.
    method Snapshot(i: nat, name: string)
      returns (ok: bool, ghost c: Option<Cut>, ghost at: nat, ghost savedAt: nat)
      requires Idle(i) && (name != "" ==> Contained(world.archive.dataDir, name))
      requires var dir := DirOf(world.archive.dataDir, name);
               && (forall j :: 0 <= j < |world.slots| ==> !Uses(world.slots[j], dir))
               && (forall n :: n in world.archive.registered && n != name ==> world.archive.registered[n].dir != dir)
      modifies this
      ensures old(history) <= history
      ensures ok ==> Valid() && i < |world.slots| && world.slots[i] == EMPTY_SLOT
      ensures ok ==> var dir := DirOf(old(world).archive.dataDir, name);
                     && c.Some? && name !in old(world).archive.registered && at < savedAt
                     && PausedAt(|old(history)|, at, i, c.value)
                     && SavedAt(|old(history)|, savedAt, Command.Snapshot(name, dir), old(world).slots[i].row.value, c.value)
      ensures !ok ==> Idle(i) && world.slots[i].row == old(world).slots[i].row
      ensures calm && name != "" && name !in old(world).archive.registered && IsUp(old(world).slots[i]) ==> ok
    {
      hide AllOk, DirsExclusive, HasSaved, WasPaused, DirOf, Contained;
      c, at, savedAt := None, 0, 0;
      if name == "" || name in world.archive.registered {
        return false, c, at, savedAt;
      }
      var row := world.slots[i].row.value;
      var a := Activity(Command.Snapshot(name, DirOf(world.archive.dataDir, name)), Pause, row, None);
      NewUserIsExclusive(world, i, World(world.slots[i := world.slots[i].(act := Some(a))], world.archive));
      Start(i, world.slots[i].(act := Some(a)));
      ghost var b;
      ok, c, at, savedAt, b := SaveAndTearDown(i, a);
      if !ok {
        ReturnError(i);
      }
    }

    method SaveAndTearDown(i: nat, a: Activity)
      returns (ok: bool, ghost c: Option<Cut>, ghost at: nat, ghost savedAt: nat, ghost b: Activity)
      requires At(i, a) && a.stage.Pause? && a.command.Snapshot?
      modifies this
      ensures old(history) <= history
      ensures ok ==> Valid() && i < |world.slots| && world.slots[i] == EMPTY_SLOT
      ensures ok ==> && c.Some? && at < savedAt
                     && PausedAt(|old(history)|, at, i, c.value)
                     && SavedAt(|old(history)|, savedAt, a.command, a.row, c.value)
      ensures !ok ==> At(i, b) && b.row == a.row
      ensures calm && IsUp(old(world).slots[i]) ==> ok
    {
      hide AllOk, DirsExclusive, HasSaved, WasPaused, IsRun;
      savedAt := 0;
      var d;
      ok, d, at := PauseVm(i, a);
      b, c := d, d.cut;
      if !ok { return; }
      ok, d := SaveFiles(i, d);
      b := d;
      if !ok { return; }
      ok, b := TearDownVm(i, d);
      if !ok { return; }
      d := d.(stage := Register);
      ok, savedAt := RegisterSnapshot(i, d);
      if !ok { return; }
      d := d.(stage := DropRow);
      b := d;
      ok := RemoveRow(i, d);
    }

    method SaveFiles(i: nat, a: Activity) returns (ok: bool, b: Activity)
      requires At(i, a) && a.stage.Create? && a.command.Snapshot?
      modifies this
      ensures old(history) <= history && At(i, b)
      ensures if ok then b == a.(stage := StopUnit)
              else b == a || b == a.(stage := MakeSnapshotDir)
                   || exists k :: 0 <= k < |SNAPSHOT_FILES| && b == a.(stage := CopyOut(k))
      ensures calm && old(world).slots[i].unit.Some? ==> ok
    {
      b := a;
      ok := CreateSnapshot(i, a);
      if !ok { return; }
      b := a.(stage := MakeSnapshotDir);
      ok := MakeDirForSnapshot(i, b);
      if !ok { return; }
      b := a.(stage := CopyOut(0));
      for k := 0 to |SNAPSHOT_FILES|
        invariant old(history) <= history
        invariant At(i, b) && b == a.(stage := if k < |SNAPSHOT_FILES| then CopyOut(k) else StopUnit)
      {
        ok := CopyFileOut(i, b);
        if !ok { return; }
        b := a.(stage := AfterCopyOut(k));
      }
      ok := true;
    }

    // s.InsertSnapshot(...)
    method RegisterSnapshot(i: nat, a: Activity) returns (ok: bool, ghost savedAt: nat)
      requires At(i, a) && a.stage.Register? && a.command.Snapshot?
      modifies this
      ensures old(history) <= history && At(i, if ok then a.(stage := DropRow) else a)
      ensures ok ==> a.cut.Some? && SavedAt(|old(history)|, savedAt, a.command, a.row, a.cut.value)
      ensures calm ==> ok
    {
      hide AllOk, DirsExclusive, IsRun;
      SlotFacts(world, i);
      savedAt := |history|;
      ok := Works();
      if ok {
        var ar, name, saved := world.archive, a.command.name, Saved(a.row, a.command.dir);
        Succeed(i, Goto(world.slots[i], DropRow),
                ar.(registered := ar.registered[name := saved], cuts := ar.cuts[name := a.cut.value]));
      }
      Others(i);
    }

    // ----- Bringing a VM up

    // The first free slot gets the row and the command; AllocateAndInsert's scan.
    method Allocate(c: Command, row: Row, cut: Option<Cut>) returns (r: Option<nat>)
      requires Valid() && ((c.Run? && row.ports == [] && cut.None?) || c.Restore?)
      requires c.Restore? ==>
                 && c.name in world.archive.registered && world.archive.registered[c.name] == Saved(row, c.dir)
                 && c.name in world.archive.cuts && cut == Some(world.archive.cuts[c.name])
                 && forall j :: 0 <= j < |world.slots| ==> !Saves(world.slots[j], c.dir)
      modifies this
      ensures Valid() && old(history) <= history
      ensures r.Some? ==> LowestFreeSlot(old(world), r.value) && At(r.value, Activity(c, MakeDir, row, cut))
      ensures r.None? ==> world == old(world) && forall j :: 0 <= j < |world.slots| ==> world.slots[j].row.Some?
      ensures calm && r.Some? && Bare(old(world).slots[r.value]) ==> Bare(world.slots[r.value])
    {
      hide AllOk, DirsExclusive;
      var i := 0;
      while i < |world.slots| && world.slots[i].row.Some?
        invariant 0 <= i <= |world.slots|
        invariant forall j :: 0 <= j < i ==> world.slots[j].row.Some?
      {
        i := i + 1;
      }
      if i == |world.slots| {
        return None;
      }
      var a := Activity(c, MakeDir, row, cut);
      var s' := world.slots[i].(row := Some(row), act := Some(a));
      ghost var w' := World(world.slots[i := s'], world.archive);
      assert Allocated(world.slots[i], w'.slots[i], c, row, cut);
      assert c.Run? ==> row == Row(row.vcpus, row.memMib, []);
      assert StartsRun(world, i, w') || StartsRestore(world, i, w');
      NewUserIsExclusive(world, i, w');
      Take(i, s', world.archive);
      Others(i);
      return Some(i);
    }

    method MakeVmDir(i: nat, a: Activity) returns (ok: bool)
      requires At(i, a) && a.stage.MakeDir?
      modifies this
      ensures old(history) <= history && At(i, if ok then a.(stage := CopyIn(0)) else a)
      ensures calm && Bare(old(world).slots[i]) ==> ok && Bare(world.slots[i])
    {
      hide AllOk, DirsExclusive;
      ok := Works();
      if ok {
        var s := world.slots[i];
        Succeed(i, Goto(s, CopyIn(0)).(dir := if s.dir.Some? then s.dir else Some(map[])), world.archive);
      }
      Others(i);
    }

    method CopyFileIn(i: nat, a: Activity) returns (ok: bool)
      requires At(i, a) && a.stage.CopyIn? && a.stage.k < |FilesToCopy(a.command)|
      modifies this
      ensures old(history) <= history && At(i, if ok then a.(stage := AfterCopyIn(a.command, a.stage.k)) else a)
      ensures calm && Bare(old(world).slots[i]) ==> ok && Bare(world.slots[i])
    {
      hide AllOk, DirsExclusive;
      SlotFacts(world, i);
      ok := Works();
      var s, f := world.slots[i], FilesToCopy(a.command)[a.stage.k];
      var src := Source(a.command, f, world.archive);
      ok := ok && src.Some?;
      if ok {
        Succeed(i, Goto(s, AfterCopyIn(a.command, a.stage.k)).(dir := Some(s.dir.value[f := src.value])), world.archive);
      }
      Others(i);
    }

    // setupChroot and setupRestoreChroot.
    method SetupChroot(i: nat, a: Activity) returns (ok: bool, b: Activity)
      requires At(i, a) && a.stage.MakeDir? && (a.command.Run? || a.command.Restore?)
      modifies this
      ensures old(history) <= history && At(i, b)
      ensures if ok then b == a.(stage := AddTap)
              else b == a || exists k :: 0 <= k < |FilesToCopy(a.command)| && b == a.(stage := CopyIn(k))
      ensures calm && Bare(old(world).slots[i]) ==> ok && Bare(world.slots[i])
    {
      hide AllOk, DirsExclusive, IsRun, Bare;
      b := a;
      ok := MakeVmDir(i, a);
      if !ok { return; }
      b := a.(stage := CopyIn(0));
      for k := 0 to |FilesToCopy(a.command)|
        invariant old(history) <= history
        invariant At(i, b) && b == a.(stage := if k < |FilesToCopy(a.command)| then CopyIn(k) else AddTap)
        invariant calm && Bare(old(world).slots[i]) ==> Bare(world.slots[i])
      {
        ok := CopyFileIn(i, b);
        if !ok { return; }
        b := a.(stage := AfterCopyIn(a.command, k));
      }
      ok := true;
    }

    method SetupTap(i: nat, a: Activity) returns (ok: bool)
      requires At(i, a) && a.stage.AddTap?
      modifies this
      ensures old(history) <= history && At(i, if ok then a.(stage := Launch) else a)
      ensures ok ==> && |old(history)| < |history| && i < |history[|old(history)|].slots|
                     && !old(world).slots[i].tap && history[|old(history)|].slots[i].tap
      ensures calm && Bare(old(world).slots[i]) ==> ok && Unstarted(world.slots[i])
    {
      hide AllOk, DirsExclusive;
      SlotFacts(world, i);
      ok := Works();
      ok := ok && !world.slots[i].tap;
      if ok {
        Succeed(i, Goto(world.slots[i], Launch).(tap := true), world.archive);
      }
      Others(i);
    }

    method SupervisorLaunch(i: nat, a: Activity) returns (ok: bool)
      requires At(i, a) && a.stage.Launch?
      modifies this
      ensures old(history) <= history && At(i, if ok then a.(stage := Boot) else a)
      ensures ok ==> && |old(history)| < |history| && i < |history[|old(history)|].slots|
                     && old(world).slots[i].unit.None? && history[|old(history)|].slots[i].unit == Some(Starting)
      ensures calm && Unstarted(old(world).slots[i]) ==> ok && Starts(world.slots[i])
    {
      hide AllOk, DirsExclusive;
      SlotFacts(world, i);
      ok := Works();
      // A unit of the name may be left over from a destroy.
      ok := ok && world.slots[i].unit.None?;
      if ok {
        Succeed(i, Goto(world.slots[i], Boot).(unit := Some(Starting)), world.archive);
      }
      Others(i);
    }

    // Waiting for the API socket, then bootVM for a run and /snapshot/load for a restore: a
    // restored guest resumes exactly at the cut.
    method BootOrLoad(i: nat, a: Activity) returns (ok: bool, ghost at: nat)
      requires At(i, a) && a.stage.Boot? && (a.command.Run? || a.command.Restore?)
      modifies this
      ensures old(history) <= history && At(i, if ok then a.(stage := StartForwards(a.row.ports)) else a)
      ensures ok ==> BootedAt(history, |old(history)|, at, i, a)
      ensures calm && Starts(old(world).slots[i]) ==> ok && RunsWith(world.slots[i], {})
    {
      hide AllOk, DirsExclusive, IsRun;
      SlotFacts(world, i);
      at := |history|;
      ok := Works();
      var booted: Guest := *;
      var s := world.slots[i];
      ok := ok && s.unit == Some(Starting);
      if ok {
        var g := if a.command.Restore? then Guest(s.dir.value[SnapshotBin], s.dir.value[MemBin]) else booted;
        Succeed(i, Goto(s, StartForwards(a.row.ports)).(unit := Some(Running(g))), world.archive);
      }
      Others(i);
    }

    method ForwarderLaunch(i: nat, a: Activity) returns (ok: bool)
      requires At(i, a) && a.stage.StartForwards? && a.stage.todo != []
      modifies this
      ensures old(history) <= history && At(i, if ok then a.(stage := StartForwards(a.stage.todo[1..])) else a)
      ensures ok ==> LaunchedAt(history, |old(history)|, i, a.stage.todo[0])
      ensures calm && old(world).slots[i].unit.Some? && a.stage.todo[0] !in old(world).slots[i].forwards ==> ok
      ensures calm ==> forall ports :: RunsWith(old(world).slots[i], ports) && a.stage.todo[0] !in ports ==>
                ok && RunsWith(world.slots[i], ports + {a.stage.todo[0]})
    {
      hide AllOk, DirsExclusive;
      ok := Works();
      var s, todo := world.slots[i], a.stage.todo;
      ok := ok && s.unit.Some? && todo[0] !in s.forwards;
      if ok {
        Succeed(i, Goto(s, StartForwards(todo[1..])).(forwards := s.forwards + {todo[0]}), world.archive);
      }
      Others(i);
    }

    method LaunchPortForwards(i: nat, a: Activity) returns (ok: bool, b: Activity, ghost times: seq<nat>)
      requires At(i, a) && a.stage == StartForwards(a.row.ports)
      modifies this
      ensures old(history) <= history && At(i, b)
      ensures if ok then b == a.(stage := StartForwards([])) && Launched(history, |old(history)|, times, i, a.row.ports)
              else exists k :: 0 <= k < |a.row.ports| && b == a.(stage := StartForwards(a.row.ports[k..]))
      ensures calm && RunsWith(old(world).slots[i], {}) && NoDuplicates(a.row.ports) ==> ok
    {
      hide AllOk, DirsExclusive, IsRun, LaunchedAt;
      b, times := a, [];
      for k := 0 to |a.row.ports|
        invariant old(history) <= history
        invariant At(i, b) && b == a.(stage := StartForwards(a.row.ports[k..]))
        invariant calm && RunsWith(old(world).slots[i], {}) && NoDuplicates(a.row.ports) ==>
                    RunsWith(world.slots[i], Elements(a.row.ports[..k]))
        invariant Launched(history, |old(history)|, times, i, a.row.ports[..k])
      {
        ghost var before := history;
        OneMoreElement(a.row.ports, k);
        ok := ForwarderLaunch(i, b);
        if !ok { return; }
        assert a.row.ports[k..][1..] == a.row.ports[k + 1..] && a.row.ports[..k] + [a.row.ports[k]] == a.row.ports[..k + 1];
        LaunchedOneMore(before, history, |old(history)|, times, i, a.row.ports[..k], |before|, a.row.ports[k]);
        b, times := a.(stage := StartForwards(a.row.ports[k + 1..])), times + [|before|];
      }
      assert a.row.ports[..|a.row.ports|] == a.row.ports;
      ok := true;
    }

    // The shared course of Run and Restore, up to the VM running detached: the guest was started on
    // what its command was given, and then each forwarder.
    method BringUpVm(i: nat, a: Activity) returns (ok: bool, b: Activity, ghost at: nat, ghost times: seq<nat>)
      requires At(i, a) && a.stage.MakeDir? && (a.command.Run? || a.command.Restore?)
      modifies this
      ensures old(history) <= history && At(i, b)
      ensures if ok then b == a.(stage := StartForwards([])) else exists stage :: b == a.(stage := stage)
      ensures ok ==> BootedAt(history, |old(history)|, at, i, a) && Launched(history, at + 1, times, i, a.row.ports)
      ensures calm && Bare(old(world).slots[i]) && NoDuplicates(a.row.ports) ==> ok
    {
      hide AllOk, DirsExclusive, IsRun, Booted, FilesToCopy, Launched;
      at, times := 0, [];
      ok, b := SetupChroot(i, a);
      if !ok { return; }
      ok := SetupTap(i, b);
      if !ok { return; }
      b := a.(stage := Launch);
      ok := SupervisorLaunch(i, b);
      if !ok { return; }
      b := a.(stage := Boot);
      ok, at := BootOrLoad(i, b);
      if !ok { return; }
      b := a.(stage := StartForwards(a.row.ports));
      ghost var up := |history|;
      ok, b, times := LaunchPortForwards(i, b);
      if !ok { return; }
      LaunchedStay(history, history, up, at + 1, times, i, a.row.ports);
    }

    // `labctl run`, one VM, detached (cmd/run.go). Success leaves a VM with the row asked for and no
    // command, whose guest was started by this call, on this image, with its tap; failure leaves
    // that row, so that the VM can be destroyed.
    method Run(image: Bytes, vcpus: int, memMib: int) returns (ok: bool, r: Option<nat>, ghost at: nat)
      requires Valid()
      modifies this
      ensures Valid() && old(history) <= history
      ensures ok ==> r.Some? && BootedAt(history, |old(history)|, at, r.value, RunOf(image, vcpus, memMib))
      ensures r.Some? ==>
                && LowestFreeSlot(old(world), r.value)
                && Idle(r.value) && world.slots[r.value].row == Some(Row(vcpus, memMib, []))
      ensures r.None? ==> world == old(world) && forall j :: 0 <= j < |world.slots| ==> world.slots[j].row.Some?
      ensures calm && r.Some? && Bare(old(world).slots[r.value]) ==> ok
    {
      hide AllOk, DirsExclusive, IsRun, Booted;
      at := 0;
      r := Allocate(Command.Run(image), Row(vcpus, memMib, []), None);
      if r.None? {
        return false, None, 0;
      }
      var b: Activity;
      ghost var times;
      ok, b, at, times := BringUpVm(r.value, RunOf(image, vcpus, memMib));
      if ok {
        Detach(r.value, b);
      } else {
        ReturnError(r.value);
      }
    }

    // `labctl run --count` (cmd/run.go): VMs are brought up one after the other until one fails;
    // those before it stay up. Each was given the lowest free slot of its moment, and its guest was
    // started before the next was allocated.
    method RunAll(image: Bytes, vcpus: int, memMib: int, count: nat)
      returns (ok: bool, started: seq<nat>, ghost moments: seq<nat>, ghost boots: seq<nat>)
      requires Valid()
      modifies this
      ensures Valid() && old(history) <= history
      ensures |started| <= count && (ok <==> |started| == count)
      ensures |moments| == |boots| == |started|
      ensures forall k :: 0 <= k < |started| ==>
                && |old(history)| - 1 <= moments[k] < |history| && LowestFreeSlot(history[moments[k]], started[k])
                && BootedAt(history, moments[k] + 1, boots[k], started[k], RunOf(image, vcpus, memMib))
      ensures forall j, k :: 0 <= j < k < |started| ==> boots[j] <= moments[k]
      ensures calm && !ok ==> exists m :: |old(history)| - 1 <= m < |history| && NoCleanSlot(history[m])
    {
      hide Booted, LowestFreeSlot, Bare, AllOk, DirsExclusive;
      started, moments, boots := [], [], [];
      for n := 0 to count
        invariant Valid() && old(history) <= history
        invariant |started| == n == |moments| == |boots|
        invariant forall k :: 0 <= k < n ==>
                    && |old(history)| - 1 <= moments[k] < |history| && LowestFreeSlot(history[moments[k]], started[k])
                    && BootedAt(history, moments[k] + 1, boots[k], started[k], RunOf(image, vcpus, memMib))
        invariant forall j, k :: 0 <= j < k < n ==> boots[j] <= moments[k]
      {
        ghost var moment := |history| - 1;
        var r;
        ghost var at;
        ok, r, at := Run(image, vcpus, memMib);
        if !ok {
          assert calm ==> NoCleanSlot(history[moment]);
          return;
        }
        started, moments, boots := started + [r.value], moments + [moment], boots + [at];
      }
      ok := true;
    }

    method Detach(i: nat, a: Activity)
      requires At(i, a) && a.stage == StartForwards([])
      modifies this
      ensures Idle(i) && old(history) < history && world.slots[i].row == Some(a.row)
    {
      hide AllOk, DirsExclusive;
      SlotFacts(world, i);
      Succeed(i, End(world.slots[i]), world.archive);
    }

    // ----- `labctl ports` (cmd/ports.go), the ledger and the host's side of it

    // The list is read and written, with what the command does next as its activity.
    method WritePorts(i: nat, ports: seq<int>, act: Option<Activity>)
      requires Idle(i) && var row := world.slots[i].row.value.(ports := ports);
                          && Begin(world.slots[i], world.archive, world.slots[i].(row := Some(row), act := act))
                          && (act.Some? ==> act.value.row == row && !act.value.command.Snapshot? && !act.value.command.Restore?)
      modifies this
      ensures Valid() && old(history) < history && i < |world.slots| && world.slots[i].act == act
      ensures world.slots[i].row == Some(old(world).slots[i].row.value.(ports := ports))
      ensures calm ==> world.slots[i].forwards == old(world).slots[i].forwards
      ensures calm && old(world).slots[i].unit.Some? ==> world.slots[i].unit.Some?
    {
      hide AllOk, DirsExclusive, Begin;
      var s' := world.slots[i].(row := Some(world.slots[i].row.value.(ports := ports)), act := act);
      var w' := World(world.slots[i := s'], world.archive);
      assert StepAt(world, i, w');
      if act.Some? {
        NewUserIsExclusive(world, i, w');
      } else {
        DirsStayExclusive(world, i, w');
      }
      Take(i, s', world.archive);
      if act.Some? {
        Others(i);
        SlotFacts(world, i);
      }
    }

    // `ports add`: the port is put at the end of the list; on a VM that is up its forwarder is then
    // started, and the list stays even if that fails.
    method AddPort(i: nat, port: int, storeFails: bool) returns (ok: bool)
      requires Idle(i)
      modifies this
      ensures Idle(i) && old(history) <= history
      ensures var row := old(world).slots[i].row.value;
              if port in row.ports || storeFails then !ok && world == old(world) && history == old(history)
              else world.slots[i].row == Some(row.(ports := row.ports + [port]))
      ensures ok && old(world).slots[i].unit.Some? ==> exists at :: |old(history)| < at && LaunchedAt(history, at, i, port)
      ensures var s := old(world).slots[i];
              calm && port !in s.row.value.ports && !storeFails && (s.unit.Some? ==> port !in s.forwards) ==> ok
    {
      hide AllOk, DirsExclusive, LaunchedAt, IsRun;
      var s := world.slots[i];
      var row := s.row.value;
      if port in row.ports || storeFails {
        return false;
      }
      var ports := row.ports + [port];
      var row' := row.(ports := ports);
      var a := Activity(Command.AddPort, StartForwards([port]), row', None);
      BeginsAdd(s, world.archive, port);
      WritePorts(i, ports, if s.unit.Some? then Some(a) else None);
      if s.unit.None? {
        return true;
      }
      ghost var before := history;
      ok := ForwarderLaunch(i, a);
      if !ok {
        ReturnError(i);
        return;
      }
      ghost var launched := history;
      assert [port][1..] == [];
      Detach(i, a.(stage := StartForwards([])));
      LaunchStays(launched, history, |before|, i, port);
    }

    // `ports rm`: the port is taken out of the list, and its forwarder stopped.
    method RemovePort(i: nat, port: int, storeFails: bool) returns (ok: bool)
      requires Idle(i)
      modifies this
      ensures Idle(i) && old(history) <= history
      ensures var row := old(world).slots[i].row.value;
              if port !in row.ports || storeFails then !ok && world == old(world) && history == old(history)
              else world.slots[i].row == Some(row.(ports := Without(row.ports, port)))
      ensures calm && port in old(world).slots[i].row.value.ports && !storeFails ==>
                ok && world.slots[i].forwards == old(world).slots[i].forwards - {port}
    {
      hide AllOk, DirsExclusive, IsRun, Without;
      var s := world.slots[i];
      var row := s.row.value;
      if port !in row.ports || storeFails {
        return false;
      }
      var ports := Without(row.ports, port);
      var row' := row.(ports := ports);
      var a := Activity(Command.RemovePort, StopForwards([port]), row', None);
      BeginsRemove(s, world.archive, port);
      WritePorts(i, ports, Some(a));
      ok := ForwarderStop(i, a);
      if !ok {
        ReturnError(i);
        return;
      }
      assert [port][1..] == [];
      SlotFacts(world, i);
      Succeed(i, End(world.slots[i]), world.archive);
    }

    method ForwarderRestart(i: nat, a: Activity) returns (ok: bool)
      requires At(i, a) && a.stage.RestartForwards? && a.stage.todo != []
      modifies this
      ensures old(history) <= history && At(i, if ok then a.(stage := RestartForwards(a.stage.todo[1..])) else a)
      ensures ok ==> a.stage.todo[0] in old(world).slots[i].forwards
      ensures calm ==> world.slots[i].forwards == old(world).slots[i].forwards && (a.stage.todo[0] in world.slots[i].forwards ==> ok)
    {
      hide AllOk, DirsExclusive;
      ok := Works();
      var s, todo := world.slots[i], a.stage.todo;
      ok := ok && todo[0] in s.forwards;
      if ok {
        Succeed(i, Goto(s, RestartForwards(todo[1..])), world.archive);
      }
      Others(i);
    }

    // `ports reload`: every forwarder in order, up to the first that cannot be restarted.
    method ReloadPorts(i: nat) returns (ok: bool)
      requires Idle(i)
      modifies this
      ensures Idle(i) && old(history) < history && world.slots[i].row == old(world).slots[i].row
      ensures calm ==> (ok <==> forall p :: p in old(world).slots[i].row.value.ports ==> p in old(world).slots[i].forwards)
      ensures calm ==> world.slots[i].forwards == old(world).slots[i].forwards
    {
      hide AllOk, DirsExclusive, IsRun;
      var row := world.slots[i].row.value;
      var a := Activity(Command.ReloadPorts, RestartForwards(row.ports), row, None);
      assert world.slots[i].(row := Some(row.(ports := row.ports)), act := Some(a)) == world.slots[i].(act := Some(a));
      WritePorts(i, row.ports, Some(a));
      for k := 0 to |row.ports|
        invariant old(history) < history && At(i, a.(stage := RestartForwards(row.ports[k..])))
        invariant calm ==> world.slots[i].forwards == old(world).slots[i].forwards
        invariant calm ==> forall p :: p in row.ports[..k] ==> p in old(world).slots[i].forwards
      {
        var port := row.ports[k];
        assert port in row.ports && row.ports[k..][1..] == row.ports[k + 1..] && row.ports[..k + 1] == row.ports[..k] + [port];
        ok := ForwarderRestart(i, a.(stage := RestartForwards(row.ports[k..])));
        if !ok {
          GivesUpReload(i);
          return;
        }
      }
      assert row.ports[..|row.ports|] == row.ports;
      SlotFacts(world, i);
      Succeed(i, End(world.slots[i]), world.archive);
      ok := true;
    }

    // A restart that fails has no effect of its own.
    method GivesUpReload(i: nat)
      requires Valid() && i < |world.slots| && world.slots[i].act.Some? && world.slots[i].act.value.stage.RestartForwards?
      modifies this
      ensures old(history) < history && Idle(i) && world.slots[i].row == Some(old(world.slots[i].act).value.row)
      ensures world.slots[i].forwards == old(world).slots[i].forwards
    {
      hide AllOk, DirsExclusive;
      ghost var w' := World(world.slots[i := End(world.slots[i])], world.archive);
      assert PartOf(world.slots[i], world.archive, world.slots[i], world.archive);
      assert Fail(world.slots[i], world.archive, End(world.slots[i]), world.archive);
      assert StepAt(world, i, w');
      DirsStayExclusive(world, i, w');
      SlotFacts(world, i);
      Take(i, End(world.slots[i]), world.archive);
    }

    // `labctl restore`, detached (vm/vm.go Restore and cmd/restore.go). On success the VM has the
    // saved row, its guest was resumed by this call exactly at the cut its name stands for, and
    // then each saved port's forwarder was started. On failure the row is removed, or kept if that
    // removal fails too; if it is removed, the ledger still accounts for everything exactly when
    // the restore gave up cleanly.
    method Restore(name: string, removalFails: bool)
      returns (ok: bool, r: Option<nat>, ghost at: nat, ghost times: seq<nat>, ghost failedAt: Stage)
      requires Valid()
      requires name in world.archive.registered ==>
                 forall j :: 0 <= j < |world.slots| ==> !Saves(world.slots[j], world.archive.registered[name].dir)
      modifies this
      ensures Valid() && old(history) <= history
      ensures r.Some? ==>
                && name in old(world).archive.registered && name in old(world).archive.cuts
                && LowestFreeSlot(old(world), r.value) && r.value < |world.slots|
      ensures r.None? ==> !ok
      ensures ok ==> var saved := old(world).archive.registered[name].row;
                     && Idle(r.value) && world.slots[r.value].row == Some(saved)
                     && BootedAt(history, |old(history)|, at, r.value, RestoreOf(old(world).archive, name))
                     && Launched(history, at + 1, times, r.value, saved.ports)
      ensures !ok && r.Some? ==>
                && world.slots[r.value].act.None? && (world.slots[r.value].row.None? <==> !removalFails)
                && (if world.slots[r.value].row.None? then GaveUp(r.value, failedAt)
                    else world.slots[r.value].row == Some(old(world).archive.registered[name].row))
      ensures r.None? ==> world == old(world)
      ensures r.None? <==> name !in old(world).archive.registered || forall j :: 0 <= j < |old(world).slots| ==> old(world).slots[j].row.Some?
      ensures calm && r.Some? && Bare(old(world).slots[r.value]) ==> ok
    {
      hide AllOk, DirsExclusive, AllOwned, Booted, Launched, IsRun, RestoreGivesUpAt;
      ok, r, at, times, failedAt := false, None, 0, [], MakeDir;
      if name !in world.archive.registered {
        return;
      }
      assert name in world.archive.cuts by { OkArchive(world); }
      var a := RestoreOf(world.archive, name);
      SavedPortsDistinct(history, name);
      r := Allocate(a.command, a.row, a.cut);
      if r.None? {
        return;
      }
      var b: Activity;
      ok, b, at, times := BringUpVm(r.value, a);
      failedAt := b.stage;
      if ok {
        ghost var up := history;
        Detach(r.value, b);
        LaunchedStay(up, history, at + 1, at + 1, times, r.value, a.row.ports);
      } else {
        RemoveFailedRestore(r.value, b, removalFails);
      }
    }

    // The last step removed the row of the restore on slot i, which had failed at this stage. If
    // it was past its first operation, its directory is still there; and if the ledger accounted
    // for everything before, it does now exactly when the restore gave up cleanly.
    ghost predicate GaveUp(i: nat, failedAt: Stage)
      reads this
    {
      && |history| >= 2 && i < |world.slots| && RestoreGivesUpAt(history[|history| - 2], i, world)
      && (!failedAt.MakeDir? ==> world.slots[i].dir.Some?)
      && (AllOwned(history[|history| - 2]) ==>
            (AllOwned(world) <==> failedAt.MakeDir? && world.slots[i].dir.None?))
    }

    // _ = s.Remove(v.ID)
    method RemoveFailedRestore(i: nat, a: Activity, removalFails: bool)
      requires At(i, a) && a.command.Restore?
      modifies this
      ensures Valid() && old(history) <= history
      ensures i < |world.slots| && world.slots[i].act.None?
      ensures world.slots[i].row.None? <==> !removalFails
      ensures if world.slots[i].row.None? then GaveUp(i, a.stage) else world.slots[i].row == Some(a.row)
    {
      hide AllOk, DirsExclusive, AllOwned, PartOf;
      if removalFails {
        ReturnError(i);
      } else {
        SlotFacts(world, i);
        var m, ar := Partly(i);
        var w' := World(world.slots[i := End(m).(row := None)], ar);
        assert RestoreGivesUpAt(world, i, w');
        RestoreKeepsItsDir(world.slots[i], world.archive, m, ar);
        if AllOwned(world) {
          RestoreFailureLeaks(world, i, w');
        }
        StepKeepsOk(world, i, w');
        DirsStayExclusive(world, i, w');
        ExtendRun(history, w');
        world := w';
        history := history + [world];
      }
    }
  }

  // A new user of a directory that nobody is saving into leaves the directories exclusive; so does
  // one who starts to save into a directory that nobody uses and that nothing registered has.
  lemma NewUserIsExclusive(w: World, i: nat, w': World)
    requires DirsExclusive(w) && SlotStep(w, i, w') && w'.slots[i].act.Some?
    requires w'.archive.registered == w.archive.registered
    requires match w'.slots[i].act.value.command
             case Restore(_, dir) => forall j :: 0 <= j < |w.slots| ==> !Saves(w.slots[j], dir)
             case Snapshot(_, dir) =>
               && (forall j :: 0 <= j < |w.slots| ==> !Uses(w.slots[j], dir))
               && (forall name :: name in w.archive.registered ==> w.archive.registered[name].dir != dir)
             case _ => true
    ensures DirsExclusive(w')
  {
    forall k, l, dir | 0 <= k < |w.slots| && 0 <= l < |w.slots| && k != l
      ensures !(Saves(w'.slots[k], dir) && Uses(w'.slots[l], dir))
    {
      assert !(Saves(w.slots[k], dir) && Uses(w.slots[l], dir));
    }
    forall k, name | 0 <= k < |w.slots| && name in w'.archive.registered
      ensures !Writing(w'.slots[k], w'.archive.registered[name].dir)
    {
      assert !Writing(w.slots[k], w.archive.registered[name].dir);
    }
  }

  // The activities that run and restore begin with.
  function RunOf(image: Bytes, vcpus: int, memMib: int): Activity {
    Activity(Run(image), MakeDir, Row(vcpus, memMib, []), None)
  }

  function RestoreOf(ar: Archive, name: string): Activity
    requires name in ar.registered && name in ar.cuts
  {
    var saved := ar.registered[name];
    Activity(Restore(name, saved.dir), MakeDir, saved.row, Some(ar.cuts[name]))
  }

  // Nothing of a VM but, perhaps, a directory.
  predicate Bare(s: Slot) {
    !s.tap && s.unit.None? && s.forwards == {}
  }

  // The next VM cannot be given a slot, or meets a leftover there.
  ghost predicate NoCleanSlot(w: World) {
    (forall j :: 0 <= j < |w.slots| ==> w.slots[j].row.Some?) || exists i: nat :: LowestFreeSlot(w, i) && !Bare(w.slots[i])
  }

  predicate Unstarted(s: Slot) { s.unit.None? && s.forwards == {} }

  predicate Starts(s: Slot) { s.unit == Some(Starting) && s.forwards == {} }

  predicate RunsWith(s: Slot, ports: set<int>) {
    s.unit.Some? && s.unit.value.Running? && s.forwards == ports
  }

  // The VM can be paused: it runs, or is paused already.
  predicate IsUp(s: Slot) { s.unit.Some? && !s.unit.value.Starting? }

  function Elements(ports: seq<int>): set<int> {
    set p | p in ports
  }

  lemma OneMoreElement(ports: seq<int>, k: nat)
    requires k < |ports|
    ensures Elements(ports[..k + 1]) == Elements(ports[..k]) + {ports[k]} && Elements([]) == {}
    ensures NoDuplicates(ports) ==> ports[k] !in Elements(ports[..k])
  {
    assert ports[..k + 1] == ports[..k] + [ports[k]];
  }

  lemma SavedPortsDistinct(h: seq<World>, name: string)
    requires IsRun(h) && name in h[|h| - 1].archive.registered
    ensures NoDuplicates(h[|h| - 1].archive.registered[name].row.ports)
  {
    StoredListsDistinct(h, |h| - 1);
  }

  lemma BeginsAdd(s: Slot, ar: Archive, port: int)
    requires s.row.Some? && s.act.None? && port !in s.row.value.ports
    ensures var row := s.row.value.(ports := s.row.value.ports + [port]);
            var act := if s.unit.Some? then Some(Activity(Command.AddPort, StartForwards([port]), row, None)) else None;
            Begin(s, ar, s.(row := Some(row), act := act))
  {
  }

  lemma BeginsRemove(s: Slot, ar: Archive, port: int)
    requires s.row.Some? && s.act.None? && port in s.row.value.ports
    ensures var row := s.row.value.(ports := Without(s.row.value.ports, port));
            Begin(s, ar, s.(row := Some(row), act := Some(Activity(Command.RemovePort, StopForwards([port]), row, None))))
  {
  }

  lemma LaunchStays(h: seq<World>, h': seq<World>, at: nat, i: nat, port: int)
    requires LaunchedAt(h, at, i, port) && h <= h'
    ensures LaunchedAt(h', at, i, port)
  {
  }

  lemma OkArchive(w: World)
    requires AllOk(w)
    ensures w.archive.registered.Keys == w.archive.cuts.Keys
  {
  }

  function AfterCopyIn(c: Command, k: nat): Stage {
    if k + 1 < |FilesToCopy(c)| then CopyIn(k + 1) else AddTap
  }

  function AfterCopyOut(k: nat): Stage {
    if k + 1 < |SNAPSHOT_FILES| then CopyOut(k + 1) else StopUnit
  }

  lemma AdvanceKeepsCommand(s: Slot, ar: Archive, s': Slot, ar': Archive)
    requires Advance(s, ar, s', ar')
    ensures s'.act.Some? ==> s'.act.value.command == s.act.value.command
    ensures s'.act.Some? && s.act.value.stage.DropRow? ==> s'.act.value.stage.DropRow?
    ensures if s.act.value.stage.Register?
            then && s.act.value.command.Snapshot? && s'.act == Some(s.act.value.(stage := DropRow))
                 && ar'.registered == ar.registered[s.act.value.command.name := Saved(s.act.value.row, s.act.value.command.dir)]
            else ar'.registered == ar.registered
  {
  }
}
