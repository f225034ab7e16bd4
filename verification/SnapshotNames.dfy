// What becomes of registered snapshots, and which names keep them safe. A name is registered as a
// text, and its files are kept in a directory that other texts may name too.
module SnapshotNames {
  import opened Wrappers
  import opened Ledger
  import opened Lifecycle
  import opened LifecycleSafety
  import opened SnapshotPaths
  import opened SnapshotSafety
  import opened SnapshotLimits

  // ----- How long a registered snapshot stays whole

  lemma StepSpoilsExactly(run: seq<World>, k: nat, dir: Path, c: Cut)
    requires IsRun(run) && k + 1 < |run| && ArchiveHolds(run[k].archive, dir, c)
    ensures !ArchiveHolds(run[k + 1].archive, dir, c) <==> exists j: nat, f: nat :: SpoiltAt(run, k, j, dir, c, f)
  {
    hide StepAt, RestoreGivesUpAt, Spoils, Has;
    var w, w' := run[k], run[k + 1];
    forall j: nat, f: nat | SpoiltAt(run, k, j, dir, c, f) ensures !ArchiveHolds(w'.archive, dir, c) {
      WholeIsNotSpoilt(w, j, w', dir, c, f);
    }
    assert Step(w, w');
    if !Forgets(w, w') {
      var j: nat :| StepAt(w, j, w') || RestoreGivesUpAt(w, j, w');
      SpoiltOnlyByCopies(w, j, w', dir, c, 0);
      SpoiltOnlyByCopies(w, j, w', dir, c, 1);
      SpoiltOnlyByCopies(w, j, w', dir, c, 2);
      assert forall f: nat :: Spoils(w, j, w', dir, c, f) ==> SpoiltAt(run, k, j, dir, c, f);
    }
  }

  ghost predicate WholeThroughout(run: seq<World>, a: nat, m: nat, dir: Path, c: Cut)
    requires a <= m < |run|
  {
    forall k :: a <= k <= m ==> ArchiveHolds(run[k].archive, dir, c)
  }

  // A directory that holds a cut goes on holding it if and only if no snapshot command with that
  // directory copies other bytes into it.
  lemma {:induction false} StaysWholeExactly(run: seq<World>, a: nat, m: nat, dir: Path, c: Cut)
    requires IsRun(run) && a <= m < |run| && ArchiveHolds(run[a].archive, dir, c)
    ensures WholeThroughout(run, a, m, dir, c) <==> UnspoiltUntil(run, a, m, dir, c)
  {
    hide IsRun, SpoiltAt, HoldsCut;
    if a < m {
      StaysWholeExactly(run, a, m - 1, dir, c);
      if ArchiveHolds(run[m - 1].archive, dir, c) {
        assert run[m - 1 + 1] == run[m];
        StepSpoilsExactly(run, m - 1, dir, c);
      }
    }
  }

  // So a registered snapshot that is whole stays whole, whatever else is done, if and only if no
  // snapshot command whose name has the same directory copies other bytes into it.
  lemma RegisteredStaysWholeExactly(run: seq<World>, a: nat, m: nat, name: string)
    requires IsRun(run) && a <= m < |run|
    requires name in run[a].archive.registered && name in run[a].archive.cuts
    requires ArchiveHolds(run[a].archive, run[a].archive.registered[name].dir, run[a].archive.cuts[name])
    ensures var dir, c := run[a].archive.registered[name].dir, run[a].archive.cuts[name];
            && dir == DirOf(run[a].archive.dataDir, name)
            && (WholeThroughout(run, a, m, dir, c) <==> UnspoiltUntil(run, a, m, dir, c))
  {
    RunKeepsNames(run, a);
    StaysWholeExactly(run, a, m, run[a].archive.registered[name].dir, run[a].archive.cuts[name]);
  }

  // ----- Names that are single path elements

  // Every command and every registered snapshot has the directory its name stands for.
  ghost predicate KeptWhereNamed(w: World) {
    && (forall i :: 0 <= i < |w.slots| && w.slots[i].act.Some? ==>
          var c := w.slots[i].act.value.command;
          c.Snapshot? || c.Restore? ==> c.dir == DirOf(w.archive.dataDir, c.name))
    && (forall name :: name in w.archive.registered ==>
          w.archive.registered[name].dir == DirOf(w.archive.dataDir, name))
  }

  lemma StepKeepsNames(w: World, i: nat, w': World)
    requires KeptWhereNamed(w) && (StepAt(w, i, w') || RestoreGivesUpAt(w, i, w'))
    ensures KeptWhereNamed(w')
  {
    hide Advance, PartOf, DirOf;
    var s, s', ar, ar' := w.slots[i], w'.slots[i], w.archive, w'.archive;
    if Advance(s, ar, s', ar') {
      AdvanceKeepsNames(s, ar, s', ar');
    } else if Fail(s, ar, s', ar') || FailDroppingRow(s, ar, s', ar') {
      var m :| PartOf(s, ar, m, ar') && (s' == End(m) || s' == End(m).(row := None));
      PartKeepsNames(s, ar, m, ar');
    }
  }

  lemma AdvanceKeepsNames(s: Slot, ar: Archive, s': Slot, ar': Archive)
    requires Advance(s, ar, s', ar')
    ensures s.act.Some?
    ensures s'.act.Some? ==> s'.act.value.command == s.act.value.command
    ensures ar'.dataDir == ar.dataDir
    ensures forall name :: name in ar'.registered ==>
              || (name in ar.registered && ar'.registered[name] == ar.registered[name])
              || (&& s.act.value.command.Snapshot? && s.act.value.command.name == name
                  && ar'.registered[name].dir == s.act.value.command.dir)
  {
  }

  lemma PartKeepsNames(s: Slot, ar: Archive, m: Slot, ar': Archive)
    requires s.act.Some? && PartOf(s, ar, m, ar')
    ensures ar'.dataDir == ar.dataDir && ar'.registered == ar.registered
  {
  }

  lemma {:induction false} RunKeepsNames(run: seq<World>, k: nat)
    requires IsRun(run) && k < |run|
    ensures KeptWhereNamed(run[k])
  {
    hide StepAt, RestoreGivesUpAt, DirOf;
    if k > 0 {
      RunKeepsNames(run, k - 1);
      assert Step(run[k - 1], run[k]);
      if !Forgets(run[k - 1], run[k]) {
        var i: nat :| StepAt(run[k - 1], i, run[k]) || RestoreGivesUpAt(run[k - 1], i, run[k]);
        StepKeepsNames(run[k - 1], i, run[k]);
      }
    }
  }

  predicate NamesCommand(s: Slot, name: string) {
    && s.act.Some? && (s.act.value.command.Snapshot? || s.act.value.command.Restore?)
    && s.act.value.command.name == name
  }

  predicate SavesAs(s: Slot, name: string) {
    s.act.Some? && s.act.value.command.Snapshot? && s.act.value.command.name == name
  }

  // All names in use are single path elements, and no two commands use one name while one of them
  // is saving under it.
  ghost predicate PlainAndExclusive(w: World) {
    && (forall i, name :: 0 <= i < |w.slots| && NamesCommand(w.slots[i], name) ==> PlainElement(name))
    && (forall i, j, name :: 0 <= i < |w.slots| && 0 <= j < |w.slots| && i != j ==>
                               !(SavesAs(w.slots[i], name) && NamesCommand(w.slots[j], name)))
  }

  predicate RegisteredPlain(ar: Archive) {
    forall name :: name in ar.registered ==> PlainElement(name)
  }

  lemma StepKeepsPlain(w: World, i: nat, w': World)
    requires RegisteredPlain(w.archive) && PlainAndExclusive(w) && (StepAt(w, i, w') || RestoreGivesUpAt(w, i, w'))
    ensures RegisteredPlain(w'.archive)
  {
    hide Advance, PartOf, PlainElement;
    var s, s', ar, ar' := w.slots[i], w'.slots[i], w.archive, w'.archive;
    if Advance(s, ar, s', ar') {
      AdvanceKeepsNames(s, ar, s', ar');
      assert s.act.value.command.Snapshot? ==> NamesCommand(s, s.act.value.command.name);
    } else if Fail(s, ar, s', ar') || FailDroppingRow(s, ar, s', ar') {
      var m :| PartOf(s, ar, m, ar') && (s' == End(m) || s' == End(m).(row := None));
      PartKeepsNames(s, ar, m, ar');
    }
  }

  lemma PlainMeansExclusive(w: World)
    requires AllOk(w) && KeptWhereNamed(w) && RegisteredPlain(w.archive) && PlainAndExclusive(w)
    ensures DirsExclusive(w)
  {
    hide Sound, ArchiveOk, DirOf, PlainElement;
    forall i, j, dir | 0 <= i < |w.slots| && 0 <= j < |w.slots| && i != j
      ensures !(Saves(w.slots[i], dir) && Uses(w.slots[j], dir))
    {
      if Saves(w.slots[i], dir) && Uses(w.slots[j], dir) {
        SameDirSameName(w, i, j, dir);
      }
    }
    forall i, name | 0 <= i < |w.slots| && name in w.archive.registered
      ensures !Writing(w.slots[i], w.archive.registered[name].dir)
    {
      var s, dir := w.slots[i], w.archive.registered[name].dir;
      if Saves(s, dir) {
        var name' := s.act.value.command.name;
        assert NamesCommand(s, name');
        PlainNamesApart(w.archive.dataDir, name, name');
        assert SlotOk(s, w.archive);
      }
    }
  }

  lemma SameDirSameName(w: World, i: nat, j: nat, dir: Path)
    requires KeptWhereNamed(w) && PlainAndExclusive(w)
    requires i < |w.slots| && j < |w.slots| && i != j && Saves(w.slots[i], dir)
    ensures !Uses(w.slots[j], dir)
  {
    hide DirOf, PlainElement;
    if Uses(w.slots[j], dir) {
      var a, b := w.slots[i].act.value.command.name, w.slots[j].act.value.command.name;
      assert NamesCommand(w.slots[i], a) && NamesCommand(w.slots[j], b) && SavesAs(w.slots[i], a);
      PlainNamesApart(w.archive.dataDir, a, b);
    }
  }

  lemma {:induction false} RunKeepsPlain(run: seq<World>, k: nat)
    requires IsRun(run) && k < |run| && forall j :: 0 <= j < k ==> PlainAndExclusive(run[j])
    ensures RegisteredPlain(run[k].archive)
  {
    hide StepAt, RestoreGivesUpAt, PlainAndExclusive, PlainElement;
    if k > 0 {
      RunKeepsPlain(run, k - 1);
      assert Step(run[k - 1], run[k]);
      if !Forgets(run[k - 1], run[k]) {
        var i: nat :| StepAt(run[k - 1], i, run[k]) || RestoreGivesUpAt(run[k - 1], i, run[k]);
        StepKeepsPlain(run[k - 1], i, run[k]);
      }
    }
  }

  // For such names, what is assumed of directories holds: so registered snapshots are whole, a
  // saving VM is never lost, and a restore resumes the cut.
  lemma {:induction false} PlainNamesAreSafe(run: seq<World>, k: nat)
    requires IsRun(run) && k < |run| && forall j :: 0 <= j < k ==> PlainAndExclusive(run[j])
    ensures ExclusiveUntil(run, k) && AllOk(run[k])
  {
    hide AllOk, KeptWhereNamed, RegisteredPlain, PlainAndExclusive, DirsExclusive, IsRun;
    if k > 0 {
      PlainNamesAreSafe(run, k - 1);
      RunKeepsNames(run, k - 1);
      RunKeepsPlain(run, k - 1);
      PlainMeansExclusive(run[k - 1]);
    }
    RunKeepsOk(run, k);
  }
}
