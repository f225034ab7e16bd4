// The discipline of stored port lists: whatever commands run, fail or die, no list of ports in a
// VM's row, in a command's hands or in a snapshot's row ever has a port twice (cmd/ports.go,
// cmd/snapshot.go:53, cmd/restore.go:40).
module StoredPorts {
  import opened Wrappers
  import opened Ledger
  import opened Lifecycle
  import opened LifecycleSafety
  import opened PortList

  predicate SlotPorts(s: Slot) {
    && (s.row.Some? ==> NoDuplicates(s.row.value.ports))
    && (s.act.Some? ==> NoDuplicates(s.act.value.row.ports))
  }

  predicate ArchivePorts(ar: Archive) {
    forall name :: name in ar.registered ==> NoDuplicates(ar.registered[name].row.ports)
  }

  predicate AllPorts(w: World) {
    (forall i :: 0 <= i < |w.slots| ==> SlotPorts(w.slots[i])) && ArchivePorts(w.archive)
  }

  lemma AdvanceKeepsPorts(s: Slot, ar: Archive, s': Slot, ar': Archive)
    requires SlotPorts(s) && ArchivePorts(ar) && Advance(s, ar, s', ar')
    ensures SlotPorts(s') && ArchivePorts(ar')
  {
    hide SlotPorts, ArchivePorts, BringUp, TearDown, TakeSnapshot;
    if BringUp(s, ar, s') && ar' == ar {
      BringUpKeepsPorts(s, ar, s');
    } else if TearDown(s, s') && ar' == ar {
      TearDownKeepsPorts(s, s');
    } else {
      SavingKeepsPorts(s, ar, s', ar');
    }
  }

  lemma BringUpKeepsPorts(s: Slot, ar: Archive, s': Slot)
    requires SlotPorts(s) && s.act.Some? && BringUp(s, ar, s')
    ensures SlotPorts(s')
  {
    hide NoDuplicates;
  }

  lemma TearDownKeepsPorts(s: Slot, s': Slot)
    requires SlotPorts(s) && s.act.Some? && TearDown(s, s')
    ensures SlotPorts(s')
  {
    hide NoDuplicates;
  }

  lemma SavingKeepsPorts(s: Slot, ar: Archive, s': Slot, ar': Archive)
    requires SlotPorts(s) && ArchivePorts(ar)
    requires s.act.Some? && s.act.value.command.Snapshot? && TakeSnapshot(s, ar, s', ar')
    ensures SlotPorts(s') && ArchivePorts(ar')
  {
    hide NoDuplicates;
  }

  lemma BeginKeepsPorts(s: Slot, ar: Archive, s': Slot)
    requires SlotPorts(s) && Begin(s, ar, s')
    ensures SlotPorts(s')
  {
    hide Without;
    if port :| port in s.row.value.ports && s'.row == Some(s.row.value.(ports := Without(s.row.value.ports, port))) {
      WithoutKeepsDistinct(s.row.value.ports, port);
    }
  }

  lemma PartKeepsPorts(s: Slot, ar: Archive, m: Slot, ar': Archive)
    requires SlotPorts(s) && ArchivePorts(ar) && s.act.Some? && PartOf(s, ar, m, ar')
    ensures SlotPorts(End(m)) && SlotPorts(End(m).(row := None)) && ArchivePorts(ar')
  {
    hide NoDuplicates;
  }

  lemma StepKeepsPorts(w: World, i: nat, w': World)
    requires AllPorts(w) && (StepAt(w, i, w') || RestoreGivesUpAt(w, i, w'))
    ensures AllPorts(w')
  {
    hide Advance, Begin, PartOf, NoDuplicates;
    var s, s', ar, ar' := w.slots[i], w'.slots[i], w.archive, w'.archive;
    if Advance(s, ar, s', ar') {
      AdvanceKeepsPorts(s, ar, s', ar');
    } else if Fail(s, ar, s', ar') || FailDroppingRow(s, ar, s', ar') {
      var m :| PartOf(s, ar, m, ar') && (s' == End(m) || s' == End(m).(row := None));
      PartKeepsPorts(s, ar, m, ar');
    } else if Begin(s, ar, s') && ar' == ar {
      BeginKeepsPorts(s, ar, s');
    } else if StartsRun(w, i, w') {
      assert NoDuplicates([]) by { NothingTwice(); }
    }
  }

  lemma NothingTwice()
    ensures NoDuplicates([])
  {
  }

  lemma {:induction false} StoredListsDistinct(run: seq<World>, k: nat)
    requires IsRun(run) && k < |run|
    ensures AllPorts(run[k])
  {
    hide StepAt, RestoreGivesUpAt, NoDuplicates;
    if k > 0 {
      StoredListsDistinct(run, k - 1);
      assert Step(run[k - 1], run[k]);
      if !Forgets(run[k - 1], run[k]) {
        var i: nat :| StepAt(run[k - 1], i, run[k]) || RestoreGivesUpAt(run[k - 1], i, run[k]);
        StepKeepsPorts(run[k - 1], i, run[k]);
      }
    }
  }
}
