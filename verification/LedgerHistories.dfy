// Commands that are several statements: what becomes of them when other processes' statements come
// between (cmd/destroy.go, cmd/ports.go). The histories are those of LedgerProcesses, so of every
// run of any number of processes.
module LedgerHistories {
  import opened Wrappers
  import opened Names
  import opened PortsJson
  import opened PortList
  import opened Ledger
  import opened Store
  import opened LedgerProcesses

  lemma {:induction false} LegalPrefix(log: seq<Entry>, n: nat)
    requires Legal(log) && n <= |log|
    ensures Legal(log[..n])
  {
    if n < |log| {
      LegalPrefix(log[..|log| - 1], n);
      assert log[..|log| - 1][..n] == log[..n];
    } else {
      assert log[..n] == log;
    }
  }

  // ----- What a statement does to the row of one id

  lemma SlotIffFound(t: VmTable, i: nat)
    requires Consistent(t)
    ensures FindVm(t, VmId(i)).Some? <==> i in Slots(t)
  {
    if FindVm(t, VmId(i)).Some? {
      var r := FindVm(t, VmId(i)).value;
      VmIdInjective(SlotOf(r), i);
    }
    if i in Slots(t) {
      var r :| r in t && SlotOf(r) == i;
      assert r.id == VmId(i);
    }
  }

  // The entry changes the row of this id, or brings or removes it.
  predicate Writes(e: Entry, id: string) {
    || (e.call.Update? && e.call.id == id)
    || (e.call.Delete? && e.call.id == id)
    || (e.outcome.Allocated? && e.outcome.row.id == id)
  }

  predicate NoWrite(mid: seq<Entry>, id: string) {
    forall k :: 0 <= k < |mid| ==> !Writes(mid[k], id)
  }

  predicate NoUpdate(mid: seq<Entry>, id: string) {
    forall k :: 0 <= k < |mid| ==> !(mid[k].call.Update? && mid[k].call.id == id)
  }

  lemma WrittenElsewhere(t: VmTable, e: Entry, id: string)
    requires e.outcome == Answer(t, e.call) && !Writes(e, id)
    ensures FindVm(Effect(t, e.call), id) == FindVm(t, id)
  {
    hide FindVm, DeleteRow, UpdatePorts, LowestFree;
    match e.call
    case Allocate(_, _, _, _) =>
      if LowestFree(t).Some? {
        FindAppended(t, RowOf(e.call, LowestFree(t).value), id);
      }
    case Delete(gone) => FindDeleted(t, gone, id);
    case Update(changed, ports) => FindUpdated(t, changed, ports, id);
    case Read(_) =>
  }

  lemma {:induction false} Unwritten(log: seq<Entry>, mid: seq<Entry>, id: string)
    requires Legal(log + mid) && NoWrite(mid, id)
    ensures FindVm(Replay(log + mid), id) == FindVm(Replay(log), id)
  {
    hide FindVm, Effect, Answer, Writes;
    if mid == [] {
      assert log + mid == log;
    } else {
      var n := |mid| - 1;
      assert (log + mid)[..|log| + n] == log + mid[..n] && (log + mid)[|log| + n] == mid[n];
      Unwritten(log, mid[..n], id);
      WrittenElsewhere(Replay(log + mid[..n]), mid[n], id);
    }
  }

  // An allocation answers with the lowest slot then free and with the configuration asked for; and
  // whoever reads that id, with nothing written to it in between, is shown every column of it.
  lemma ReadSeesAllocation(log: seq<Entry>, k: nat, m: nat)
    requires Legal(log) && k < m < |log| && log[k].call.Allocate? && log[k].outcome.Allocated?
    requires log[m].call == Read(log[k].outcome.row.id) && NoWrite(log[k + 1..m], log[k].outcome.row.id)
    ensures var call := log[k].call;
            && log[m].outcome.Seen? && log[m].outcome.found == Some(log[k].outcome.row)
            && var row := log[k].outcome.row;
               && row.vcpus == call.vcpus && row.memMib == call.memMib
               && row.imageId == call.imageId && row.ports == call.ports
               && exists i: nat :: LowestFree(Replay(log[..k])) == Some(i) && IdentityOf(row, i)
  {
    hide FindVm, LowestFree, Legal, Replay, Answer, Effect, NoWrite, IdentityOf, Consistent;
    var row := log[k].outcome.row;
    LegalPrefix(log, k);
    ReplayConsistent(log[..k]);
    AnswerAt(log, k);
    AllocatedRow(Replay(log[..k]), log[k].call, row);
    ReadAfter(log, k, m, row.id);
  }

  // The row an allocation answers with is what is then found under its id.
  lemma AllocatedRow(t: VmTable, call: Call, row: VmRow)
    requires Consistent(t) && call.Allocate? && Answer(t, call) == Allocated(row)
    ensures FindVm(Effect(t, call), row.id) == Some(row)
    ensures row.vcpus == call.vcpus && row.memMib == call.memMib && row.imageId == call.imageId && row.ports == call.ports
    ensures LowestFree(t).Some? && IdentityOf(row, LowestFree(t).value)
  {
    hide FindVm, LowestFree, Consistent;
    NotYetThere(t, LowestFree(t).value);
    FindAppended(t, row, row.id);
  }

  // With nothing written to the id since entry k, a read is shown what that left under it.
  lemma ReadAfter(log: seq<Entry>, k: nat, m: nat, id: string)
    requires Legal(log) && k < m < |log| && log[m].call == Read(id) && NoWrite(log[k + 1..m], id)
    ensures log[m].outcome == Seen(FindVm(Effect(Replay(log[..k]), log[k].call), id))
  {
    hide FindVm, Effect, NoWrite, Legal, Replay;
    ReadAt(log, m, id);
    ReplayStep(log, k);
    LegalPrefix(log, m);
    assert log[..k + 1] + log[k + 1..m] == log[..m];
    Unwritten(log[..k + 1], log[k + 1..m], id);
  }

  lemma ReadAt(log: seq<Entry>, m: nat, id: string)
    requires Legal(log) && m < |log| && log[m].call == Read(id)
    ensures log[m].outcome == Seen(FindVm(Replay(log[..m]), id))
  {
    hide FindVm, Legal, Replay;
    AnswerAt(log, m);
  }

  // A read with nothing written to its id since a ports update that found its row shows the row as
  // it was, with those ports.
  lemma ReadSeesUpdate(log: seq<Entry>, k: nat, m: nat)
    requires Legal(log) && k < m < |log| && log[k].call.Update?
    requires log[m].call == Read(log[k].call.id) && NoWrite(log[k + 1..m], log[k].call.id)
    ensures var was := FindVm(Replay(log[..k]), log[k].call.id);
            log[m].outcome == Seen(if was.Some? then Some(was.value.(ports := log[k].call.ports)) else None)
  {
    hide FindVm, UpdatePorts, Legal, Replay, NoWrite;
    var id := log[k].call.id;
    ReadAfter(log, k, m, id);
    FindUpdated(Replay(log[..k]), id, log[k].call.ports, id);
  }

  predicate IdentityOf(row: VmRow, i: nat) {
    && row.id == VmId(i) && row.tap == TapName(i) && row.ip == VmIp(i) && row.cid == FIRST_CID + i
    && row.unit == UnitName(VmId(i))
  }

  lemma NotYetThere(t: VmTable, i: nat)
    requires Consistent(t) && LowestFree(t) == Some(i)
    ensures FindVm(t, VmId(i)).None?
  {
    hide FindVm, Consistent;
    TapUsedIffSlot(t, i);
    SlotIffFound(t, i);
  }

  lemma ReplayStep(log: seq<Entry>, k: nat)
    requires k < |log|
    ensures Replay(log[..k + 1]) == Effect(Replay(log[..k]), log[k].call)
  {
    assert log[..k + 1][..k] == log[..k];
  }

  // ----- Destroys of a VM that has changed hands

  predicate Deletes(e: Entry, i: nat) { e.call == Delete(VmId(i)) }

  // The entry gives slot i to a new VM.
  predicate Gives(e: Entry, i: nat) { e.outcome.Allocated? && e.outcome.row.id == VmId(i) }

  // The entry that brought the VM now in slot i, by its place in the history: two VMs of the same
  // name and configuration are told apart by it.
  function Owner(log: seq<Entry>, i: nat): (o: Option<nat>)
    ensures o.Some? ==> o.value < |log| && Gives(log[o.value], i)
  {
    if log == [] then None
    else
      var n := |log| - 1;
      if Gives(log[n], i) then Some(n)
      else if Deletes(log[n], i) then None
      else Owner(log[..n], i)
  }

  // The row of slot i is the one its owner brought, except for its ports.
  ghost predicate OwnedRow(log: seq<Entry>, i: nat) {
    match Owner(log, i)
    case None => FindVm(Replay(log), VmId(i)) == None
    case Some(o) =>
      && FindVm(Replay(log), VmId(i)).Some?
      && FindVm(Replay(log), VmId(i)).value.(ports := "") == log[o].outcome.row.(ports := "")
  }

  // A slot is given away only when it is free.
  lemma GivenWhenFree(t: VmTable, e: Entry, i: nat)
    requires Consistent(t) && e.outcome == Answer(t, e.call) && Gives(e, i)
    ensures e.call.Allocate? && Effect(t, e.call) == t + [e.outcome.row] && FindVm(t, VmId(i)).None?
  {
    hide Consistent, Slots, TapUsed, FindVm, DeleteRow;
    var j := LowestFree(t).value;
    VmIdInjective(j, i);
    TapUsedIffSlot(t, i);
    SlotIffFound(t, i);
  }

  lemma {:induction false} OwnerHasTheRow(log: seq<Entry>, i: nat)
    requires Legal(log)
    ensures OwnedRow(log, i)
  {
    hide OwnedRow, Replay, Answer, Consistent;
    if log == [] {
      NoneOwned(i);
    } else {
      var n := |log| - 1;
      OwnerHasTheRow(log[..n], i);
      ReplayConsistent(log[..n]);
      EntryKeepsOwner(log[..n], log[n], i);
      assert log[..n] + [log[n]] == log;
    }
  }

  lemma NoneOwned(i: nat)
    ensures OwnedRow([], i)
  {
  }

  // What two points of a history with the same owner have in common.
  lemma SameOwnerSameRow(log: seq<Entry>, later: seq<Entry>, i: nat)
    requires log <= later && OwnedRow(log, i) && OwnedRow(later, i)
    requires Owner(log, i).Some? && Owner(later, i) == Owner(log, i)
    ensures var read, found := FindVm(Replay(log), VmId(i)), FindVm(Replay(later), VmId(i));
            read.Some? && found.Some? && found.value.(ports := "") == read.value.(ports := "")
  {
    hide Owner, Replay, FindVm;
    var o := Owner(log, i).value;
    assert later[o] == log[o];
  }

  lemma FoundIfOwned(log: seq<Entry>, i: nat)
    requires OwnedRow(log, i)
    ensures FindVm(Replay(log), VmId(i)).Some? <==> Owner(log, i).Some?
  {
  }

  lemma EntryKeepsOwner(log: seq<Entry>, e: Entry, i: nat)
    requires OwnedRow(log, i) && Consistent(Replay(log)) && e.outcome == Answer(Replay(log), e.call)
    ensures OwnedRow(log + [e], i)
  {
    hide Consistent, LowestFree, FindVm, DeleteRow, UpdatePorts, Legal;
    var t := Replay(log);
    assert (log + [e])[..|log|] == log;
    if Gives(e, i) {
      GivenWhenFree(t, e, i);
      FindAppended(t, e.outcome.row, VmId(i));
    } else {
      match e.call {
        case Allocate(_, _, _, _) =>
          if LowestFree(t).Some? {
            FindAppended(t, RowOf(e.call, LowestFree(t).value), VmId(i));
          }
        case Delete(id) => FindDeleted(t, id, VmId(i));
        case Update(id, ports) => FindUpdated(t, id, ports, VmId(i));
        case Read(_) =>
      }
    }
  }

  predicate NoDelete(mid: seq<Entry>, i: nat) {
    forall k :: 0 <= k < |mid| ==> !Deletes(mid[k], i)
  }

  // The slot is given to a new VM that is still there at the end.
  predicate GivenForGood(mid: seq<Entry>, i: nat) {
    exists k :: 0 <= k < |mid| && Gives(mid[k], i) && NoDelete(mid[k..], i)
  }

  lemma {:induction false} OwnerThrough(log: seq<Entry>, mid: seq<Entry>, i: nat)
    requires Legal(log + mid) && Owner(log, i).Some?
    ensures NoDelete(mid, i) ==> Owner(log + mid, i) == Owner(log, i)
    ensures !NoDelete(mid, i) && Owner(log + mid, i).Some? ==> Owner(log + mid, i).value >= |log|
    ensures Owner(log + mid, i).Some? && Owner(log + mid, i).value >= |log| <==> GivenForGood(mid, i)
  {
    hide Legal, Replay, OwnedRow;
    if mid == [] {
      assert log + mid == log;
    } else {
      var n := |mid| - 1;
      var e, before := mid[n], log + mid[..n];
      assert (log + mid)[..|log| + n] == before && (log + mid)[|log| + n] == e;
      LegalPrefix(log + mid, |log| + n);
      OwnerThrough(log, mid[..n], i);
      LastEntry(mid, i);
      if Gives(e, i) {
        OwnerIsGone(before, log + mid, e, i);
      }
    }
  }

  // A slot that is given away had no owner.
  lemma OwnerIsGone(before: seq<Entry>, log: seq<Entry>, e: Entry, i: nat)
    requires Legal(log) && log != [] && log[..|log| - 1] == before && log[|log| - 1] == e && Gives(e, i)
    ensures Owner(before, i) == None && !Deletes(e, i)
  {
    LegalPrefix(log, |log| - 1);
    ReplayConsistent(before);
    GivenWhenFree(Replay(before), e, i);
    OwnerHasTheRow(before, i);
  }

  // What the last entry adds to what is said of those before it.
  lemma LastEntry(mid: seq<Entry>, i: nat)
    requires mid != []
    ensures var n := |mid| - 1;
            && (NoDelete(mid, i) <==> NoDelete(mid[..n], i) && !Deletes(mid[n], i))
            && (Deletes(mid[n], i) ==> !GivenForGood(mid, i))
            && (!Deletes(mid[n], i) ==> (GivenForGood(mid, i) <==> Gives(mid[n], i) || GivenForGood(mid[..n], i)))
  {
    hide Deletes, Gives;
    var n := |mid| - 1;
    if k :| 0 <= k < |mid| && Gives(mid[k], i) && NoDelete(mid[k..], i) {
      assert mid[k..][n - k] == mid[n];
      if k < n {
        assert mid[..n][k..] == mid[k..][..n - k];
        assert Gives(mid[..n][k], i) && NoDelete(mid[..n][k..], i);
      }
    }
    if !Deletes(mid[n], i) {
      if Gives(mid[n], i) {
        assert mid[n..] == [mid[n]];
        assert NoDelete(mid[n..], i);
      } else if k :| 0 <= k < n && Gives(mid[..n][k], i) && NoDelete(mid[..n][k..], i) {
        assert mid[k..] == mid[..n][k..] + [mid[n]];
        assert Gives(mid[k], i) && NoDelete(mid[k..], i);
      }
    }
  }

  function ReadOf(p: nat, t: VmTable, id: string): Entry { Entry(p, Read(id), Seen(FindVm(t, id))) }

  // `labctl destroy` reads its VM, tears it down, and deletes by id. Whatever comes between, the
  // row it deletes is that of the VM it had read if and only if nobody else deleted that in the
  // meantime; it is that of another VM if and only if the slot was then given away again, and the
  // new VM is still there; otherwise there is no row to delete. The row is the one read, apart
  // from its ports, and those are as read unless they were written.
  lemma StaleDestroyExactly(log: seq<Entry>, i: nat, p: nat, mid: seq<Entry>)
    requires var id := VmId(i);
             Legal(log + [ReadOf(p, Replay(log), id)] + mid + [Entry(p, Delete(id), Changed)])
    requires Owner(log, i).Some?
    ensures var before := log + [ReadOf(p, Replay(log), VmId(i))] + mid;
            var read, found := FindVm(Replay(log), VmId(i)), FindVm(Replay(before), VmId(i));
            && FindVm(Replay(before + [Entry(p, Delete(VmId(i)), Changed)]), VmId(i)) == None
            && (Owner(before, i) == Owner(log, i) <==> NoDelete(mid, i))
            && (Owner(before, i).Some? && Owner(before, i) != Owner(log, i) <==> GivenForGood(mid, i))
            && (NoDelete(mid, i) ==> read.Some? && found.Some? && found.value.(ports := "") == read.value.(ports := ""))
            && (found.Some? <==> Owner(before, i).Some?)
            && (NoDelete(mid, i) && NoUpdate(mid, VmId(i)) ==> found == read)
  {
    hide Legal, FindVm, Deletes, Gives, Owner, OwnedRow, Replay, NoDelete, NoUpdate, GivenForGood, VmId;
    var id := VmId(i);
    var l1 := log + [ReadOf(p, Replay(log), id)];
    var before := l1 + mid;
    var all := before + [Entry(p, Delete(id), Changed)];
    assert all[..|before|] == before && before[..|log|] == log && all[..|log|] == log;
    LegalPrefix(all, |before|);
    LegalPrefix(all, |log|);
    assert l1[..|log|] == log;
    ReadChangesNoOwner(log, p, i);
    LastIsDelete(before, p, id);
    OwnerThrough(l1, mid, i);
    OwnerHasTheRow(log, i);
    OwnerHasTheRow(before, i);
    FoundIfOwned(before, i);
    if NoDelete(mid, i) {
      SameOwnerSameRow(log, before, i);
      if NoUpdate(mid, id) {
        NothingWritten(mid, i);
        Unwritten(l1, mid, id);
      }
    }
  }

  lemma NothingWritten(mid: seq<Entry>, i: nat)
    requires NoDelete(mid, i) && NoUpdate(mid, VmId(i)) && !GivenForGood(mid, i)
    ensures NoWrite(mid, VmId(i))
  {
    forall k | 0 <= k < |mid| ensures !Gives(mid[k], i) {
      if Gives(mid[k], i) {
        GivenUndeleted(mid, k, i);
      }
    }
  }

  lemma GivenUndeleted(mid: seq<Entry>, k: nat, i: nat)
    requires k < |mid| && Gives(mid[k], i) && NoDelete(mid, i)
    ensures GivenForGood(mid, i)
  {
    assert forall m :: 0 <= m < |mid[k..]| ==> mid[k..][m] == mid[k + m];
    assert NoDelete(mid[k..], i);
  }

  lemma ReadChangesNoOwner(log: seq<Entry>, p: nat, i: nat)
    ensures Owner(log + [ReadOf(p, Replay(log), VmId(i))], i) == Owner(log, i)
    ensures Replay(log + [ReadOf(p, Replay(log), VmId(i))]) == Replay(log)
  {
    assert (log + [ReadOf(p, Replay(log), VmId(i))])[..|log|] == log;
  }

  lemma LastIsDelete(log: seq<Entry>, p: nat, id: string)
    ensures FindVm(Replay(log + [Entry(p, Delete(id), Changed)]), id) == None
  {
    hide FindVm, DeleteRow;
    assert (log + [Entry(p, Delete(id), Changed)])[..|log|] == log;
    FindDeleted(Replay(log), id, id);
  }

  // The tightest schedule of such a loss: process p reads VM i to destroy it, q destroys it first,
  // r's allocation comes next and is given the freed slot, and p's delete removes r's row. With
  // nothing else between, this is a possible history exactly when every lower slot is live.
  lemma SecondDestroyTakesTheNewVm(log: seq<Entry>, i: nat, p: nat, q: nat, r: nat, call: Call)
    returns (log': seq<Entry>)
    requires Legal(log) && call.Allocate?
    requires i in Slots(Replay(log))
    ensures log' == log + [Entry(p, Read(VmId(i)), Seen(FindVm(Replay(log), VmId(i))))]
                        + [Entry(q, Delete(VmId(i)), Changed)]
                        + [Entry(r, call, Allocated(RowOf(call, i)))]
                        + [Entry(p, Delete(VmId(i)), Changed)]
    ensures Legal(log') <==> forall j: nat :: j < i ==> j in Slots(Replay(log))
    ensures Legal(log') ==> i !in Slots(Replay(log'))
  {
    hide Consistent, Slots, TapUsed, LowestFree, DeleteRow, RowFor;
    ReplayConsistent(log);
    var t := Replay(log);
    var read := Entry(p, Read(VmId(i)), Seen(FindVm(t, VmId(i))));
    var delete := Entry(q, Delete(VmId(i)), Changed);
    var allocate := Entry(r, call, Allocated(RowOf(call, i)));
    var again := Entry(p, Delete(VmId(i)), Changed);
    AppendEntry(log, read);
    AppendEntry(log + [read], delete);
    var l2 := log + [read] + [delete];
    var freed := DeleteRow(t, VmId(i));
    DeleteConsistent(t, i);
    LowestAfterDelete(t, i);
    log' := l2 + [allocate] + [again];
    assert log'[..|log'| - 1] == l2 + [allocate];
    assert (l2 + [allocate])[..|l2|] == l2;
    if LowestFree(freed) == Some(i) {
      AppendEntry(l2, allocate);
      AppendEntry(l2 + [allocate], again);
      InsertConsistent(freed, i, call.vcpus, call.memMib, call.imageId, call.ports);
      DeleteConsistent(freed + [RowOf(call, i)], i);
    } else {
      assert Answer(freed, call) != Allocated(RowOf(call, i)) by { RowsDiffer(call, i); }
      assert !Legal(l2 + [allocate]);
    }
  }

  lemma RowsDiffer(call: Call, i: nat)
    requires call.Allocate?
    ensures forall j: nat :: RowOf(call, j) == RowOf(call, i) ==> j == i
  {
  }

  lemma LowestAfterDelete(t: VmTable, i: nat)
    requires Consistent(t) && i in Slots(t)
    ensures LowestFree(DeleteRow(t, VmId(i))) == Some(i) <==> forall j: nat :: j < i ==> j in Slots(t)
  {
    hide Consistent, Slots, TapUsed, DeleteRow;
    var d := DeleteRow(t, VmId(i));
    DeleteConsistent(t, i);
    SlotCount(t);
    forall j: nat ensures TapUsed(d, TapName(j)) <==> j in Slots(t) && j != i {
      TapUsedIffSlot(d, j);
    }
    assert i in Range(SLOT_LIMIT);
    if forall j: nat :: j < i ==> j in Slots(t) {
      LowestFreeUnique(d, i);
    }
  }

  // ----- Edits of a port list, each a read and a write

  datatype Edit = AddOf(port: GoInt) | RmOf(port: GoInt)

  // `ports add` refuses a port that is in the list it reads, `ports rm` one that is not.
  predicate Enabled(e: Edit, ports: seq<GoInt>) {
    if e.AddOf? then e.port !in ports else e.port in ports
  }

  function Edited(e: Edit, ports: seq<GoInt>): seq<GoInt> {
    if e.AddOf? then ports + [e.port]
    else
      WithoutInRange(ports, e.port);
      Without(ports, e.port)
  }

  lemma {:induction false} WithoutInRange(ports: seq<GoInt>, port: int)
    ensures forall k :: 0 <= k < |Without(ports, port)| ==> MIN_INT <= Without(ports, port)[k] <= MAX_INT
  {
    if ports != [] {
      WithoutInRange(ports[..|ports| - 1], port);
    }
  }

  function PortsOf(t: VmTable, id: string): Option<seq<GoInt>> {
    match FindVm(t, id)
    case None => None
    case Some(row) => Unmarshal(row.ports)
  }

  // The ports of the id after the first n entries.
  ghost function PortsAt(log: seq<Entry>, n: nat, id: string): Option<seq<GoInt>>
    requires n <= |log|
  {
    PortsOf(Replay(log[..n]), id)
  }

  // One edit in a history: it reads at r and writes, by what it has read, at w.
  datatype Span = Span(edit: Edit, r: nat, w: nat)

  ghost predicate IsEdit(log: seq<Entry>, id: string, x: Span) {
    && x.r < x.w < |log|
    && log[x.r].call == Read(id) && log[x.w].pid == log[x.r].pid
    && PortsAt(log, x.r, id).Some? && Enabled(x.edit, PortsAt(log, x.r, id).value)
    && log[x.w].call == Update(id, Marshal(Edited(x.edit, PortsAt(log, x.r, id).value)))
  }

  // The write does to the list it overwrites what the edit would have done to it by itself.
  ghost predicate TakesEffect(log: seq<Entry>, id: string, x: Span)
    requires IsEdit(log, id, x)
  {
    && PortsAt(log, x.w, id).Some? && Enabled(x.edit, PortsAt(log, x.w, id).value)
    && PortsAt(log, x.w + 1, id) == Some(Edited(x.edit, PortsAt(log, x.w, id).value))
  }

  // The list is as it was read; for a removal, it has the port, perhaps in another place, and the
  // same other ports in the same order.
  predicate SameFor(e: Edit, read: seq<GoInt>, found: seq<GoInt>) {
    if e.AddOf? then found == read else e.port in found && SameOthers(found, read, e.port)
  }

  // There is a row of this id, with the list as the edit read it.
  ghost predicate FindsItsList(log: seq<Entry>, id: string, x: Span)
    requires IsEdit(log, id, x)
  {
    && PortsAt(log, x.w, id).Some?
    && SameFor(x.edit, PortsAt(log, x.r, id).value, PortsAt(log, x.w, id).value)
  }

  lemma WriteStores(log: seq<Entry>, n: nat, id: string, ports: seq<GoInt>)
    requires n < |log| && log[n].call == Update(id, Marshal(ports))
    ensures PortsAt(log, n + 1, id) == if FindVm(Replay(log[..n]), id).Some? then Some(ports) else None
  {
    hide Marshal, Unmarshal;
    assert log[..n + 1][..n] == log[..n];
    FindUpdated(Replay(log[..n]), id, Marshal(ports), id);
    PortsRoundTrip(ports);
  }

  // Whatever comes between the read and the write of an edit, it takes effect if and only if there
  // is a row of this id and its list is the one that was read, up to the place of a removed port.
  lemma EditTakesEffectExactly(log: seq<Entry>, id: string, x: Span)
    requires IsEdit(log, id, x)
    ensures TakesEffect(log, id, x) <==> FindsItsList(log, id, x)
  {
    hide Marshal, Unmarshal, Replay, Edited, Enabled, SameFor;
    var read := PortsAt(log, x.r, id).value;
    WriteStores(log, x.w, id, Edited(x.edit, read));
    if PortsAt(log, x.w, id).Some? {
      SameForMeans(x.edit, read, PortsAt(log, x.w, id).value);
    }
  }

  // The edit is possible on the list found and makes the same of it as of the list read.
  lemma SameForMeans(e: Edit, read: seq<GoInt>, found: seq<GoInt>)
    requires Enabled(e, read)
    ensures Enabled(e, found) && Edited(e, found) == Edited(e, read) <==> SameFor(e, read, found)
  {
    hide Without, SameOthers;
    SameOthersExactly(found, read, e.port);
    if e.AddOf? && Edited(e, found) == Edited(e, read) {
      assert found == (found + [e.port])[..|found|];
      assert read == (read + [e.port])[..|read|];
    }
  }

  // ----- Any number of edits

  // From `start` on, exactly these edits write to the VM, in this order.
  ghost predicate IsEditHistory(log: seq<Entry>, start: nat, id: string, edits: seq<Span>) {
    && Legal(log) && start <= |log|
    && (forall k :: 0 <= k < |edits| ==> start <= edits[k].r && IsEdit(log, id, edits[k]))
    && (forall j, k :: 0 <= j < k < |edits| ==> edits[j].w < edits[k].w)
    && (forall m :: start <= m < |log| && Writes(log[m], id) ==> exists k :: 0 <= k < |edits| && edits[k].w == m)
  }

  ghost predicate AllTakeEffect(log: seq<Entry>, start: nat, id: string, edits: seq<Span>)
    requires IsEditHistory(log, start, id, edits)
  {
    forall k :: 0 <= k < |edits| ==> TakesEffect(log, id, edits[k])
  }

  // One edit after the other, by themselves.
  function Sequential(edits: seq<Span>, ports: seq<GoInt>): seq<GoInt> {
    if edits == [] then ports
    else Edited(edits[|edits| - 1].edit, Sequential(edits[..|edits| - 1], ports))
  }

  lemma StaysBetween(log: seq<Entry>, a: nat, b: nat, id: string)
    requires Legal(log) && a <= b <= |log| && forall m :: a <= m < b ==> !Writes(log[m], id)
    ensures PortsAt(log, a, id) == PortsAt(log, b, id)
  {
    hide Legal, Replay, Writes, FindVm, Unmarshal;
    assert log[..a] + log[a..b] == log[..b];
    LegalPrefix(log, b);
    forall k | 0 <= k < |log[a..b]| ensures !Writes(log[a..b][k], id) {
      assert log[a..b][k] == log[a + k];
    }
    Unwritten(log[..a], log[a..b], id);
  }

  // Where no edit writes, the VM is not written to.
  lemma NoWriteBetween(log: seq<Entry>, start: nat, id: string, edits: seq<Span>, a: nat, b: nat)
    requires IsEditHistory(log, start, id, edits) && start <= a <= b <= |log|
    requires forall k :: 0 <= k < |edits| ==> !(a <= edits[k].w < b)
    ensures forall m :: a <= m < b ==> !Writes(log[m], id)
  {
    hide Legal, IsEdit, Writes;
  }

  // All edits take effect if and only if each finds the list as it read it.
  lemma AllTakeEffectExactly(log: seq<Entry>, start: nat, id: string, edits: seq<Span>)
    requires IsEditHistory(log, start, id, edits)
    ensures AllTakeEffect(log, start, id, edits) <==>
            forall k :: 0 <= k < |edits| ==> FindsItsList(log, id, edits[k])
  {
    hide IsEdit, TakesEffect, FindsItsList;
    forall k | 0 <= k < |edits| ensures TakesEffect(log, id, edits[k]) <==> FindsItsList(log, id, edits[k]) {
      EditTakesEffectExactly(log, id, edits[k]);
    }
  }

  // The place of the k-th write, and the end after the last.
  function WriteAt(log: seq<Entry>, edits: seq<Span>, k: nat): nat
    requires k <= |edits|
  {
    if k < |edits| then edits[k].w else |log|
  }

  lemma ListAfter(log: seq<Entry>, start: nat, id: string, edits: seq<Span>, k: nat)
    requires IsEditHistory(log, start, id, edits) && AllTakeEffect(log, start, id, edits) && k < |edits|
    ensures edits[k].w < |log| && PortsAt(log, edits[k].w, id).Some?
    ensures PortsAt(log, edits[k].w + 1, id) == Some(Edited(edits[k].edit, PortsAt(log, edits[k].w, id).value))
  {
    hide Legal, PortsAt, Edited, Enabled, Writes;
    assert TakesEffect(log, id, edits[k]);
  }

  lemma NextList(log: seq<Entry>, start: nat, id: string, edits: seq<Span>, k: nat)
    requires IsEditHistory(log, start, id, edits) && AllTakeEffect(log, start, id, edits) && k < |edits|
    ensures PortsAt(log, edits[k].w, id).Some?
    ensures PortsAt(log, WriteAt(log, edits, k + 1), id) == Some(Edited(edits[k].edit, PortsAt(log, edits[k].w, id).value))
  {
    hide Legal, PortsAt, Edited, Enabled, Writes, IsEditHistory, TakesEffect, AllTakeEffect;
    var upTo := WriteAt(log, edits, k + 1);
    EditsInOrder(log, start, id, edits);
    ListAfter(log, start, id, edits, k);
    NoWriteBetween(log, start, id, edits, edits[k].w + 1, upTo);
    StaysBetween(log, edits[k].w + 1, upTo, id);
  }

  // Then the list goes through what the edits make of it one after the other.
  lemma {:induction false} EffectsAddUp(log: seq<Entry>, start: nat, id: string, edits: seq<Span>, k: nat)
    requires IsEditHistory(log, start, id, edits) && AllTakeEffect(log, start, id, edits)
    requires k <= |edits| && PortsAt(log, start, id).Some?
    ensures WriteAt(log, edits, k) <= |log|
    ensures PortsAt(log, WriteAt(log, edits, k), id) == Some(Sequential(edits[..k], PortsAt(log, start, id).value))
  {
    hide Legal, PortsAt, Edited, Enabled, Writes, TakesEffect;
    if k == 0 {
      NoWriteBetween(log, start, id, edits, start, WriteAt(log, edits, 0));
      StaysBetween(log, start, WriteAt(log, edits, 0), id);
    } else {
      EffectsAddUp(log, start, id, edits, k - 1);
      NextList(log, start, id, edits, k - 1);
      assert edits[..k][..k - 1] == edits[..k - 1];
    }
  }

  // No write of the history falls between the edit's read and its write.
  predicate Undisturbed(edits: seq<Span>, k: nat)
    requires k < |edits|
  {
    forall j :: 0 <= j < |edits| ==> !(edits[k].r <= edits[j].w < edits[k].w)
  }

  // An edit that nothing disturbs takes effect.
  lemma UndisturbedTakesEffect(log: seq<Entry>, start: nat, id: string, edits: seq<Span>, k: nat)
    requires IsEditHistory(log, start, id, edits) && k < |edits| && Undisturbed(edits, k)
    ensures TakesEffect(log, id, edits[k])
  {
    hide Legal, Edited, Writes, PortsAt, SameFor, Enabled, TakesEffect;
    var x := edits[k];
    NoWriteBetween(log, start, id, edits, x.r, x.w);
    StaysBetween(log, x.r, x.w, id);
    EditTakesEffectExactly(log, id, x);
    SameForMeans(x.edit, PortsAt(log, x.r, id).value, PortsAt(log, x.r, id).value);
  }

  // Where ports are only added, nothing else will do: all adds take effect if and only if no write
  // falls between the read and the write of any of them.
  lemma AddsTakeEffectExactly(log: seq<Entry>, start: nat, id: string, edits: seq<Span>)
    requires IsEditHistory(log, start, id, edits) && PortsAt(log, start, id).Some?
    requires forall k :: 0 <= k < |edits| ==> edits[k].edit.AddOf?
    ensures AllTakeEffect(log, start, id, edits) <==> forall k :: 0 <= k < |edits| ==> Undisturbed(edits, k)
  {
    hide Legal, IsEdit, TakesEffect, PortsAt, Writes, Sequential;
    if forall k :: 0 <= k < |edits| ==> Undisturbed(edits, k) {
      forall k | 0 <= k < |edits| ensures TakesEffect(log, id, edits[k]) {
        UndisturbedTakesEffect(log, start, id, edits, k);
      }
    }
    if AllTakeEffect(log, start, id, edits) {
      forall k | 0 <= k < |edits| ensures Undisturbed(edits, k) {
        AddIsUndisturbed(log, start, id, edits, k);
      }
    }
  }

  lemma AddIsUndisturbed(log: seq<Entry>, start: nat, id: string, edits: seq<Span>, k: nat)
    requires IsEditHistory(log, start, id, edits) && PortsAt(log, start, id).Some?
    requires forall j :: 0 <= j < |edits| ==> edits[j].edit.AddOf?
    requires AllTakeEffect(log, start, id, edits) && k < |edits|
    ensures Undisturbed(edits, k)
  {
    hide IsEditHistory, AllTakeEffect, PortsAt;
    if i: nat :| i < |edits| && edits[k].r <= edits[i].w < edits[k].w {
      EditsInOrder(log, start, id, edits);
      var j := FirstAfter(edits, edits[k].r, i);
      ListAtRead(log, start, id, edits, k, j);
      EffectsAddUp(log, start, id, edits, j);
      EffectsAddUp(log, start, id, edits, k);
      AddsGrow(edits, j, k, PortsAt(log, start, id).value);
      AddFindsItsList(log, start, id, edits, k);
    }
  }

  lemma EditsInOrder(log: seq<Entry>, start: nat, id: string, edits: seq<Span>)
    requires IsEditHistory(log, start, id, edits)
    ensures Legal(log)
    ensures forall k :: 0 <= k < |edits| ==> start <= edits[k].r < edits[k].w < |log|
    ensures forall a, b :: 0 <= a < b < |edits| ==> edits[a].w < edits[b].w
  {
  }

  lemma AddFindsItsList(log: seq<Entry>, start: nat, id: string, edits: seq<Span>, k: nat)
    requires IsEditHistory(log, start, id, edits) && AllTakeEffect(log, start, id, edits)
    requires k < |edits| && edits[k].edit.AddOf?
    ensures edits[k].r < edits[k].w < |log| && PortsAt(log, edits[k].r, id) == PortsAt(log, edits[k].w, id)
  {
    hide Legal, PortsAt, Writes;
    EditTakesEffectExactly(log, id, edits[k]);
    assert TakesEffect(log, id, edits[k]);
  }

  // An edit reads what the next write of the history overwrites.
  lemma ListAtRead(log: seq<Entry>, start: nat, id: string, edits: seq<Span>, k: nat, j: nat)
    requires IsEditHistory(log, start, id, edits) && j <= k < |edits|
    requires edits[k].r <= edits[j].w && forall m :: 0 <= m < j ==> edits[m].w < edits[k].r
    ensures edits[k].r < |log| && edits[j].w < |log| && PortsAt(log, edits[k].r, id) == PortsAt(log, edits[j].w, id)
  {
    hide Legal, PortsAt, PortsOf, Writes, Edited, IsEdit;
    EditsInOrder(log, start, id, edits);
    NoWriteBetween(log, start, id, edits, edits[k].r, edits[j].w);
    StaysBetween(log, edits[k].r, edits[j].w, id);
  }

  // The first edit that writes at or after r.
  lemma FirstAfter(edits: seq<Span>, r: nat, i: nat) returns (j: nat)
    requires i < |edits| && r <= edits[i].w
    requires forall a, b :: 0 <= a < b < |edits| ==> edits[a].w < edits[b].w
    ensures j <= i && r <= edits[j].w && forall m :: 0 <= m < j ==> edits[m].w < r
  {
    j := i;
    while j > 0 && r <= edits[j - 1].w
      invariant j <= i && r <= edits[j].w
    {
      j := j - 1;
    }
  }

  lemma {:induction false} AddsGrow(edits: seq<Span>, j: nat, k: nat, ports: seq<GoInt>)
    requires j <= k <= |edits| && forall m :: 0 <= m < |edits| ==> edits[m].edit.AddOf?
    ensures |Sequential(edits[..k], ports)| == |Sequential(edits[..j], ports)| + k - j
  {
    if j < k {
      AddsGrow(edits, j, k - 1, ports);
      assert edits[..k][..k - 1] == edits[..k - 1];
    }
  }

  // ----- Histories of two edits

  ghost predicate PortsAre(log: seq<Entry>, id: string, ports: seq<GoInt>) {
    PortsOf(Replay(log), id) == Some(ports)
  }

  // `ports add` by process p: it has read the list and writes back what it read with one more.
  ghost function ReadEntry(log: seq<Entry>, p: nat, id: string): Entry {
    ReadOf(p, Replay(log), id)
  }

  function WriteEntry(p: nat, id: string, ports: seq<GoInt>): Entry {
    Entry(p, Update(id, Marshal(ports)), Changed)
  }

  lemma AddReads(log: seq<Entry>, p: nat, id: string, ports: seq<GoInt>)
    requires Legal(log) && PortsAre(log, id, ports)
    ensures Legal(log + [ReadEntry(log, p, id)]) && PortsAre(log + [ReadEntry(log, p, id)], id, ports)
  {
    AppendEntry(log, ReadEntry(log, p, id));
  }

  lemma AddWrites(log: seq<Entry>, p: nat, id: string, was: seq<GoInt>, ports: seq<GoInt>)
    requires Legal(log) && PortsAre(log, id, was)
    ensures Legal(log + [WriteEntry(p, id, ports)]) && PortsAre(log + [WriteEntry(p, id, ports)], id, ports)
  {
    AppendEntry(log, WriteEntry(p, id, ports));
    FindUpdated(Replay(log), id, Marshal(ports), id);
    PortsRoundTrip(ports);
  }

  // The read and the write are separate statements, so two adds that both read before either
  // writes are a legal history of the database in which the first one's port is lost, though
  // both were told they had succeeded.
  lemma ConcurrentAddsLoseOne(log: seq<Entry>, id: string, ports: seq<GoInt>, p: nat, a: GoInt, q: nat, b: GoInt)
    returns (log': seq<Entry>)
    requires Legal(log) && PortsAre(log, id, ports) && a !in ports && a != b
    ensures log' == log + [ReadEntry(log, p, id)] + [ReadEntry(log, q, id)]
                        + [WriteEntry(p, id, ports + [a])] + [WriteEntry(q, id, ports + [b])]
    ensures Legal(log') && PortsAre(log', id, ports + [b]) && a !in ports + [b]
  {
    hide Legal, PortsAre, WriteEntry;
    AddReads(log, p, id, ports);
    var l1 := log + [ReadEntry(log, p, id)];
    AppendEntry(log, ReadEntry(log, p, id));
    AddReads(l1, q, id, ports);
    var l2 := l1 + [ReadEntry(l1, q, id)];
    AddWrites(l2, p, id, ports, ports + [a]);
    var l3 := l2 + [WriteEntry(p, id, ports + [a])];
    AddWrites(l3, q, id, ports + [a], ports + [b]);
    log' := l3 + [WriteEntry(q, id, ports + [b])];
  }

  // One after the other, both ports are there.
  lemma SerialAddsKeepBoth(log: seq<Entry>, id: string, ports: seq<GoInt>, p: nat, a: GoInt, q: nat, b: GoInt)
    returns (log': seq<Entry>)
    requires Legal(log) && PortsAre(log, id, ports)
    ensures |log'| == |log| + 4 && log <= log' && Legal(log') && PortsAre(log', id, ports + [a] + [b])
  {
    AddReads(log, p, id, ports);
    var l1 := log + [ReadEntry(log, p, id)];
    AddWrites(l1, p, id, ports, ports + [a]);
    var l2 := l1 + [WriteEntry(p, id, ports + [a])];
    AddReads(l2, q, id, ports + [a]);
    var l3 := l2 + [ReadEntry(l2, q, id)];
    AddWrites(l3, q, id, ports + [a], ports + [a] + [b]);
    log' := l3 + [WriteEntry(q, id, ports + [a] + [b])];
  }

  // A write between the read and the write of an edit does not always spoil it: if others have
  // added a port and removed it again, the edit finds the list it read, and takes effect.
  lemma WritesBetweenMayCancelOut(log: seq<Entry>, id: string, ports: seq<GoInt>, p: nat, a: GoInt, q: nat, b: GoInt)
    returns (log': seq<Entry>, x: Span)
    requires Legal(log) && PortsAre(log, id, ports) && a !in ports && b !in ports
    ensures Legal(log') && log <= log' && x == Span(AddOf(b), |log|, |log| + 5) && IsEdit(log', id, x)
    ensures Writes(log'[|log| + 2], id) && Writes(log'[|log| + 4], id)
    ensures PortsAt(log', |log| + 3, id) == Some(ports + [a])
    ensures TakesEffect(log', id, x)
  {
    hide Legal, PortsOf, Replay, Marshal, FindVm;
    x := Span(AddOf(b), |log|, |log| + 5);
    AddReads(log, p, id, ports);
    var l1 := log + [ReadEntry(log, p, id)];
    AddReads(l1, q, id, ports);
    var l2 := l1 + [ReadEntry(l1, q, id)];
    AddWrites(l2, q, id, ports, ports + [a]);
    var l3 := l2 + [WriteEntry(q, id, ports + [a])];
    AddReads(l3, q, id, ports + [a]);
    var l4 := l3 + [ReadEntry(l3, q, id)];
    AddWrites(l4, q, id, ports + [a], ports);
    var l5 := l4 + [WriteEntry(q, id, ports)];
    AddWrites(l5, p, id, ports, ports + [b]);
    log' := l5 + [WriteEntry(p, id, ports + [b])];
    assert log'[..|log|] == log && log'[..|log| + 3] == l3 && log'[..|log| + 5] == l5 && log'[..|log| + 6] == log';
  }
}
