// The state database as one labctl process sees it (state/state.go): the allocation
// transaction, the row readers and writers, and what snapshot and restore carry across.
module Store {
  import opened Wrappers
  import opened Names
  import opened PortsJson
  import opened Ledger

  datatype VM = VM(id: string, tap: string, ip: string, cid: int, vcpus: int, memMib: int,
                   unit: string, ports: seq<GoInt>)

  datatype Snapshot = Snapshot(id: string, name: string, dir: string, vcpus: int, memMib: int,
                               ports: seq<GoInt>)

  datatype SnapshotRow = SnapshotRow(id: string, name: string, dir: string, vcpus: int, memMib: int,
                                     ports: string)

  datatype Error = DbError | NoSlots | ConstraintViolation | BadPorts

  // Which of the statements of one allocation the database refuses; scanFails is the index whose
  // probe fails.
  datatype AllocFaults = AllocFaults(connect: bool, begin: bool, scanFails: Option<nat>, insert: bool, commit: bool)

  const NO_FAULTS := AllocFaults(false, false, None, false, false)

  // No probe fails up to the one that decides the scan.
  predicate ScanCompletes(free: Option<nat>, faults: AllocFaults) {
    faults.scanFails.None? || faults.scanFails.value > if free.Some? then free.value else SLOT_LIMIT - 1
  }

  // A nil slice is stored as the empty list.
  function OrEmpty(ports: Option<seq<GoInt>>): seq<GoInt> {
    if ports.Some? then ports.value else []
  }

  // An empty image id is stored as NULL.
  function OrNull(imageId: string): Option<string> {
    if imageId == "" then None else Some(imageId)
  }

  function VmFor(i: nat, vcpus: int, memMib: int, ports: seq<GoInt>): VM {
    VM(VmId(i), TapName(i), VmIp(i), FIRST_CID + i, vcpus, memMib, UnitName(VmId(i)), ports)
  }

  function ReadVm(r: VmRow): Result<VM, Error> {
    match Unmarshal(r.ports)
    case None => Err(BadPorts)
    case Some(ports) => Ok(VM(r.id, r.tap, r.ip, r.cid, r.vcpus, r.memMib, r.unit, ports))
  }

  function ReadSnapshot(r: SnapshotRow): Result<Snapshot, Error> {
    match Unmarshal(r.ports)
    case None => Err(BadPorts)
    case Some(ports) => Ok(Snapshot(r.id, r.name, r.dir, r.vcpus, r.memMib, ports))
  }

  // SELECT ... WHERE id = ?
  function FindVm(t: VmTable, id: string): (r: Option<VmRow>)
    ensures r.None? <==> forall q :: q in t ==> q.id != id
    ensures r.Some? ==> r.value in t && r.value.id == id
  {
    if t == [] then None
    else if t[0].id == id then Some(t[0])
    else FindVm(t[1..], id)
  }

  // What a statement does to what is found under one id.

  lemma {:induction false} FindAppended(t: VmTable, row: VmRow, id: string)
    ensures FindVm(t + [row], id) == if FindVm(t, id).Some? then FindVm(t, id) else if row.id == id then Some(row) else None
  {
    if t == [] {
      assert t + [row] == [row] && [row][1..] == [];
    } else {
      assert (t + [row])[1..] == t[1..] + [row];
      FindAppended(t[1..], row, id);
    }
  }

  lemma {:induction false} FindDeleted(t: VmTable, gone: string, id: string)
    ensures FindVm(DeleteRow(t, gone), id) == if id == gone then None else FindVm(t, id)
  {
    if t != [] {
      FindDeleted(t[1..], gone, id);
      var rest := DeleteRow(t[1..], gone);
      if t[0].id != gone {
        assert ([t[0]] + rest)[1..] == rest;
      }
    }
  }

  lemma {:induction false} FindUpdated(t: VmTable, changed: string, ports: string, id: string)
    ensures FindVm(UpdatePorts(t, changed, ports), id) ==
            if id == changed && FindVm(t, id).Some? then Some(FindVm(t, id).value.(ports := ports)) else FindVm(t, id)
  {
    if t != [] {
      var u := UpdatePorts(t, changed, ports);
      assert u[1..] == UpdatePorts(t[1..], changed, ports);
      FindUpdated(t[1..], changed, ports, id);
    }
  }

  // SELECT ... WHERE name = ?
  function FindSnapshot(t: seq<SnapshotRow>, name: string): (r: Option<SnapshotRow>)
    ensures r.None? <==> forall q :: q in t ==> q.name != name
    ensures r.Some? ==> r.value in t && r.value.name == name
  {
    if t == [] then None
    else if t[0].name == name then Some(t[0])
    else FindSnapshot(t[1..], name)
  }

  lemma {:induction false} FindSnapshotAppended(t: seq<SnapshotRow>, row: SnapshotRow)
    requires forall q :: q in t ==> q.name != row.name
    ensures FindSnapshot(t + [row], row.name) == Some(row)
  {
    if t == [] {
      assert t + [row] == [row];
    } else {
      assert (t + [row])[1..] == t[1..] + [row];
      FindSnapshotAppended(t[1..], row);
    }
  }

  // What is found under the VM's id reads back as the VM, with the configuration asked for.
  predicate ReadsBack(t: VmTable, v: VM, vcpus: int, memMib: int, imageId: string, ports: Option<seq<GoInt>>) {
    && v.vcpus == vcpus && v.memMib == memMib && v.ports == (if ports.Some? then ports.value else [])
    && FindVm(t, v.id).Some?
    && var row := FindVm(t, v.id).value;
       && ReadVm(row) == Ok(v)
       && row.tap == v.tap && row.ip == v.ip && row.cid == v.cid && row.unit == v.unit
       && row.vcpus == vcpus && row.memMib == memMib && Unmarshal(row.ports) == Some(v.ports)
       && row.imageId == (if imageId == "" then None else Some(imageId))
  }

  lemma InsertReadsBack(t: VmTable, i: nat, vcpus: int, memMib: int, imageId: string, ports: Option<seq<GoInt>>)
    requires Consistent(t) && !TapUsed(t, TapName(i))
    ensures ReadsBack(t + [RowFor(i, vcpus, memMib, OrNull(imageId), Marshal(OrEmpty(ports)))],
                      VmFor(i, vcpus, memMib, OrEmpty(ports)), vcpus, memMib, imageId, ports)
  {
    hide Consistent, TapUsed, TapName, VmId, VmIp, UnitName, Marshal, Unmarshal, FindVm;
    FreeMeansAbsent(t, i);
    FindAppended(t, RowFor(i, vcpus, memMib, OrNull(imageId), Marshal(OrEmpty(ports))), VmId(i));
    PortsRoundTrip(OrEmpty(ports));
  }

  lemma FreeMeansAbsent(t: VmTable, i: nat)
    requires Consistent(t) && !TapUsed(t, TapName(i))
    ensures FindVm(t, VmId(i)).None?
  {
    if FindVm(t, VmId(i)).Some? {
      VmIdInjective(SlotOf(FindVm(t, VmId(i)).value), i);
    }
  }

  class State {
    var vms: VmTable
    var snapshots: seq<SnapshotRow>

    ghost predicate Valid()
      reads this
    {
      && Consistent(vms)
      && (forall r :: r in vms ==> Unmarshal(r.ports).Some?)
      && (forall r :: r in snapshots ==> Unmarshal(r.ports).Some?)
    }

    constructor ()
      ensures Valid() && vms == [] && snapshots == []
    {
      vms, snapshots := [], [];
    }

    // One BEGIN IMMEDIATE ... COMMIT: the statements work on the transaction's own view, which
    // becomes the table at COMMIT and is dropped on every other way out.
    method AllocateAndInsert(vcpus: int, memMib: int, imageId: string, ports: Option<seq<GoInt>>, faults: AllocFaults)
      returns (r: Result<VM, Error>)
      requires Valid()
      modifies this`vms
      ensures Valid()
      ensures r.Ok? ==>
                var free := LowestFree(old(vms));
                && free.Some?
                && r.value == VmFor(free.value, vcpus, memMib, OrEmpty(ports))
                && vms == old(vms) + [RowFor(free.value, vcpus, memMib, OrNull(imageId), Marshal(OrEmpty(ports)))]
                && free.value <= |old(vms)|
      ensures r.Ok? ==>
                && r.value.vcpus == vcpus && r.value.memMib == memMib
                && (if ports.Some? then r.value.ports == ports.value else r.value.ports == [])
      ensures r.Ok? ==> ReadsBack(vms, r.value, vcpus, memMib, imageId, ports)
      ensures r.Err? ==> vms == old(vms) && r.error in {DbError, NoSlots}
      ensures r.Ok? <==>
                && |old(vms)| < SLOT_LIMIT && ScanCompletes(LowestFree(old(vms)), faults)
                && !faults.connect && !faults.begin && !faults.insert && !faults.commit
      ensures r == Err(NoSlots) <==>
                && |old(vms)| == SLOT_LIMIT && ScanCompletes(None, faults) && !faults.connect && !faults.begin
    {
      hide TapName, VmId, VmIp, UnitName, Marshal, Unmarshal, ReadsBack, TapUsed, Violates;
      LowestFreeBound(vms);
      FullExactlyAtLimit(vms);
      if faults.connect || faults.begin {
        return Err(DbError);
      }
      var view := vms;
      var i := 0;
      var found := false;
      while i < SLOT_LIMIT
        invariant 0 <= i <= SLOT_LIMIT
        invariant !found
        invariant forall j: nat :: j < i ==> TapUsed(view, TapName(j))
        invariant faults.scanFails.Some? ==> i <= faults.scanFails.value
        decreases SLOT_LIMIT - i
      {
        if faults.scanFails == Some(i) {
          return Err(DbError);
        }
        if !TapUsed(view, TapName(i)) {
          found := true;
          break;
        }
        i := i + 1;
      }
      if !found {
        return Err(NoSlots);
      }
      var v := VM(VmId(i), TapName(i), VmIp(i), 3 + i, vcpus, memMib, UnitName(VmId(i)), OrEmpty(ports));
      var row := VmRow(v.id, v.tap, v.ip, v.cid, v.vcpus, v.memMib, OrNull(imageId), v.unit, Marshal(v.ports));
      InsertConsistent(view, i, vcpus, memMib, OrNull(imageId), Marshal(v.ports));
      if faults.insert {
        return Err(DbError);
      }
      if Violates(view, row) {
        return Err(ConstraintViolation);
      }
      view := view + [row];
      if faults.commit {
        return Err(DbError);
      }
      PortsRoundTrip(v.ports);
      InsertReadsBack(vms, i, vcpus, memMib, imageId, ports);
      vms := view;
      return Ok(v);
    }

    method Get(id: string, fails: bool) returns (r: Result<Option<VM>, Error>)
      requires Valid()
      ensures fails ==> r == Err(DbError)
      ensures !fails && FindVm(vms, id).None? ==> r == Ok(None)
      ensures !fails && FindVm(vms, id).Some? ==>
                r.Ok? && r.value.Some? && ReadVm(FindVm(vms, id).value) == Ok(r.value.value)
      ensures r.Ok? && r.value.Some? ==>
                var row, v := FindVm(vms, id).value, r.value.value;
                && v.id == row.id == id && v.tap == row.tap && v.ip == row.ip && v.cid == row.cid && v.unit == row.unit
                && v.vcpus == row.vcpus && v.memMib == row.memMib && Unmarshal(row.ports) == Some(v.ports)
    {
      if fails {
        return Err(DbError);
      }
      match FindVm(vms, id)
      case None => return Ok(None);
      case Some(row) =>
        match ReadVm(row) {
          case Ok(v) => return Ok(Some(v));
          case Err(e) => return Err(e);
        }
    }

    method List(fails: bool) returns (r: Result<seq<VM>, Error>)
      requires Valid()
      ensures fails ==> r == Err(DbError)
      ensures !fails ==> r.Ok? && |r.value| == |vms|
      ensures r.Ok? ==> forall k :: 0 <= k < |vms| ==> Ok(r.value[k]) == ReadVm(vms[k])
    {
      hide Unmarshal, Consistent;
      if fails {
        return Err(DbError);
      }
      var out := [];
      for k := 0 to |vms|
        invariant |out| == k
        invariant forall j :: 0 <= j < k ==> Ok(out[j]) == ReadVm(vms[j])
      {
        assert vms[k] in vms;
        match ReadVm(vms[k]) {
          case Ok(v) => out := out + [v];
          case Err(e) => return Err(e);
        }
      }
      return Ok(out);
    }

    method Remove(id: string, fails: bool) returns (r: Result<(), Error>)
      requires Valid()
      modifies this`vms
      ensures Valid()
      ensures vms == if fails then old(vms) else DeleteRow(old(vms), id)
      ensures r == if fails then Err(DbError) else Ok(())
      ensures !fails ==> forall other :: FindVm(vms, other) == if other == id then None else FindVm(old(vms), other)
    {
      hide FindVm;
      if fails {
        return Err(DbError);
      }
      DeleteDistinct(vms, id);
      forall other ensures FindVm(DeleteRow(vms, id), other) == if other == id then None else FindVm(vms, other) {
        FindDeleted(vms, id, other);
      }
      vms := DeleteRow(vms, id);
      return Ok(());
    }

    method SetPorts(id: string, ports: Option<seq<GoInt>>, fails: bool) returns (r: Result<(), Error>)
      requires Valid()
      modifies this`vms
      ensures Valid()
      ensures vms == if fails then old(vms) else UpdatePorts(old(vms), id, Marshal(OrEmpty(ports)))
      ensures r == if fails then Err(DbError) else Ok(())
      ensures !fails ==> forall other :: other != id ==> FindVm(vms, other) == FindVm(old(vms), other)
      ensures !fails && FindVm(old(vms), id).Some? ==>
                && FindVm(vms, id).Some?
                && var was, now := FindVm(old(vms), id).value, FindVm(vms, id).value;
                   && now == was.(ports := now.ports)
                   && Unmarshal(now.ports) == Some(if ports.Some? then ports.value else [])
    {
      hide FindVm, Marshal, Unmarshal, Consistent;
      if fails {
        return Err(DbError);
      }
      forall other
        ensures FindVm(UpdatePorts(vms, id, Marshal(OrEmpty(ports))), other) ==
                if other == id && FindVm(vms, other).Some? then Some(FindVm(vms, other).value.(ports := Marshal(OrEmpty(ports))))
                else FindVm(vms, other)
      {
        FindUpdated(vms, id, Marshal(OrEmpty(ports)), other);
      }
      PortsRoundTrip(OrEmpty(ports));
      UpdateConsistent(vms, id, Marshal(OrEmpty(ports)));
      vms := UpdatePorts(vms, id, Marshal(OrEmpty(ports)));
      return Ok(());
    }

    // The uuid is drawn by the caller; the name and the id are the UNIQUE columns.
    method InsertSnapshot(uuid: string, name: string, dir: string, vcpus: int, memMib: int,
                          ports: Option<seq<GoInt>>, fails: bool)
      returns (r: Result<Snapshot, Error>)
      requires Valid()
      modifies this`snapshots
      ensures Valid()
      ensures r.Ok? ==> r.value == Snapshot(uuid, name, dir, vcpus, memMib, OrEmpty(ports))
      ensures r.Ok? ==> snapshots == old(snapshots) + [SnapshotRow(uuid, name, dir, vcpus, memMib, Marshal(OrEmpty(ports)))]
      ensures r.Err? ==> snapshots == old(snapshots)
      ensures !fails ==> (r.Ok? <==> forall q :: q in old(snapshots) ==> q.id != uuid && q.name != name)
    {
      if fails {
        return Err(DbError);
      }
      if exists q :: q in snapshots && (q.id == uuid || q.name == name) {
        return Err(ConstraintViolation);
      }
      PortsRoundTrip(OrEmpty(ports));
      snapshots := snapshots + [SnapshotRow(uuid, name, dir, vcpus, memMib, Marshal(OrEmpty(ports)))];
      return Ok(Snapshot(uuid, name, dir, vcpus, memMib, OrEmpty(ports)));
    }

    method GetSnapshotByName(name: string, fails: bool) returns (r: Result<Option<Snapshot>, Error>)
      requires Valid()
      ensures fails ==> r == Err(DbError)
      ensures !fails && FindSnapshot(snapshots, name).None? ==> r == Ok(None)
      ensures !fails && FindSnapshot(snapshots, name).Some? ==>
                r.Ok? && r.value.Some? && ReadSnapshot(FindSnapshot(snapshots, name).value) == Ok(r.value.value)
      ensures r.Ok? && r.value.Some? ==>
                var row, s := FindSnapshot(snapshots, name).value, r.value.value;
                && s.id == row.id && s.name == row.name == name && s.dir == row.dir
                && s.vcpus == row.vcpus && s.memMib == row.memMib && Unmarshal(row.ports) == Some(s.ports)
    {
      if fails {
        return Err(DbError);
      }
      match FindSnapshot(snapshots, name)
      case None => return Ok(None);
      case Some(row) =>
        match ReadSnapshot(row) {
          case Ok(s) => return Ok(Some(s));
          case Err(e) => return Err(e);
        }
    }
  }

  // The ledger side of `labctl snapshot` when nothing fails: read the VM, check the name, record
  // the snapshot, drop the VM's row.
  method RecordSnapshot(s: State, id: string, name: string, dir: string, uuid: string) returns (done: bool)
    requires s.Valid()
    requires forall q :: q in s.snapshots ==> q.id != uuid
    modifies s
    ensures s.Valid()
    ensures done <==> FindVm(old(s.vms), id).Some? && FindSnapshot(old(s.snapshots), name).None?
    ensures !done ==> s.vms == old(s.vms) && s.snapshots == old(s.snapshots)
    ensures done ==>
              var row := FindVm(old(s.vms), id).value;
              var saved := FindSnapshot(s.snapshots, name);
              && s.vms == DeleteRow(old(s.vms), id)
              && saved.Some? && saved.value.dir == dir && saved.value.id == uuid
              && s.snapshots == old(s.snapshots) + [saved.value]
              && saved.value.vcpus == row.vcpus && saved.value.memMib == row.memMib
              && Unmarshal(saved.value.ports) == Unmarshal(row.ports)
  {
    hide Consistent, Marshal, Unmarshal, DeleteRow;
    var got := s.Get(id, false);
    if got.value.None? {
      return false;
    }
    var v := got.value.value;
    var existing := s.GetSnapshotByName(name, false);
    if existing.value.Some? {
      return false;
    }
    PortsRoundTrip(v.ports);
    FindSnapshotAppended(s.snapshots, SnapshotRow(uuid, name, dir, v.vcpus, v.memMib, Marshal(v.ports)));
    var _ := s.InsertSnapshot(uuid, name, dir, v.vcpus, v.memMib, Some(v.ports), false);
    var _ := s.Remove(id, false);
    return true;
  }

  // The ledger side of `labctl restore` when nothing fails.
  method AllocateFromSnapshot(s: State, name: string) returns (v: Option<VM>)
    requires s.Valid()
    modifies s`vms
    ensures s.Valid()
    ensures v.Some? <==> FindSnapshot(s.snapshots, name).Some? && |old(s.vms)| < SLOT_LIMIT
    ensures v.None? ==> s.vms == old(s.vms)
    ensures v.Some? ==> ReadsBack(s.vms, v.value, v.value.vcpus, v.value.memMib, "", Some(v.value.ports))
    ensures v.Some? ==>
              var saved := FindSnapshot(s.snapshots, name).value;
              && v.value.vcpus == saved.vcpus && v.value.memMib == saved.memMib
              && Unmarshal(saved.ports) == Some(v.value.ports)
              && LowestFree(old(s.vms)).Some?
              && v.value == VmFor(LowestFree(old(s.vms)).value, v.value.vcpus, v.value.memMib, v.value.ports)
  {
    hide ReadsBack, Consistent, Marshal, Unmarshal, TapName, VmId, VmIp, UnitName;
    var got := s.GetSnapshotByName(name, false);
    if got.value.None? {
      return None;
    }
    var snap := got.value.value;
    var r := s.AllocateAndInsert(snap.vcpus, snap.memMib, "", Some(snap.ports), NO_FAULTS);
    return if r.Ok? then Some(r.value) else None;
  }

  // Conservation: a VM saved under a free name and restored from it comes back with its vCPU
  // count, its memory and its exact port list, through four prints and parses of the ports text;
  // only its identity is new, and that identity is the lowest slot then free.
  method SnapshotThenRestoreKeepsConfig(s: State, id: string, name: string, dir: string, uuid: string)
    returns (before: Option<VM>, after: Option<VM>)
    requires s.Valid()
    requires forall q :: q in s.snapshots ==> q.id != uuid && q.name != name
    modifies s
    ensures s.Valid()
    ensures before.Some? <==> FindVm(old(s.vms), id).Some?
    ensures before.Some? ==>
              && after.Some?
              && ReadVm(FindVm(old(s.vms), id).value) == Ok(before.value)
              && after.value.vcpus == before.value.vcpus
              && after.value.memMib == before.value.memMib
              && after.value.ports == before.value.ports
              && ReadsBack(s.vms, after.value, before.value.vcpus, before.value.memMib, "", Some(before.value.ports))
              && LowestFree(DeleteRow(old(s.vms), id)) == Some(after.value.cid - FIRST_CID)
  {
    hide Consistent, TapName, VmId, VmIp, UnitName, Marshal, Unmarshal, DeleteRow, FindVm, FindSnapshot, ReadsBack;
    before, after := None, None;
    FullExactlyAtLimit(s.vms);
    DeleteShrinks(s.vms, id);
    var got := s.Get(id, false);
    if got.value.Some? {
      before := Some(got.value.value);
      var saved := RecordSnapshot(s, id, name, dir, uuid);
      assert saved;
      after := AllocateFromSnapshot(s, name);
    }
  }

  lemma {:induction false} DeleteShrinks(t: VmTable, id: string)
    ensures |DeleteRow(t, id)| <= |t|
    ensures FindVm(t, id).Some? ==> |DeleteRow(t, id)| < |t|
  {
    if t != [] {
      DeleteShrinks(t[1..], id);
    }
  }
}
