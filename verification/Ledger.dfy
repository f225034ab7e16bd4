// The vms table (state/state.go): rows with four UNIQUE columns, the slot each row stands for,
// and the sequential meaning of allocate, remove and set-ports.
module Ledger {
  import opened Wrappers
  import opened Names

  const SLOT_LIMIT: nat := 1000
  // The indices whose addresses share the gateway's /24.
  const FIRST_SUBNET_SLOTS: nat := 252

  datatype VmRow = VmRow(id: string, tap: string, ip: string, cid: int, vcpus: int, memMib: int,
                         imageId: Option<string>, unit: string, ports: string)

  type VmTable = seq<VmRow>

  // The columns declared PRIMARY KEY or UNIQUE.
  predicate SharesKey(a: VmRow, b: VmRow) {
    a.id == b.id || a.tap == b.tap || a.ip == b.ip || a.cid == b.cid
  }

  predicate Violates(t: VmTable, row: VmRow) {
    exists r :: r in t && SharesKey(r, row)
  }

  predicate TapUsed(t: VmTable, tap: string) {
    exists r :: r in t && r.tap == tap
  }

  function RowFor(i: nat, vcpus: int, memMib: int, imageId: Option<string>, ports: string): VmRow {
    VmRow(VmId(i), TapName(i), VmIp(i), FIRST_CID + i, vcpus, memMib, imageId, UnitName(VmId(i)), ports)
  }

  // The slot a row stands for, read off its CID.
  function SlotOf(r: VmRow): int { r.cid - FIRST_CID }

  predicate WellShaped(r: VmRow) {
    && 0 <= SlotOf(r) < SLOT_LIMIT
    && r == RowFor(SlotOf(r), r.vcpus, r.memMib, r.imageId, r.ports)
  }

  predicate Distinct(t: VmTable) {
    t == [] || ((forall r :: r in t[1..] ==> r.cid != t[0].cid) && Distinct(t[1..]))
  }

  // What every reachable table satisfies: each row is derived from one slot, no two from the same.
  predicate Consistent(t: VmTable) {
    (forall r :: r in t ==> WellShaped(r)) && Distinct(t)
  }

  function Slots(t: VmTable): set<int> {
    set r | r in t :: SlotOf(r)
  }

  // ----- The lowest free index, and what it means

  ghost predicate IsLowestFree(t: VmTable, i: nat) {
    i < SLOT_LIMIT && !TapUsed(t, TapName(i)) && forall j: nat :: j < i ==> TapUsed(t, TapName(j))
  }

  // The minimum excluded index, if there is one below the limit.
  ghost function LowestFree(t: VmTable): (r: Option<nat>)
    ensures r.Some? ==> IsLowestFree(t, r.value)
    ensures r.None? ==> forall j: nat :: j < SLOT_LIMIT ==> TapUsed(t, TapName(j))
  {
    if i: nat :| i < SLOT_LIMIT && !TapUsed(t, TapName(i)) then
      Some(LeastFreeUpTo(t, i))
    else None
  }

  ghost function LeastFreeUpTo(t: VmTable, i: nat): (m: nat)
    requires !TapUsed(t, TapName(i))
    ensures m <= i && !TapUsed(t, TapName(m)) && forall j: nat :: j < m ==> TapUsed(t, TapName(j))
  {
    if j: nat :| j < i && !TapUsed(t, TapName(j)) then LeastFreeUpTo(t, j) else i
  }

  // There is only one, so it does not matter how it is found.
  lemma LowestFreeUnique(t: VmTable, i: nat)
    requires IsLowestFree(t, i)
    ensures LowestFree(t) == Some(i)
  {
  }

  lemma TapUsedIffSlot(t: VmTable, i: nat)
    requires Consistent(t)
    ensures TapUsed(t, TapName(i)) <==> i in Slots(t)
  {
    if TapUsed(t, TapName(i)) {
      var r :| r in t && r.tap == TapName(i);
      TapNameInjective(SlotOf(r), i);
    }
    if i in Slots(t) {
      var r :| r in t && SlotOf(r) == i;
      assert r.tap == TapName(i);
    }
  }

  // Looking at the tap column alone is enough: on a consistent table, inserting the row for slot
  // i violates a UNIQUE constraint (on the id, tap, address or CID) exactly when its tap is taken.
  lemma TapScanSuffices(t: VmTable, i: nat, vcpus: int, memMib: int, imageId: Option<string>, ports: string)
    requires Consistent(t)
    ensures Violates(t, RowFor(i, vcpus, memMib, imageId, ports)) <==> TapUsed(t, TapName(i))
  {
    var row := RowFor(i, vcpus, memMib, imageId, ports);
    if Violates(t, row) {
      var r :| r in t && SharesKey(r, row);
      var j: nat := SlotOf(r);
      if r.id == row.id { VmIdInjective(j, i); }
      else if r.tap == row.tap { TapNameInjective(j, i); }
      else if r.ip == row.ip { VmIpInjective(j, i); }
      assert r.tap == TapName(i);
    }
    if TapUsed(t, TapName(i)) {
      var r :| r in t && r.tap == TapName(i);
      assert SharesKey(r, row);
    }
  }

  predicate Below(k: int, n: nat) { 0 <= k < n }

  function Range(n: nat): set<int> {
    set k: int | 0 <= k < n && Below(k, n)
  }

  lemma {:induction false} RangeSize(n: nat)
    ensures |Range(n)| == n
  {
    if n == 0 {
      assert Range(n) == {};
    } else {
      RangeSize(n - 1);
      assert Range(n) == Range(n - 1) + {n - 1};
    }
  }

  lemma SubsetSize(a: set<int>, b: set<int>)
    requires a <= b
    ensures |a| <= |b|
    ensures |a| == |b| ==> a == b
  {
    assert b == a + (b - a);
  }

  lemma SlotsOfRest(t: VmTable)
    requires t != [] && Distinct(t)
    ensures Slots(t) == Slots(t[1..]) + {SlotOf(t[0])} && SlotOf(t[0]) !in Slots(t[1..])
  {
    assert forall r :: r in t <==> r == t[0] || r in t[1..];
  }

  lemma {:induction false} DistinctCount(t: VmTable)
    requires Distinct(t)
    ensures |Slots(t)| == |t|
  {
    hide Slots, SlotOf;
    if t == [] {
      assert Slots(t) == {} by { NoSlots(); }
    } else {
      DistinctCount(t[1..]);
      SlotsOfRest(t);
    }
  }

  lemma NoSlots()
    ensures Slots([]) == {}
  {
  }

  lemma SlotCount(t: VmTable)
    requires Consistent(t)
    ensures |Slots(t)| == |t|
    ensures Slots(t) <= Range(SLOT_LIMIT)
  {
    DistinctCount(t);
  }

  // An allocation made with n live rows gets an index of at most n.
  lemma LowestFreeBound(t: VmTable)
    requires Consistent(t)
    ensures LowestFree(t).Some? ==> LowestFree(t).value <= |t|
  {
    match LowestFree(t)
    case None =>
    case Some(i) =>
      forall k | k in Range(i) ensures k in Slots(t) {
        TapUsedIffSlot(t, k);
      }
      SlotCount(t);
      RangeSize(i);
      SubsetSize(Range(i), Slots(t));
  }

  // The scan comes up empty exactly when 1000 rows are live.
  lemma FullExactlyAtLimit(t: VmTable)
    requires Consistent(t)
    ensures |t| <= 1000
    ensures LowestFree(t).None? <==> |t| == 1000
  {
    SlotCount(t);
    RangeSize(SLOT_LIMIT);
    SubsetSize(Slots(t), Range(SLOT_LIMIT));
    match LowestFree(t)
    case None =>
      forall k | k in Range(SLOT_LIMIT) ensures k in Slots(t) {
        TapUsedIffSlot(t, k);
      }
      SubsetSize(Range(SLOT_LIMIT), Slots(t));
    case Some(i) =>
      TapUsedIffSlot(t, i);
      assert i in Range(SLOT_LIMIT) && i !in Slots(t);
  }

  // ----- The three statements that change the table

  // DELETE FROM vms WHERE id = ?
  function DeleteRow(t: VmTable, id: string): (d: VmTable)
    ensures forall r :: r in d <==> r in t && r.id != id
  {
    if t == [] then []
    else if t[0].id == id then DeleteRow(t[1..], id)
    else [t[0]] + DeleteRow(t[1..], id)
  }

  // UPDATE vms SET ports = ? WHERE id = ?
  function UpdatePorts(t: VmTable, id: string, ports: string): (u: VmTable)
    ensures |u| == |t|
    ensures forall k :: 0 <= k < |t| ==> u[k] == if t[k].id == id then t[k].(ports := ports) else t[k]
  {
    seq(|t|, k requires 0 <= k < |t| => if t[k].id == id then t[k].(ports := ports) else t[k])
  }

  // The row's slot is free, so the insert succeeds and the table stays consistent.
  lemma InsertConsistent(t: VmTable, i: nat, vcpus: int, memMib: int, imageId: Option<string>, ports: string)
    requires Consistent(t) && i < SLOT_LIMIT && !TapUsed(t, TapName(i))
    ensures !Violates(t, RowFor(i, vcpus, memMib, imageId, ports))
    ensures Consistent(t + [RowFor(i, vcpus, memMib, imageId, ports)])
    ensures Slots(t + [RowFor(i, vcpus, memMib, imageId, ports)]) == Slots(t) + {i}
  {
    hide Violates, TapUsed, Distinct, Slots;
    var row := RowFor(i, vcpus, memMib, imageId, ports);
    TapScanSuffices(t, i, vcpus, memMib, imageId, ports);
    TapUsedIffSlot(t, i);
    assert SlotOf(row) == i;
    SlotsAppend(t, row);
    forall r | r in t ensures r.cid != row.cid {
      SlotIn(t, r);
    }
    AppendDistinct(t, row);
  }

  lemma SlotIn(t: VmTable, r: VmRow)
    requires r in t
    ensures SlotOf(r) in Slots(t)
  {
  }

  lemma SlotsAppend(t: VmTable, row: VmRow)
    ensures Slots(t + [row]) == Slots(t) + {SlotOf(row)}
  {
    assert forall r :: r in t + [row] <==> r in t || r == row;
  }

  lemma {:induction false} AppendDistinct(t: VmTable, row: VmRow)
    requires Distinct(t) && forall r :: r in t ==> r.cid != row.cid
    ensures Distinct(t + [row])
  {
    if t == [] {
      assert (t + [row])[1..] == [];
    } else {
      assert (t + [row])[1..] == t[1..] + [row];
      AppendDistinct(t[1..], row);
    }
  }

  // Removing a VM frees its slot and nothing else.
  lemma DeleteConsistent(t: VmTable, i: nat)
    requires Consistent(t)
    ensures Consistent(DeleteRow(t, VmId(i)))
    ensures Slots(DeleteRow(t, VmId(i))) == Slots(t) - {i}
  {
    DeleteDistinct(t, VmId(i));
    var d := DeleteRow(t, VmId(i));
    forall r | r in t ensures r.id == VmId(i) <==> SlotOf(r) == i {
      if r.id == VmId(i) {
        VmIdInjective(SlotOf(r), i);
      }
    }
  }

  // The same for an arbitrary id, which may name no VM at all.
  lemma {:induction false} DeleteDistinct(t: VmTable, id: string)
    requires Distinct(t)
    ensures Distinct(DeleteRow(t, id))
  {
    if t != [] {
      DeleteDistinct(t[1..], id);
      var rest := DeleteRow(t[1..], id);
      if t[0].id != id {
        assert ([t[0]] + rest)[1..] == rest;
      }
    }
  }

  lemma {:induction false} UpdateConsistent(t: VmTable, id: string, ports: string)
    requires Consistent(t)
    ensures Consistent(UpdatePorts(t, id, ports))
    ensures Slots(UpdatePorts(t, id, ports)) == Slots(t)
  {
    var u := UpdatePorts(t, id, ports);
    forall r | r in u ensures WellShaped(r) && exists q :: q in t && SlotOf(q) == SlotOf(r) {
      var k :| 0 <= k < |u| && u[k] == r;
      assert WellShaped(t[k]) && SlotOf(t[k]) == SlotOf(r);
    }
    forall q | q in t ensures exists r :: r in u && SlotOf(r) == SlotOf(q) {
      var k :| 0 <= k < |t| && t[k] == q;
      assert SlotOf(u[k]) == SlotOf(q);
    }
    UpdateDistinct(t, id, ports);
  }

  lemma {:induction false} UpdateDistinct(t: VmTable, id: string, ports: string)
    requires Distinct(t)
    ensures Distinct(UpdatePorts(t, id, ports))
  {
    var u := UpdatePorts(t, id, ports);
    if t != [] {
      assert u[1..] == UpdatePorts(t[1..], id, ports);
      UpdateDistinct(t[1..], id, ports);
      forall r | r in u[1..] ensures r.cid != u[0].cid {
        var k :| 1 <= k < |u| && u[k] == r;
        assert t[k] in t[1..];
      }
    }
  }

  // With fewer than 252 VMs live, the next one is given an address of the gateway's own /24,
  // namely 172.16.0.(i+3), as the netmask in the boot arguments assumes.
  lemma AllocationStaysInFirstSubnet(t: VmTable)
    requires Consistent(t) && |t| < FIRST_SUBNET_SLOTS
    ensures LowestFree(t).Some?
    ensures var i := LowestFree(t).value;
            i < FIRST_SUBNET_SLOTS && VmIp(i) == DottedQuad(172, 16, 0, i + 3) && i + 3 <= 254
  {
    FullExactlyAtLimit(t);
    LowestFreeBound(t);
    VmIpUsable(LowestFree(t).value);
  }

  // The first /24 ends there: slot 252 already gets 172.16.1.1, so 252 VMs fit, not 253.
  lemma FirstSubnetHolds252()
    ensures VmIp(251) == DottedQuad(172, 16, 0, 254)
    ensures VmIp(252) == DottedQuad(172, 16, 1, 1)
    ensures VmIp(252) != DottedQuad(172, 16, 0, HostOctet(252))
  {
    if VmIp(252) == DottedQuad(172, 16, 0, HostOctet(252)) {
      DottedQuadInjective(172, 16, 1, 1, 172, 16, 0, HostOctet(252));
    }
  }
}
