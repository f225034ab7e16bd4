// Any number of labctl processes sharing one database file (state/state.go). SQLite admits one
// writer at a time: BEGIN IMMEDIATE takes the write lock or fails, statements outside a
// transaction take it for their own duration, readers see the last committed table, and a
// transaction that does not commit leaves no trace. Every call may fail and every process may
// die at any step.
module LedgerProcesses {
  import opened Wrappers
  import opened Names
  import opened Ledger
  import opened Store

  datatype Call =
    | Allocate(vcpus: int, memMib: int, imageId: Option<string>, ports: string)
    | Delete(id: string)
    | Update(id: string, ports: string)
    | Read(id: string)

  datatype Outcome = Allocated(row: VmRow) | NoFreeSlot | Changed | Seen(found: Option<VmRow>)

  // Where a process is in its current call. `since` is the length of the log when the call was
  // made; `at` is the position of its log entry, if the call took effect.
  datatype Phase =
    | Waiting(call: Call, since: nat)
    | Scanning(call: Call, since: nat, k: nat)
    | Chosen(call: Call, since: nat, i: nat)
    | Inserted(call: Call, since: nat, row: VmRow, view: VmTable)
    | Finished(call: Call, since: nat, at: nat, outcome: Outcome)
    | Failed(call: Call)

  datatype Entry = Entry(pid: nat, call: Call, outcome: Outcome)

  datatype Db = Db(table: VmTable, lock: Option<nat>, procs: map<nat, Phase>, log: seq<Entry>)

  const INIT := Db([], None, map[], [])

  predicate Holds(ph: Phase) { ph.Scanning? || ph.Chosen? || ph.Inserted? }

  function Move(s: Db, p: nat, ph: Phase): Db { s.(procs := s.procs[p := ph]) }

  // The call takes effect: one entry in the log, and the process has its answer.
  function TakeEffect(s: Db, p: nat, call: Call, since: nat, outcome: Outcome, table: VmTable): Db {
    Db(table, s.lock, s.procs[p := Finished(call, since, |s.log|, outcome)], s.log + [Entry(p, call, outcome)])
  }

  function Unlock(s: Db, p: nat): Db { if s.lock == Some(p) then s.(lock := None) else s }

  function RowOf(call: Call, i: nat): VmRow
    requires call.Allocate?
  {
    RowFor(i, call.vcpus, call.memMib, call.imageId, call.ports)
  }

  // ----- Steps

  ghost predicate Invoke(s: Db, p: nat, s': Db) {
    p !in s.procs && exists call :: s' == Move(s, p, Waiting(call, |s.log|))
  }

  // The next step of the allocation transaction when the database does not fail it.
  predicate Transact(s: Db, p: nat, s': Db) {
    p in s.procs &&
    match s.procs[p]
    case Waiting(call, since) =>
      call.Allocate? && s.lock == None && s' == Move(s, p, Scanning(call, since, 0)).(lock := Some(p))
    case Scanning(call, since, k) =>
      if k >= SLOT_LIMIT then s' == Unlock(TakeEffect(s, p, call, since, NoFreeSlot, s.table), p)
      else if TapUsed(s.table, TapName(k)) then s' == Move(s, p, Scanning(call, since, k + 1))
      else s' == Move(s, p, Chosen(call, since, k))
    case Chosen(call, since, i) =>
      call.Allocate? &&
      if Violates(s.table, RowOf(call, i)) then s' == Unlock(Move(s, p, Failed(call)), p)
      else s' == Move(s, p, Inserted(call, since, RowOf(call, i), s.table + [RowOf(call, i)]))
    case Inserted(call, since, row, view) =>
      s' == Unlock(TakeEffect(s, p, call, since, Allocated(row), view), p)
    case _ => false
  }

  // DELETE and UPDATE need the write lock, SELECT does not.
  predicate Autocommit(s: Db, p: nat, s': Db) {
    p in s.procs && s.procs[p].Waiting? &&
    var since := s.procs[p].since;
    match s.procs[p].call
    case Delete(id) =>
      s.lock == None && s' == TakeEffect(s, p, Delete(id), since, Changed, DeleteRow(s.table, id))
    case Update(id, ports) =>
      s.lock == None && s' == TakeEffect(s, p, Update(id, ports), since, Changed, UpdatePorts(s.table, id, ports))
    case Read(id) =>
      s' == TakeEffect(s, p, Read(id), since, Seen(FindVm(s.table, id)), s.table)
    case _ => false
  }

  // Any statement may be refused; the deferred ROLLBACK then drops the transaction.
  predicate Refuse(s: Db, p: nat, s': Db) {
    && p in s.procs && (s.procs[p].Waiting? || Holds(s.procs[p]))
    && s' == Unlock(Move(s, p, Failed(s.procs[p].call)), p)
  }

  predicate Return(s: Db, p: nat, s': Db) {
    p in s.procs && (s.procs[p].Finished? || s.procs[p].Failed?) && s' == s.(procs := s.procs - {p})
  }

  predicate Die(s: Db, p: nat, s': Db) {
    p in s.procs && s' == Unlock(s.(procs := s.procs - {p}), p)
  }

  ghost predicate StepBy(s: Db, p: nat, s': Db) {
    Invoke(s, p, s') || Transact(s, p, s') || Autocommit(s, p, s') || Refuse(s, p, s') || Return(s, p, s') || Die(s, p, s')
  }

  ghost predicate Step(s: Db, s': Db) {
    exists p: nat :: StepBy(s, p, s')
  }

  ghost predicate IsRun(run: seq<Db>) {
    && run != [] && run[0] == INIT
    && forall k :: 0 <= k < |run| - 1 ==> Step(run[k], run[k + 1])
  }

  // ----- The sequential object the log must be a history of

  // What the call answers, on a table that nobody else touches.
  ghost function Answer(t: VmTable, call: Call): Outcome {
    match call
    case Allocate(_, _, _, _) =>
      (match LowestFree(t)
       case Some(i) => Allocated(RowOf(call, i))
       case None => NoFreeSlot)
    case Delete(_) => Changed
    case Update(_, _) => Changed
    case Read(id) => Seen(FindVm(t, id))
  }

  ghost function Effect(t: VmTable, call: Call): VmTable {
    match call
    case Allocate(_, _, _, _) =>
      (match LowestFree(t)
       case Some(i) => t + [RowOf(call, i)]
       case None => t)
    case Delete(id) => DeleteRow(t, id)
    case Update(id, ports) => UpdatePorts(t, id, ports)
    case Read(_) => t
  }

  ghost function Replay(log: seq<Entry>): VmTable {
    if log == [] then [] else Effect(Replay(log[..|log| - 1]), log[|log| - 1].call)
  }

  // Every entry carries the answer the sequential object gives at that point.
  ghost predicate Legal(log: seq<Entry>) {
    log == [] ||
    var before := log[..|log| - 1];
    Legal(before) && log[|log| - 1].outcome == Answer(Replay(before), log[|log| - 1].call)
  }

  lemma {:induction false} AnswerAt(log: seq<Entry>, k: nat)
    requires Legal(log) && k < |log|
    ensures log[k].outcome == Answer(Replay(log[..k]), log[k].call)
  {
    hide Answer, Replay;
    if k < |log| - 1 {
      AnswerAt(log[..|log| - 1], k);
      assert log[..|log| - 1][..k] == log[..k];
    }
  }

  // ----- Invariant

  ghost predicate PhaseOk(s: Db, p: nat, ph: Phase) {
    match ph
    case Waiting(_, since) => since <= |s.log|
    case Scanning(call, since, k) =>
      && s.lock == Some(p) && call.Allocate? && since <= |s.log| && k <= SLOT_LIMIT
      && (forall j: nat :: j < k ==> TapUsed(s.table, TapName(j)))
    case Chosen(call, since, i) =>
      s.lock == Some(p) && call.Allocate? && since <= |s.log| && LowestFree(s.table) == Some(i)
    case Inserted(call, since, row, view) =>
      && s.lock == Some(p) && call.Allocate? && since <= |s.log|
      && Answer(s.table, call) == Allocated(row) && view == Effect(s.table, call)
    case Finished(call, since, at, outcome) =>
      since <= at < |s.log| && s.log[at] == Entry(p, call, outcome)
    case Failed(_) => true
  }

  ghost predicate Inv(s: Db) {
    && Consistent(s.table)
    && Legal(s.log) && Replay(s.log) == s.table
    && (s.lock.Some? ==> s.lock.value in s.procs && Holds(s.procs[s.lock.value]))
    && forall p :: p in s.procs ==> PhaseOk(s, p, s.procs[p])
  }

  lemma AppendEntry(log: seq<Entry>, e: Entry)
    requires Legal(log) && e.outcome == Answer(Replay(log), e.call)
    ensures Legal(log + [e]) && Replay(log + [e]) == Effect(Replay(log), e.call)
  {
    assert (log + [e])[..|log|] == log;
  }

  lemma EffectConsistent(t: VmTable, call: Call)
    requires Consistent(t)
    ensures Consistent(Effect(t, call))
  {
    match call
    case Allocate(vcpus, memMib, imageId, ports) =>
      if LowestFree(t).Some? {
        InsertConsistent(t, LowestFree(t).value, vcpus, memMib, imageId, ports);
      }
    case Delete(id) => DeleteDistinct(t, id);
    case Update(id, ports) => UpdateConsistent(t, id, ports);
    case Read(_) =>
  }

  lemma {:induction false} ReplayConsistent(log: seq<Entry>)
    ensures Consistent(Replay(log))
  {
    if log != [] {
      ReplayConsistent(log[..|log| - 1]);
      EffectConsistent(Replay(log[..|log| - 1]), log[|log| - 1].call);
    }
  }

  lemma ReadLeavesTable(t: VmTable, call: Call)
    ensures call.Read? ==> Effect(t, call) == t
  {
  }

  // A call that takes effect while no other process holds the lock keeps the invariant.
  lemma EffectKeepsInv(s: Db, p: nat, call: Call, since: nat)
    requires Inv(s) && since <= |s.log|
    requires call.Read? || s.lock == None || s.lock == Some(p)
    ensures var s' := TakeEffect(s, p, call, since, Answer(s.table, call), Effect(s.table, call));
            Inv(Unlock(s', p)) && (s.lock != Some(p) ==> Inv(s'))
  {
    hide Consistent, Answer, Effect, Legal, Replay, TapUsed, LowestFree;
    ReadLeavesTable(s.table, call);
    EffectConsistent(s.table, call);
    AppendEntry(s.log, Entry(p, call, Answer(s.table, call)));
  }

  lemma BeginKeepsInv(s: Db, p: nat, s': Db)
    requires Inv(s) && Transact(s, p, s') && s.procs[p].Waiting?
    ensures Inv(s')
  {
    hide Consistent, Replay, Legal, LowestFree;
  }

  lemma ScanKeepsInv(s: Db, p: nat, s': Db)
    requires Inv(s) && Transact(s, p, s') && s.procs[p].Scanning?
    ensures Inv(s')
  {
    hide Consistent, Replay, Legal, TapUsed, RowFor;
    var Scanning(call, since, k) := s.procs[p];
    if k >= SLOT_LIMIT {
      EffectKeepsInv(s, p, call, since);
    } else if !TapUsed(s.table, TapName(k)) {
      LowestFreeUnique(s.table, k);
    }
  }

  lemma InsertKeepsInv(s: Db, p: nat, s': Db)
    requires Inv(s) && Transact(s, p, s') && s.procs[p].Chosen?
    ensures Inv(s')
  {
    hide Consistent, Replay, Legal, Violates, RowFor, TapUsed;
  }

  lemma CommitKeepsInv(s: Db, p: nat, s': Db)
    requires Inv(s) && Transact(s, p, s') && s.procs[p].Inserted?
    ensures Inv(s')
  {
    EffectKeepsInv(s, p, s.procs[p].call, s.procs[p].since);
  }

  lemma TransactKeepsInv(s: Db, p: nat, s': Db)
    requires Inv(s) && Transact(s, p, s')
    ensures Inv(s')
  {
    match s.procs[p] {
      case Waiting(_, _) => BeginKeepsInv(s, p, s');
      case Scanning(_, _, _) => ScanKeepsInv(s, p, s');
      case Chosen(_, _, _) => InsertKeepsInv(s, p, s');
      case Inserted(_, _, _, _) => CommitKeepsInv(s, p, s');
    }
  }

  lemma AutocommitKeepsInv(s: Db, p: nat, s': Db)
    requires Inv(s) && Autocommit(s, p, s')
    ensures Inv(s')
  {
    hide Consistent, Replay, Legal, TapUsed, RowFor;
    EffectKeepsInv(s, p, s.procs[p].call, s.procs[p].since);
  }

  lemma StepKeepsInv(s: Db, p: nat, s': Db)
    requires Inv(s) && StepBy(s, p, s')
    ensures Inv(s')
  {
    if Transact(s, p, s') {
      TransactKeepsInv(s, p, s');
    } else if Autocommit(s, p, s') {
      AutocommitKeepsInv(s, p, s');
    } else {
      QuietStepKeepsInv(s, p, s');
    }
  }

  // Steps that leave the table and the log alone.
  lemma QuietStepKeepsInv(s: Db, p: nat, s': Db)
    requires Inv(s)
    requires Invoke(s, p, s') || Refuse(s, p, s') || Return(s, p, s') || Die(s, p, s')
    ensures Inv(s')
  {
    hide Consistent, Replay, Legal, Answer, Effect, TapUsed, LowestFree;
  }

  lemma {:induction false} RunKeepsInv(run: seq<Db>, k: nat)
    requires IsRun(run) && k < |run|
    ensures Inv(run[k])
  {
    if k > 0 {
      RunKeepsInv(run, k - 1);
      assert Step(run[k - 1], run[k]);
      var p: nat :| StepBy(run[k - 1], p, run[k]);
      StepKeepsInv(run[k - 1], p, run[k]);
    }
  }

  // ----- Main results

  // Linearizability: at every point of every run, the log is a history of the sequential
  // allocator whose final table is the committed one, and each answered call has its entry in
  // that history, with the answer it was given, placed between its invocation and its return.
  lemma AllocationLinearizable(run: seq<Db>, k: nat)
    requires IsRun(run) && k < |run|
    ensures Legal(run[k].log) && Replay(run[k].log) == run[k].table
    ensures forall p :: p in run[k].procs && run[k].procs[p].Finished? ==>
              var ph := run[k].procs[p];
              ph.since <= ph.at < |run[k].log| && run[k].log[ph.at] == Entry(p, ph.call, ph.outcome)
  {
    RunKeepsInv(run, k);
  }

  lemma {:induction false} LogGrows(run: seq<Db>, i: nat, j: nat)
    requires IsRun(run) && i <= j < |run|
    ensures run[i].log <= run[j].log
  {
    hide StepBy;
    if i < j {
      LogGrows(run, i, j - 1);
      assert Step(run[j - 1], run[j]);
      var p: nat :| StepBy(run[j - 1], p, run[j]);
      StepExtendsLog(run[j - 1], p, run[j]);
    }
  }

  lemma StepExtendsLog(s: Db, p: nat, s': Db)
    requires StepBy(s, p, s')
    ensures s.log <= s'.log
  {
    hide TapUsed, Violates, RowFor, DeleteRow, UpdatePorts, FindVm;
  }

  // The history respects real time: a call answered in state i precedes any call made in a
  // later state, wherever that second call is answered.
  lemma HistoryRespectsRealTime(run: seq<Db>, i: nat, j: nat, k: nat, p: nat, q: nat)
    requires IsRun(run) && i <= j <= k < |run|
    requires p in run[i].procs && run[i].procs[p].Finished?
    requires q in run[k].procs && run[k].procs[q].Finished? && run[k].procs[q].since >= |run[j].log|
    ensures run[i].procs[p].at < run[k].procs[q].at
  {
    AllocationLinearizable(run, i);
    AllocationLinearizable(run, k);
    LogGrows(run, i, j);
  }

  // In every reachable state the rows stand for distinct slots and are derived from them, so at
  // most 1000 are live and no two share an id, tap, address or CID.
  lemma LiveRowsDistinct(run: seq<Db>, k: nat)
    requires IsRun(run) && k < |run|
    ensures Consistent(run[k].table) && |run[k].table| <= SLOT_LIMIT
    ensures forall q, r :: q in run[k].table && r in run[k].table && SharesKey(q, r) ==> SlotOf(q) == SlotOf(r)
  {
    RunKeepsInv(run, k);
    var t := run[k].table;
    FullExactlyAtLimit(t);
    forall q, r | q in t && r in t && SharesKey(q, r) ensures SlotOf(q) == SlotOf(r) {
      if q.id == r.id { VmIdInjective(SlotOf(q), SlotOf(r)); }
      else if q.tap == r.tap { TapNameInjective(SlotOf(q), SlotOf(r)); }
      else if q.ip == r.ip { VmIpInjective(SlotOf(q), SlotOf(r)); }
    }
  }

  // An allocation that gets the write lock ends without a database error's help: the lock holder
  // always has a next step, each one brings it closer to the end, the INSERT is never refused by
  // a UNIQUE column, and the answer is "no slots" exactly when 1000 rows are live.
  lemma LockHolderProgresses(s: Db, p: nat) returns (s': Db)
    requires Inv(s) && s.lock == Some(p)
    ensures p in s.procs && p in s'.procs && Transact(s, p, s') && Inv(s')
    ensures s'.procs[p].Finished? ||
            (s'.lock == Some(p) && s'.table == s.table && Distance(s'.procs[p]) < Distance(s.procs[p]))
    ensures s'.procs[p].Finished? ==>
              (s'.procs[p].outcome == NoFreeSlot <==> |s.table| == SLOT_LIMIT)
  {
    hide Consistent, Legal, Replay, TapUsed, Violates, RowFor, IsLowestFree;
    FullExactlyAtLimit(s.table);
    match s.procs[p] {
      case Scanning(call, since, k) =>
        s' := if k >= SLOT_LIMIT then Unlock(TakeEffect(s, p, call, since, NoFreeSlot, s.table), p)
              else if TapUsed(s.table, TapName(k)) then Move(s, p, Scanning(call, since, k + 1))
              else Move(s, p, Chosen(call, since, k));
      case Chosen(call, since, i) =>
        TapScanSuffices(s.table, i, call.vcpus, call.memMib, call.imageId, call.ports);
        s' := Move(s, p, Inserted(call, since, RowOf(call, i), s.table + [RowOf(call, i)]));
      case Inserted(call, since, row, view) =>
        s' := Unlock(TakeEffect(s, p, call, since, Allocated(row), view), p);
    }
    TransactKeepsInv(s, p, s');
  }

  function Distance(ph: Phase): int {
    match ph
    case Scanning(_, _, k) => SLOT_LIMIT + 3 - k
    case Chosen(_, _, _) => 2
    case Inserted(_, _, _, _) => 1
    case _ => 0
  }

  predicate InFirstSubnet(t: VmTable) {
    forall r :: r in t ==> 0 <= SlotOf(r) < FIRST_SUBNET_SLOTS
  }

  // If at most 252 VMs are ever live at once, every live row's address is in the gateway's /24.
  lemma {:induction false} SmallFleetStaysInFirstSubnet(run: seq<Db>, k: nat)
    requires IsRun(run) && k < |run|
    requires forall j :: 0 <= j <= k ==> |run[j].table| <= FIRST_SUBNET_SLOTS
    ensures forall r :: r in run[k].table ==>
              && 0 <= SlotOf(r) < FIRST_SUBNET_SLOTS
              && r.ip == DottedQuad(172, 16, 0, SlotOf(r) + 3) && r.ip != Gateway()
  {
    SmallFleetSlots(run, k);
    RunKeepsInv(run, k);
    forall r | r in run[k].table ensures r.ip == DottedQuad(172, 16, 0, SlotOf(r) + 3) && r.ip != Gateway() {
      VmIpUsable(SlotOf(r));
    }
  }

  lemma {:induction false} SmallFleetSlots(run: seq<Db>, k: nat)
    requires IsRun(run) && k < |run|
    requires forall j :: 0 <= j <= k ==> |run[j].table| <= FIRST_SUBNET_SLOTS
    ensures InFirstSubnet(run[k].table)
  {
    hide StepBy, Inv, Legal, Replay, Consistent;
    if k > 0 {
      SmallFleetSlots(run, k - 1);
      RunKeepsInv(run, k - 1);
      assert Step(run[k - 1], run[k]);
      var p: nat :| StepBy(run[k - 1], p, run[k]);
      StepStaysInFirstSubnet(run[k - 1], p, run[k]);
    }
  }

  lemma StepStaysInFirstSubnet(s: Db, p: nat, s': Db)
    requires Inv(s) && StepBy(s, p, s')
    requires InFirstSubnet(s.table) && |s'.table| <= FIRST_SUBNET_SLOTS
    ensures InFirstSubnet(s'.table)
  {
    hide InFirstSubnet, Consistent, Legal, Replay, Effect, TapUsed, LowestFree, RowFor;
    if p in s.procs {
      TableAfterStep(s, p, s');
      if s'.table != s.table {
        NewRowsInFirstSubnet(s.table, s.procs[p].call);
      }
    }
  }

  // The committed table only ever changes by one call's whole effect.
  lemma TableAfterStep(s: Db, p: nat, s': Db)
    requires Inv(s) && StepBy(s, p, s') && p in s.procs
    ensures s'.table == s.table || s'.table == Effect(s.table, s.procs[p].call)
  {
    hide Consistent, Legal, Replay, TapUsed, LowestFree, RowFor, Violates;
  }

  lemma NewRowsInFirstSubnet(t: VmTable, call: Call)
    requires Consistent(t) && InFirstSubnet(t) && |Effect(t, call)| <= FIRST_SUBNET_SLOTS
    ensures InFirstSubnet(Effect(t, call))
  {
    match call
    case Allocate(_, _, _, _) =>
      if LowestFree(t).Some? {
        AllocationStaysInFirstSubnet(t);
      }
    case Update(id, ports) =>
      forall r | r in UpdatePorts(t, id, ports) ensures 0 <= SlotOf(r) < FIRST_SUBNET_SLOTS {
        var k :| 0 <= k < |t| && UpdatePorts(t, id, ports)[k] == r;
        assert t[k] in t;
      }
    case _ =>
  }
}
