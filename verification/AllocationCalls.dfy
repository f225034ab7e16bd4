// AllocateAndInsert in its own shape (state/state.go:123-200), one labctl process among any number:
// straight-line statements and the scan loop, between any two of which the others do anything they
// can. Each statement is a step of LedgerProcesses, so what holds of every run there holds at every
// point of this. Store.State has the same function as the only process.
module AllocationCalls {
  import opened Wrappers
  import opened Names
  import opened Ledger
  import opened Store
  import opened LedgerProcesses

  ghost predicate StepOfOthers(s: Db, p: nat, s': Db) {
    exists q: nat :: q != p && StepBy(s, q, s')
  }

  // What process p may rely on between two of its statements: its own place does not change,
  // nothing is recorded in its name, and while it holds the write lock the table stays as it is.
  predicate Later(s: Db, p: nat, s': Db) {
    && (p in s.procs <==> p in s'.procs) && (p in s.procs ==> s'.procs[p] == s.procs[p])
    && s.log <= s'.log && (forall k :: |s.log| <= k < |s'.log| ==> s'.log[k].pid != p)
    && (s.lock == Some(p) ==> s'.lock == Some(p) && s'.table == s.table)
  }

  lemma RelyHolds(s: Db, p: nat, s': Db)
    requires Inv(s) && StepOfOthers(s, p, s')
    ensures Inv(s') && Later(s, p, s')
  {
    hide Inv, StepBy, Later;
    var q: nat :| q != p && StepBy(s, q, s');
    StepKeepsInv(s, q, s');
    OtherStepIsLater(s, p, q, s');
  }

  lemma OtherStepIsLater(s: Db, p: nat, q: nat, s': Db)
    requires q != p && StepBy(s, q, s') && Inv(s)
    ensures Later(s, p, s')
  {
    hide Consistent, Legal, Replay, Answer, Effect, TapUsed, LowestFree, RowFor, Violates, Transact, Autocommit;
    if Transact(s, q, s') {
      TransactionIsLater(s, p, q, s');
    } else if Autocommit(s, q, s') {
      StatementIsLater(s, p, q, s');
    }
  }

  lemma TransactionIsLater(s: Db, p: nat, q: nat, s': Db)
    requires q != p && Transact(s, q, s') && Inv(s)
    ensures Later(s, p, s')
  {
    hide Consistent, Legal, Replay, Answer, Effect, TapUsed, LowestFree, RowFor, Violates;
  }

  lemma StatementIsLater(s: Db, p: nat, q: nat, s': Db)
    requires q != p && Autocommit(s, q, s')
    ensures Later(s, p, s')
  {
    hide DeleteRow, UpdatePorts, FindVm;
  }

  lemma LaterStill(s: Db, p: nat, s': Db, s'': Db)
    requires Later(s, p, s') && Later(s', p, s'')
    ensures Later(s, p, s'')
  {
  }

  ghost predicate PathOfOthers(path: seq<Db>, p: nat) {
    path != [] && forall k :: 0 <= k < |path| - 1 ==> StepOfOthers(path[k], p, path[k + 1])
  }

  lemma {:induction false} RelyHoldsAlong(path: seq<Db>, p: nat, k: nat)
    requires PathOfOthers(path, p) && k < |path| && Inv(path[0])
    ensures Inv(path[k]) && Later(path[0], p, path[k])
  {
    hide Inv, StepOfOthers;
    if k > 0 {
      RelyHoldsAlong(path, p, k - 1);
      assert StepOfOthers(path[k - 1], p, path[k - 1 + 1]);
      RelyHolds(path[k - 1], p, path[k]);
      LaterStill(path[0], p, path[k - 1], path[k]);
    }
  }

  lemma ExtendRun(run: seq<Db>, s: Db)
    requires IsRun(run) && Step(run[|run| - 1], s)
    ensures IsRun(run + [s])
  {
    hide Step;
  }

  class Database {
    var db: Db
    // Every state since the database was empty, the current one last.
    ghost var history: seq<Db>

    ghost predicate Valid()
      reads this
    {
      IsRun(history) && history[|history| - 1] == db && Inv(db)
    }

    constructor ()
      ensures Valid() && db == INIT
    {
      db := INIT;
      history := [INIT];
      RunKeepsInv([INIT], 0);
    }

    // Process p is at this point of its call.
    ghost predicate At(p: nat, ph: Phase)
      reads this
    {
      Valid() && p in db.procs && db.procs[p] == ph
    }

    // Anything the others do meanwhile; RelyHoldsAlong is why this much can be said about it.
    method Others(p: nat)
      requires Valid()
      modifies this
      ensures Valid() && old(history) <= history && Later(old(db), p, db)
    {
    }

    // One statement of process p, and what the others do before its next.
    method Take(p: nat, s': Db)
      requires Valid() && StepBy(db, p, s')
      modifies this
      ensures Valid() && old(history) < history && Later(s', p, db)
    {
      hide Inv, StepBy, Later;
      StepKeepsInv(db, p, s');
      ExtendRun(history, s');
      db := s';
      history := history + [s'];
      Others(p);
    }

    // The statement is refused: the deferred ROLLBACK drops the transaction, and the call returns
    // the error.
    method RollBack(p: nat)
      requires Valid() && p in db.procs && (db.procs[p].Waiting? || Holds(db.procs[p]))
      modifies this
      ensures Valid() && p !in db.procs && old(history) <= history
      ensures old(db.log) <= db.log && forall k :: |old(db.log)| <= k < |db.log| ==> db.log[k].pid != p
    {
      hide Inv;
      Take(p, Unlock(Move(db, p, Failed(db.procs[p].call)), p));
      Take(p, db.(procs := db.procs - {p}));
    }

    // BEGIN IMMEDIATE: takes the write lock if no other process has it.
    method Begin(p: nat, call: Call, since: nat) returns (ok: bool)
      requires At(p, Waiting(call, since)) && call.Allocate?
      modifies this
      ensures old(history) <= history && Unrecorded(p, old(db.log))
      ensures At(p, if ok then Scanning(call, since, 0) else Waiting(call, since))
    {
      hide Inv;
      ok := *;
      ok := ok && db.lock == None;
      if ok {
        Take(p, Move(db, p, Scanning(call, since, 0)).(lock := Some(p)));
      }
    }

    // Nothing of process p has been recorded since then.
    ghost predicate Unrecorded(p: nat, was: seq<Entry>)
      reads this
    {
      was <= db.log && forall k :: |was| <= k < |db.log| ==> db.log[k].pid != p
    }

    // SELECT 1 FROM vms WHERE tap = ?, for k = 0, 1, ... until no row is found.
    method Scan(p: nat, call: Call, since: nat) returns (ok: bool, found: Option<nat>)
      requires At(p, Scanning(call, since, 0)) && call.Allocate?
      modifies this
      ensures Valid() && old(history) <= history && Unrecorded(p, old(db.log)) && p in db.procs
      ensures !ok ==> db.procs[p].Scanning?
      ensures ok ==> db.procs[p] == match found case None => Scanning(call, since, SLOT_LIMIT) case Some(i) => Chosen(call, since, i)
    {
      hide Inv, TapUsed, TapName;
      var k := 0;
      while k < SLOT_LIMIT
        invariant k <= SLOT_LIMIT && At(p, Scanning(call, since, k))
        invariant old(history) <= history && Unrecorded(p, old(db.log))
      {
        ok := *;
        if !ok {
          return false, None;
        }
        if !TapUsed(db.table, TapName(k)) {
          Take(p, Move(db, p, Chosen(call, since, k)));
          return true, Some(k);
        }
        Take(p, Move(db, p, Scanning(call, since, k + 1)));
        k := k + 1;
      }
      return true, None;
    }

    // The call is answered: its one entry is in the log, after everything that was there when it
    // was made, and it answers what the sequential allocator answers at that point.
    ghost predicate Answered(p: nat, call: Call, was: seq<Entry>, outcome: Outcome)
      reads this
    {
      && was <= db.log
      && exists at :: |was| <= at < |db.log| && RecordedAt(db.log, at, p, call, outcome)
    }

    method AllocateAndInsert(p: nat, vcpus: int, memMib: int, imageId: Option<string>, ports: string)
      returns (r: Result<VmRow, Error>)
      requires Valid() && p !in db.procs
      modifies this
      ensures Valid() && old(history) < history && p !in db.procs
      ensures var call := Allocate(vcpus, memMib, imageId, ports);
              match r
              case Ok(row) => Answered(p, call, old(db.log), Allocated(row))
              case Err(NoSlots) => Answered(p, call, old(db.log), NoFreeSlot)
              case Err(DbError) => Unrecorded(p, old(db.log))
              case Err(_) => false
    {
      hide Inv, Transact, Autocommit, RecordedAt;
      var call := Allocate(vcpus, memMib, imageId, ports);
      var since := |db.log|;
      Take(p, Move(db, p, Waiting(call, since)));
      r := Transaction(p, call, since);
    }

    method Transaction(p: nat, call: Call, since: nat) returns (r: Result<VmRow, Error>)
      requires At(p, Waiting(call, since)) && call.Allocate?
      modifies this
      ensures Valid() && old(history) <= history && p !in db.procs
      ensures match r
              case Ok(row) => Answered(p, call, old(db.log), Allocated(row))
              case Err(NoSlots) => Answered(p, call, old(db.log), NoFreeSlot)
              case Err(DbError) => Unrecorded(p, old(db.log))
              case Err(_) => false
    {
      hide Inv, StepBy, Later, RecordedAt, Legal, Replay, Consistent;
      var ok := Begin(p, call, since);
      if !ok {
        RollBack(p);
        return Err(DbError);
      }
      var found;
      ok, found := Scan(p, call, since);
      if !ok {
        RollBack(p);
        return Err(DbError);
      }
      if found.None? {
        Finish(p, call, since, NoFreeSlot, db.table);
        return Err(NoSlots);
      }
      ok := InsertAndCommit(p, call, since, found.value);
      return if ok then Ok(RowOf(call, found.value)) else Err(DbError);
    }

    method InsertAndCommit(p: nat, call: Call, since: nat, i: nat) returns (ok: bool)
      requires At(p, Chosen(call, since, i)) && call.Allocate?
      modifies this
      ensures Valid() && old(history) <= history && p !in db.procs
      ensures if ok then Answered(p, call, old(db.log), Allocated(RowOf(call, i))) else Unrecorded(p, old(db.log))
    {
      hide Inv, StepBy, Later, RecordedAt, Legal, Replay, Consistent;
      ok := Insert(p, call, since, i);
      if ok {
        ok := *;
      }
      if ok {
        Finish(p, call, since, Allocated(RowOf(call, i)), db.procs[p].view);
      } else {
        RollBack(p);
      }
    }

    // INSERT: the row's columns cannot clash, since the scan was made under the same lock.
    method Insert(p: nat, call: Call, since: nat, i: nat) returns (ok: bool)
      requires At(p, Chosen(call, since, i)) && call.Allocate?
      modifies this
      ensures Valid() && old(history) <= history && Unrecorded(p, old(db.log)) && p in db.procs
      ensures if ok then db.procs[p].Inserted? && db.procs[p] == Inserted(call, since, RowOf(call, i), db.procs[p].view)
              else db.procs[p] == Chosen(call, since, i)
    {
      hide Legal, Replay, Consistent, TapUsed, Violates, RowFor;
      ok := *;
      if ok {
        assert PhaseOk(db, p, db.procs[p]);
        NoClash(db, call, i);
        Take(p, Move(db, p, Inserted(call, since, RowOf(call, i), db.table + [RowOf(call, i)])));
      }
    }

    // COMMIT, or the end of a scan that found nothing; and the return.
    method Finish(p: nat, call: Call, since: nat, outcome: Outcome, table: VmTable)
      requires Valid() && p in db.procs && call.Allocate?
      requires if outcome.Allocated? then db.procs[p] == Inserted(call, since, outcome.row, table)
               else outcome == NoFreeSlot && db.procs[p] == Scanning(call, since, SLOT_LIMIT) && table == db.table
      modifies this
      ensures Valid() && p !in db.procs && old(history) <= history
      ensures Answered(p, call, old(db.log), outcome)
    {
      hide Consistent, TapUsed, RowFor, Violates, Answer, Replay, Legal;
      var at := |db.log|;
      Take(p, Unlock(TakeEffect(db, p, call, since, outcome, table), p));
      Take(p, db.(procs := db.procs - {p}));
      AnswerAt(db.log, at);
      assert RecordedAt(db.log, at, p, call, outcome);
    }
  }

  ghost predicate RecordedAt(log: seq<Entry>, at: nat, p: nat, call: Call, outcome: Outcome)
    requires at < |log|
  {
    log[at] == Entry(p, call, outcome) && outcome == Answer(Replay(log[..at]), call)
  }

  lemma NoClash(s: Db, call: Call, i: nat)
    requires Inv(s) && call.Allocate? && LowestFree(s.table) == Some(i)
    ensures !Violates(s.table, RowOf(call, i))
  {
    hide Legal, Replay;
    TapScanSuffices(s.table, i, call.vcpus, call.memMib, call.imageId, call.ports);
  }
}
