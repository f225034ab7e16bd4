# labctl: a verified model

labctl runs Firecracker microVMs on one host. A SQLite ledger hands out slots; drivers turn a slot
into a directory, a tap device, a systemd unit and socat forwarders; a guest agent runs as PID 1
inside each VM and is spoken to over vsock. This project models those parts in Dafny 4.11 and
proves what they are relied on for. `dafny verify dfyconfig.toml` checks all of it.

There are two kinds of model. Code that changes things step by step is a class whose methods are
proved against a specification. What happens when many such pieces run at once, fail half-way or
are killed is a step system, with its results proved for every reachable state of every run. The
classes `AllocationCalls.Database`, `Runner.Host` and `ProxyCalls.Agent` join the two: their methods
are the source's functions, each operation is a step of the system, and between any two operations
everything else in the system may move.

## Files

- `Decimal`, `Names`: `%d` and `%02x` printing, the names derived from a slot index, and why they
  are all injective.
- `PortsJson`, `PortsGrammar`: the `ports` column as `json.Marshal` writes it and `json.Unmarshal`
  reads it (RFC 8259, sections 2, 5 and 6), and the texts that are read, by their grammar.
- `Ledger`, `Store`: the `vms` and `snapshots` tables, the lowest free index, and the methods of
  `state/state.go` as a class over the rows.
- `LedgerProcesses`: any number of labctl processes on one database file. `AllocationCalls`: one
  allocation among them. `LedgerHistories`: what becomes of commands that are several statements.
- `Lifecycle`: run, restore, destroy, snapshot and the ports commands as a step system over slots
  and snapshot directories. `BringUp` is vm/vm.go:133-161 and 585-628 with their chroot setups
  (226-259, 634-657); `TearDown` is vm/vm.go:508-528; `TakeSnapshot` is vm/vm.go:537-565 and
  cmd/snapshot.go:38-56; `PartOf` says what a failed operation may leave behind. `SnapshotPaths`:
  which directory a snapshot name is.
- `LifecycleSafety`, `SnapshotSafety`, `StoredPorts`: its invariants. `SnapshotLimits`: what a
  snapshot does not protect, exactly. `SnapshotNames`: how long a registered snapshot stays whole,
  and the names for which it always does. `Counterexamples`: runs that break what one would expect.
- `NamedHost`: the same host by the names of taps, units and directories. `Runner`: the drivers.
- `ProxyRegistry`, `ProxyCalls`: the guest's proxy registry under concurrent calls, and its two
  functions. `Dispatch`: one control request in the guest.
- `PortList`, `PortsCommand`: `labctl ports`, and the agreement of ledger, host and guest.
- `Streams`, `Framing`, `Handshake`, `Detach`: byte streams that arrive in arbitrary pieces.
- `Signals`, `Reaper`, `Poller`: the PID 1 event loop.

## Where the code differs from what it is said to do

The model follows the code. Where an expectation fails on some inputs or histories only, a lemma
says on which; the failing cases are lemmas too.

- The first /24 holds 252 VMs (state/state.go:403), not 253 (README.md:310): slot 252 is
  172.16.1.1. `Ledger.FirstSubnetHolds252`, `Names.VmIpUsable`.
- A failed `restore` removes its ledger row without releasing what it had set up
  (cmd/restore.go:55-58). Resources still all belong to live rows afterwards exactly when it failed
  at creating its directory and left none. `LifecycleSafety.RestoreFailureLeaks`, and a run where it
  leaks: `Counterexamples.FailedRestoreLeaks`. A leftover tap then stops the next VM given that slot.
  `LeakMeetsTheNextVm`, `BlockedStaysBlocked`.
- A stop reports success when `systemctl stop` and then `systemctl show` fail (vm/vm.go:355-370,
  432-440), and what was to be stopped may still be there. A run that failed waiting for its API
  socket, destroyed with both calls failing, leaves a unit that no row accounts for.
  `Counterexamples.VainStopLeaksAUnit`. That is the only way a command gets past its stop with the
  unit still there, `LifecycleSafety.UnitLeftByVainStop`, and then a destroy that succeeds leaves
  the unit and nothing else, `TearDownLeavesNothing`. Over whole runs, every resource always belongs
  to a live row if and only if every failed restore gave up cleanly and no destroy removed the row
  of a VM whose unit was there: `LedgerAccountsExactly`. Everything that does not speak of leftovers
  is proved for hosts that have them too. A removed port whose forwarder is left comes out nowhere,
  but cannot be added again: `PortsCommand.RemoveAgreesExactly`.
- A snapshot's directory is `filepath.Join(DataDir, "snapshots", name)`, which is cleaned, while
  names are compared as texts (cmd/snapshot.go:38-53): "a", "a/", "./a" and "x/../a" are four names
  and one directory. `SnapshotPaths.NamesOfOneDirectory`. Two VMs saved one after the other as "a"
  and "a/", with nothing failing, leave both names registered, and a restore of "a" resumes the
  second VM. `Counterexamples.OneDirectoryLosesAVm`, `SlashedNameLosesAVm`. A registered snapshot
  stays whole if and only if no snapshot command whose name has the same directory copies other
  bytes into it, `SnapshotNames.RegisteredStaysWholeExactly`, and names that are single path elements
  never share a directory, `SnapshotPaths.PlainNamesApart`.
- The check that a snapshot name is free and its registration are not one transaction
  (cmd/snapshot.go:38-53). Two VMs saved under one name at once can leave no copy of the first.
  `Counterexamples.SharedNameLosesAVm`. The last copy goes exactly when another command with the same
  directory copies other bytes over it after the VM's directory is gone, or when the VM's own
  command removes that directory after its copies were spoilt. `SnapshotLimits.LastCopyLostExactly`,
  `CopiesSpoiltExactly`. `SnapshotSafety.RunKeepsOk` and the results drawn from it, in
  `SnapshotSafety` and `Runner`, assume that directories are used by one command at a time (see
  below); for names that are single path elements it is enough that no name is used by two commands
  while one is saving under it, `SnapshotNames.PlainNamesAreSafe`. `UnspoiltCopiesStand` does without.
- A snapshot that fails after its pause leaves its VM suspended or gone, and no command resumes it:
  the guest still runs afterwards exactly when the command was at its pause and that had no effect.
  `SnapshotLimits.FailedSnapshotSuspends`, `PausedVmNeverRunsAgain`, and a run that ends so:
  `Counterexamples.FailedSnapshotLeavesItPaused`.
- A port added to a stopped VM is said to start with its next restore (README.md:266,
  cmd/ports.go:62). A stopped VM cannot be paused, so it cannot be snapshotted, so it has no
  restore. `SnapshotLimits.StoppedForGood`.
- `ports add` and `ports rm` read the list and write it back in two statements. An edit takes
  effect exactly when it overwrites the list it has read; for a removal, one that has the port and
  the same other ports in the same order. Among adds alone, that is exactly when no write falls
  between its read and its write. `LedgerHistories.EditTakesEffectExactly`,
  `AllTakeEffectExactly`, `AddsTakeEffectExactly`. In general writes in between may cancel out:
  `WritesBetweenMayCancelOut`.
- A destroy deletes by id what it had read earlier (cmd/destroy.go:23-35). It removes the row of
  another VM exactly when its own was deleted meanwhile and the slot given to a new VM that is still
  there. `LedgerHistories.StaleDestroyExactly`.
- A port travels as `uint32(port)` (vm/status.go:88): 4294967376 is accepted, and reaches the guest
  as 80. Port 0 is accepted too, although the guest's message says 1 to 65535
  (guest-agent/src/transport/dispatch.rs:61), and the guest then listens on a port of the kernel's
  choice. A successful add keeps host and guest in agreement exactly for 1 to 65535, and only those
  ports come out. `PortsCommand.AddAgreesExactly`, `PortZeroGoesNowhere`, `WrappedPortDisagrees`.
- ctrl+] fires the detach before the bytes of the same read have been written
  (vm/vm.go:723-732); if the session closes first, those bytes are lost, and no others.
  `Detach.CopyInput`.

## Assumptions

- SQLite has one writer at a time, and a transaction that does not commit leaves no trace.
- One labctl command at a time acts on a given VM id. Commands on different VMs, and allocations,
  interleave freely.
- While a VM is being saved into a snapshot directory, no other command saves into it or restores
  from it, and until it is registered no other registered snapshot is kept there.
- All commands are given one data directory, an absolute path without symbolic links, and one
  firecracker binary, so an id determines a VM's directory (vm/vm.go:115-117).
- A tap that a guest has open cannot be deleted; the kernel answers that it is busy.
- An epoll delete of a descriptor that is registered succeeds, and closing a descriptor ends its
  registration, as it does where no duplicate of it is open.
- Stopping a unit stops every unit bound to it.
- The kernel gives a nonzero TCP port to one listening socket at a time.
- The guest's stop flag, a relaxed atomic, is seen by the listener's next look at it.
- SIGCHLD is one pending bit, and a signalfd stays readable while its signals are pending.

## Model

| member | source | states |
|---|---|---|
| Names.TapNameInjective | state/state.go:401 | different slots have different taps |
| Names.VmIdInjective | state/state.go:402 | different slots have different ids |
| Names.VmIpInjective | state/state.go:403 | different slots have different addresses, through both divisions and the printing |
| Names.DottedQuadInjective | state/state.go:403 | dotted-quad text determines its four numbers, whatever their widths |
| Names.VmIpUsable | state/state.go:403 | no slot gets the gateway's address or a last octet of 0 or 255; exactly slots 0 to 251 are in the gateway's /24, on .3 to .254 |
| Names.UnitNameInjective | state/state.go:30 | different ids have different units |
| Names.GuestMacInjective | vm/vm.go:757 | the two printed CID bytes of the MAC determine the CID |
| Names.HostUnitNameInjective | vm/vm.go:396-398 | forwarder units are injective in (VM, port), and none is named like any VM's unit |
| Names.NamesInFull | state/state.go:401-403 | the tap, id, units and address of slot i, as they are printed |
| Names.MacsInFull | vm/vm.go:757 | bytes of the MAC are padded to two digits, in lower case |
| Decimal.ItoaDigits | state/state.go:401 | the digits printed are those of the number in base ten, the last one first, and no more |
| PortsJson.PortsRoundTrip | state/state.go:182 | every list of Go ints is read back from its JSON text as it was written, in order |
| PortsJson.MarshalInjective | state/state.go:256 | different lists are stored as different texts |
| PortsJson.MarshalText | state/state.go:182 | the text in full: the numbers in order, commas between them, brackets around them |
| PortsGrammar.UnmarshalExactly | state/state.go:215 | for every text and every list: the text is read as the list if and only if it spells it, with white space between tokens only, no leading zeros, a comma between any two numbers and nothing after the bracket |
| Ledger.TapScanSuffices | state/state.go:147-190 | on a consistent table the INSERT for slot i breaks a UNIQUE column, any of the four, exactly when the scanned tap is taken |
| Ledger.LowestFree | state/state.go:146-158 | the index found is free and all below it are taken; none is found only if all 1000 are taken |
| Ledger.LowestFreeUnique | state/state.go:146-158 | there is only one such index, so the scan order does not matter |
| Ledger.LowestFreeBound | state/state.go:146-158 | with n live rows the index is at most n |
| Ledger.FullExactlyAtLimit | state/state.go:159-161 | at most 1000 rows are live, and the scan finds nothing exactly when 1000 are |
| Ledger.InsertConsistent | state/state.go:187-190 | inserting at a free slot violates nothing, keeps every row derived from a distinct slot, and takes just that slot |
| Ledger.DeleteConsistent | state/state.go:245-248 | removing a VM frees its slot and no other |
| Ledger.UpdateConsistent | state/state.go:252-262 | writing ports moves no slot, for any id |
| Ledger.AllocationStaysInFirstSubnet | state/state.go:146-161 | with fewer than 252 VMs live, the next one gets 172.16.0.(i+3), at most .254 |
| Ledger.FirstSubnetHolds252 | state/state.go:403 | slot 251 is 172.16.0.254 and slot 252 is 172.16.1.1 |
| Store.State.AllocateAndInsert | state/state.go:123-200 | succeeds exactly when a slot is free and no statement is refused up to the deciding one, then with the lowest free slot's row appended; what is then found under the new id reads back as the VM answered, with the vCPUs, memory, ports and image asked for; "no slots" exactly when 1000 rows are live; any other way out leaves the table as it was |
| Store.State.Get | state/state.go:203-219 | the row with this id, column by column, with its ports parsed, nothing if there is none, or an error |
| Store.State.List | state/state.go:222-242 | every row, in order, with its ports parsed |
| Store.State.Remove | state/state.go:245-248 | afterwards nothing is found under the id, and under every other id what was there; the table stays consistent |
| Store.State.SetPorts | state/state.go:252-262 | what is found under the id has just these ports, nil as the empty list, and is otherwise as it was; so is what is found under every other id |
| Store.State.InsertSnapshot | state/state.go:332-349 | appends the snapshot exactly when neither its id nor its name is taken |
| Store.State.GetSnapshotByName | state/state.go:352-370 | the snapshot with this name with its ports parsed, or nothing, or an error |
| Store.RecordSnapshot | cmd/snapshot.go:30-56 | when the VM exists and the name is free: the VM's configuration and the directory are under that name, after the snapshots there were, and the VM's row is gone; otherwise nothing changes |
| Store.AllocateFromSnapshot | cmd/restore.go:32-43 | a new VM in the lowest free slot with the saved vCPUs, memory and ports and no image, which reads back so, exactly when the name is known and a slot is free |
| Store.SnapshotThenRestoreKeepsConfig | cmd/restore.go:32-43 | vCPUs, memory and the exact port list survive snapshot and restore, through every print and parse, and are what is found under the new id; only the identity is new |
| LedgerProcesses.StepKeepsInv | state/state.go:123-200 | any step of any process keeps the invariant: a refused or killed transaction changes nothing |
| LedgerProcesses.RunKeepsInv | state/state.go:123-200 | every state of every run satisfies it |
| LedgerProcesses.AllocationLinearizable | state/state.go:123-200 | the committed table is the result of a sequential history in which every allocation takes the lowest slot free at that point, and every answered call is in it with its answer, after its invocation |
| LedgerProcesses.HistoryRespectsRealTime | state/state.go:123-200 | a call answered before another is made precedes it in that history |
| LedgerProcesses.LiveRowsDistinct | state/state.go:54-68 | in every reachable state rows sharing an id, tap, address or CID are of one slot, and at most 1000 are live |
| LedgerProcesses.LockHolderProgresses | state/state.go:133-200 | a transaction holding the lock always has a next step that brings it closer to COMMIT, is never refused by a UNIQUE column, and answers "no slots" exactly when 1000 rows are live |
| LedgerProcesses.TableAfterStep | state/state.go:123-200 | the committed table only ever changes by one call's whole effect |
| LedgerProcesses.SmallFleetStaysInFirstSubnet | vm/vm.go:737 | if never more than 252 VMs are live, every live address is in 172.16.0.0/24 and not the gateway's |
| AllocationCalls.RelyHoldsAlong | state/state.go:118-140 | while a process holds the lock, whatever the others do leaves its place and the table alone |
| AllocationCalls.Database.Begin | state/state.go:133-135 | the lock is taken, or the call is where it was |
| AllocationCalls.Database.Scan | state/state.go:143-161 | the scan loop, with others moving between any two probes, ends at the chosen index, at the end, or with an error; nothing is recorded |
| AllocationCalls.Database.Insert | state/state.go:187-193 | the INSERT is never refused for a clash |
| AllocationCalls.Database.AllocateAndInsert | state/state.go:123-200 | its answer is what the sequential allocator answers at one point of the history during the call; a call that fails leaves nothing in it |
| LedgerHistories.OwnerHasTheRow | state/state.go:187-248 | a live row is the one the last allocation of its slot brought, except for its ports |
| LedgerHistories.ReadSeesAllocation | state/state.go:163-219 | in every history a read of an id allocated before, with nothing written to it since, is shown the lowest slot then free and every argument of that allocation |
| LedgerHistories.ReadSeesUpdate | state/state.go:203-262 | a read after a ports update, with nothing written to the id since, is shown the row as it was, with those ports |
| LedgerHistories.StaleDestroyExactly | cmd/destroy.go:23-35 | whatever comes between, a destroy removes the row it had read if and only if nobody deleted that in between, another VM's if and only if the slot was then given away and the new VM is still there, and otherwise none |
| LedgerHistories.SecondDestroyTakesTheNewVm | cmd/destroy.go:23-35 | the tightest schedule of such a loss is possible exactly when all lower slots are live |
| LedgerHistories.EditTakesEffectExactly | cmd/ports.go:42-58 | for any history and any entries between the read and the write of an add or a removal, it takes effect if and only if the row is there with the list it read, or for a removal one with the port and the same other ports in the same order |
| LedgerHistories.AllTakeEffectExactly | cmd/ports.go:42-118 | of any number of edits, all take effect if and only if each finds the list as it read it |
| LedgerHistories.EffectsAddUp | cmd/ports.go:42-118 | then the list goes through what the edits make of it one after the other |
| LedgerHistories.UndisturbedTakesEffect | cmd/ports.go:42-118 | an edit between whose read and write no other edit writes takes effect |
| LedgerHistories.AddsTakeEffectExactly | cmd/ports.go:42-58 | all of any number of adds take effect if and only if no write falls between the read and the write of any of them |
| LedgerHistories.ConcurrentAddsLoseOne | cmd/ports.go:42-58 | two adds that both read first are a legal history that loses a port |
| LedgerHistories.SerialAddsKeepBoth | cmd/ports.go:42-58 | one after the other, both are kept |
| LedgerHistories.WritesBetweenMayCancelOut | cmd/ports.go:42-118 | an edit can take effect although others have written in between |
| PortList.CompactWithout | cmd/ports.go:103-111 | compacting the slice into its own array while iterating gives the list in order without the port, and leaves the array's tail alone |
| PortList.WithoutHas | cmd/ports.go:103-111 | exactly the other ports remain |
| PortList.WithoutKeepsDistinct | cmd/ports.go:103-118 | a list without duplicates loses exactly that one entry |
| PortList.WithoutUndoesAppend | cmd/ports.go:55-111 | removing what was just added gives the list back |
| PortList.SameOthersExactly | cmd/ports.go:103-111 | removing a port from two lists gives the same list exactly when they have the same other ports in the same order |
| LifecycleSafety.RunKeepsSound | vm/vm.go:133-161 | in every run, whatever failed restores and vain stops have left behind: a guest has its tap, directory and disk, a forwarder its unit, a command its VM's row, and each command finds at each stage what its own operations have brought about |
| LifecycleSafety.RunBootsTheImage | vm/vm.go:133-161 | in every run a guest that is booted has its VM's row and tap, and its disk is the image its command was given, whatever was left on the slot |
| LifecycleSafety.StepKeepsOwned | vm/vm.go:133-161 | any step of any command, failure, kill, dying unit or guest write keeps taps, units, forwarders and directories under live rows, a vain stop included, unless it is a failed restore's last or removes the row of a VM whose unit is there |
| LifecycleSafety.LedgerBeforeResources | cmd/run.go:47-59 | in every run of any number of commands, a slot with a tap, unit, forwarder or directory has a ledger row, as long as failed restores gave up cleanly and dropped rows had no unit |
| LifecycleSafety.LedgerAccountsExactly | cmd/restore.go:55-58 | over whole runs: every resource always belongs to a live row if and only if every failed restore gave up cleanly and every dropped row was that of a VM whose unit was gone |
| LifecycleSafety.UnitLeftByVainStop | vm/vm.go:355-370 | a unit that is there while its VM's destroy or snapshot is past the stop was there all along: the stop reported success in vain |
| Counterexamples.FailedRestoreLeaks | cmd/restore.go:55-58 | a run from the empty host in which a restore's unit does not start, after which a tap and a directory belong to no row |
| Counterexamples.VainStopLeaksAUnit | vm/vm.go:355-370 | a run from the empty host in which a destroy's stop is in vain, after which a unit belongs to no row |
| LifecycleSafety.FreshSlotIsClean | cmd/run.go:47-55 | under the same condition, a VM never starts on a slot with a leftover of any kind |
| LifecycleSafety.TearDownLeavesNothing | cmd/destroy.go:32-35 | in every run the end of a destroy or snapshot leaves no row, tap or directory of the VM, nothing at all if and only if its unit is gone, which after a snapshot it is, and everything else as it was |
| NamedHost.NamedOpIsLocal | vm/vm.go:396-442 | an operation addressed by the names of one VM, such as stopping a unit with all that is bound to it, does to that VM's objects what is meant and to no other VM's anything |
| NamedHost.StepIsNamed | vm/vm.go:133-161 | every step of a command is at most the one named operation of its stage |
| NamedHost.EveryRunIsNamed | vm/vm.go:133-161 | every run of the slots is a run of the named host |
| NamedHost.NamedRunShows | vm/vm.go:133-161 | and at every point the slots are what is there under their names |
| NamedHost.RestingVmIsUntouched | vm/vm.go:470-528 | a VM that takes no step keeps its slot and everything under its names, whatever all others do |
| NamedHost.TearDownFrame | vm/vm.go:508-528 | a successful destroy or snapshot leaves no tap and no directory under its VM's names and nothing at all if and only if the unit is gone; over the whole command everything under the names of every VM that rests is untouched |
| LifecycleSafety.RestoreFailureLeaks | cmd/restore.go:55-58 | after a failed restore the ledger accounts for everything if and only if it failed at its first operation and left no directory |
| LifecycleSafety.LeakMeetsTheNextVm | cmd/restore.go:55-58 | a run given the slot of a restore that failed at its unit finds the tap in its way |
| LifecycleSafety.BlockedStaysBlocked | vm/vm.go:282-288 | no success of its operations gets such a VM past creating its tap |
| LifecycleSafety.SlotsAllocateAsTable | state/state.go:146-158 | slots and table rows that agree on what is taken agree on what is allocated next |
| SnapshotSafety.RunKeepsOk | vm/vm.go:537-628 | as long as directories are used by one command at a time, at every stage of every snapshot and restore the files copied so far hold the cut |
| SnapshotSafety.RegisteredSnapshotsAreWhole | cmd/snapshot.go:50-55 | as long as directories are used by one command at a time, every registered name's directory holds all three files of the one instant it stands for |
| SnapshotSafety.SnapshotNeverLosesTheVm | vm/vm.go:537-578 | as long as directories are used by one command at a time, at every point of every run from the moment the snapshot is created until its name is registered, a whole copy is in the VM directory or the snapshot directory, and still after any next step, failure or kill |
| SnapshotSafety.RestoreResumesTheCut | vm/vm.go:603-616 | as long as directories are used by one command at a time, a restored guest has exactly the saved device state, memory and disk |
| SnapshotSafety.CutsWereReal | vm/vm.go:540-552 | every saved memory and disk belonged together, to one VM that a step of the run paused, and were what it had before that step |
| SnapshotPaths.NamesOfOneDirectory | cmd/snapshot.go:46 | a, a/, ./a and x/../a are four names of one directory |
| SnapshotPaths.PlainNamesApart | cmd/snapshot.go:46 | a name that is a single path element is kept in the directory of that name, and no two such names share one |
| SnapshotPaths.NameOfAChroot | cmd/snapshot.go:46 | for any data directory and any VM there is a name whose directory is that VM's chroot |
| SnapshotPaths.ContainedDirsApart | cmd/snapshot.go:46 | names that stay below the snapshots directory, outside the files of others, have directories without a file in common, and none in a VM's chroot or around it |
| SnapshotNames.StaysWholeExactly | vm/vm.go:554-563 | a directory that holds a cut goes on holding it if and only if no snapshot command with that directory copies other bytes into it |
| SnapshotNames.RegisteredStaysWholeExactly | cmd/snapshot.go:38-55 | a registered snapshot that is whole stays whole, whatever is done, if and only if no snapshot command whose name has the same directory copies other bytes into it |
| SnapshotNames.RunKeepsNames | cmd/snapshot.go:46-53 | in every run every command and every registered snapshot has the directory its name stands for |
| SnapshotNames.PlainNamesAreSafe | cmd/snapshot.go:38-55 | if all names are single path elements and none is used by two commands while one saves under it, directories are used by one command at a time, and everything that rests on that holds |
| Counterexamples.OneDirectoryLosesAVm | cmd/snapshot.go:38-53 | for any two names of one directory: a run from the empty host, nothing failing and one command at a time, after which both names are registered and a restore of the first has resumed the second VM |
| Counterexamples.SlashedNameLosesAVm | cmd/snapshot.go:38-53 | the same for a name and that name with a slash |
| Counterexamples.SharedNameLosesAVm | cmd/snapshot.go:38-53 | two snapshots under one name at once: a run from the empty host in which nothing fails and after which no copy of the first VM is left |
| SnapshotLimits.FailedSnapshotSuspends | vm/vm.go:537-578 | after a snapshot that fails or is killed the guest runs if and only if the command was at its pause and that had not taken effect |
| SnapshotLimits.PausedVmNeverRunsAgain | vm/vm.go:540-552 | in every run a paused VM stays exactly as it is until its unit is gone |
| Counterexamples.FailedSnapshotLeavesItPaused | vm/vm.go:554-556 | a run from the empty host that ends with a snapshot failed and its VM suspended |
| SnapshotLimits.StoppedForGood | cmd/ports.go:61-64 | in every run a stopped VM never runs, forwards or gets past the pause of a snapshot until its row is gone |
| SnapshotLimits.RunKeepsDirs | vm/vm.go:537-578 | in every run, whoever uses its snapshot directory, a VM being saved keeps its own files as they were at the cut until its own command removes them |
| SnapshotLimits.LastCopyLostExactly | vm/vm.go:554-578 | a step loses the last whole copy if and only if another command with the same directory copies other bytes out after the VM's directory is gone, or the VM's own command removes its directory when the copies are no longer whole |
| SnapshotLimits.CopiesSpoiltExactly | vm/vm.go:557-562 | the copies made so far stop being right exactly when another command with the same directory copies other bytes over one of them |
| SnapshotLimits.UnspoiltCopiesStand | vm/vm.go:554-578 | a command whose copies nobody spoils brings a whole copy to the registration of its name |
| StoredPorts.StoredListsDistinct | cmd/ports.go:49-118 | in every run no port list of a row, of a command or of a snapshot has a port twice |
| Runner.RelyHolds | vm/vm.go:133-161 | what a command relies on between two of its operations survives any step of the others, failing restores and deleted registrations included; and none gives its VM a unit |
| Runner.RelyHoldsAlong | vm/vm.go:133-161 | and any number of them |
| Runner.Host.Allocate | state/state.go:146-158 | the first slot without a row, or nothing if there is none |
| Runner.Host.SetupChroot | vm/vm.go:226-259 | directory, then the files in order, stopping at the first that fails |
| Runner.Host.SetupTap | vm/vm.go:282-295 | succeeds only where there was no tap, and adds it |
| Runner.Host.SupervisorLaunch | vm/vm.go:312-353 | succeeds only where there is no unit of that name, and starts one |
| Runner.Host.BootOrLoad | vm/vm.go:603-616 | the guest is started on the row and tap of its VM, with the image as its disk, or at the cut |
| Runner.Host.LaunchPortForwards | vm/vm.go:460-467 | the ports in order, a forwarder started for each; on an error, exactly those from the failed one on are left to do |
| Runner.Host.StopPortForwards | vm/vm.go:470-477 | the ports in order; on an error, exactly those from the failed one on are left to do |
| Runner.Host.TeardownTap | vm/vm.go:297-305 | the tap is gone or the command is where it was |
| Runner.Host.BringUpVm | vm/vm.go:133-158 | the common course of run and restore, as a path of the step system: the guest is started on what the command was given, then each forwarder; where nothing fails and nothing is left over, it succeeds |
| Runner.Host.TearDownVm | vm/vm.go:514-527 | the common course of destroy and snapshot, as a path of the step system; at the end the unit is gone or its stop was in vain; where nothing fails it succeeds |
| Runner.Host.SaveFiles | vm/vm.go:546-563 | snapshot, directory, then the three files in order, stopping at the first that fails |
| Runner.Host.RegisterSnapshot | cmd/snapshot.go:53-55 | when the name is registered, by a step of this command, it is for this row and this cut, and its directory holds the whole of it |
| Runner.Host.Destroy | cmd/destroy.go:23-35 | success leaves nothing of the VM if and only if its unit is gone, and otherwise nothing but the unit, after a stop in vain by this command; failure, wherever, leaves the row as it was for another try; where nothing fails it succeeds and leaves nothing |
| Runner.Host.Snapshot | cmd/snapshot.go:30-56 | success leaves nothing of the VM, and this command registered the name for this row and for what the VM was when this command paused it, the directory holding the whole of it; failure leaves its row as it was; where nothing fails it succeeds for every VM that is up and every new name |
| Runner.Host.Restore | cmd/restore.go:32-60 | success leaves the saved row, on which this call resumed the guest exactly at the saved cut and then started each saved port's forwarder; a failure leaves the saved row only if its removal fails too, else a directory unless it failed at its first operation, and accounts for everything, if that was so before, exactly when it gave up cleanly; where nothing fails and nothing is left over, it succeeds |
| Runner.Host.RemoveFailedRestore | cmd/restore.go:55-58 | the row goes, or stays exactly if that fails too |
| Runner.Host.Run | cmd/run.go:48-59 | the VM gets the lowest free slot and the row asked for, which it keeps on failure; success means that this call started its guest, with tap, row and the image as its disk; where nothing fails and nothing is left over, it succeeds |
| Runner.Host.RunAll | cmd/run.go:47-60 | VMs are brought up until one fails, each in the lowest free slot of its moment and each started before the next is allocated; where nothing fails it stops early only for want of a clean slot |
| Runner.Host.AddPort | cmd/ports.go:49-72 | a port in the list, or a failed write, changes nothing; otherwise it is at the end of the list, and on success the forwarder of a VM that was up has been started |
| Runner.Host.RemovePort | cmd/ports.go:103-129 | a port not in the list, or a failed write, changes nothing; otherwise it is out of the list; where nothing fails just its forwarder is gone |
| Runner.Host.ReloadPorts | cmd/ports.go:200-203 | the row is left alone; where nothing fails it succeeds exactly when every port of the list has its forwarder |
| ProxyRegistry.RunKeepsInv | guest-agent/src/transport/tcp_vsock_proxy.rs:33-88 | the registry's invariant, over every interleaving of starts, stops, listeners and other programs |
| ProxyRegistry.ListenersAccountedFor | guest-agent/src/transport/tcp_vsock_proxy.rs:33-72 | live listeners are those in the map, those a stop has taken out and not joined, and the one a start is about to insert, each in one place; none share a port |
| ProxyRegistry.RegistryIsASet | guest-agent/src/transport/tcp_vsock_proxy.rs:33-72 | concurrent calls answer as a set of ports used one call at a time; per port, starts minus stops is 1 if it is in the map and 0 otherwise |
| ProxyRegistry.StartsMinusStops | guest-agent/src/transport/tcp_vsock_proxy.rs:33-72 | the same count, for every sequential history |
| ProxyRegistry.StopReturnsAfterExit | guest-agent/src/transport/tcp_vsock_proxy.rs:58-72 | when stop returns Ok the listener it removed has exited |
| ProxyRegistry.NoDeadlock | guest-agent/src/transport/tcp_vsock_proxy.rs:33-88 | while any call is pending, some call or some flagged listener can move, and that leaves less to do |
| ProxyRegistry.EveryMoveShortens | guest-agent/src/transport/tcp_vsock_proxy.rs:33-88 | and so does every other step of a call and every turn of a flagged listener |
| ProxyRegistry.FlaggedListenerExits | guest-agent/src/transport/tcp_vsock_proxy.rs:74-88 | a flagged listener exits within one more iteration |
| ProxyRegistry.BystandersDoNotDelay | guest-agent/src/transport/tcp_vsock_proxy.rs:74-88 | polling listeners and other programs never add to what is left to do |
| ProxyCalls.Agent.Start | guest-agent/src/transport/tcp_vsock_proxy.rs:33-56 | its answer is the sequential registry's, given during the call, whatever other threads do between its operations |
| ProxyCalls.Agent.Stop | guest-agent/src/transport/tcp_vsock_proxy.rs:58-71 | the same, and on Ok the listener it took out has exited |
| ProxyCalls.Agent.Bind | guest-agent/src/transport/tcp_vsock_proxy.rs:35-40 | only a port that is not in the map gets as far as a socket |
| ProxyCalls.Agent.SpawnAndInsert | guest-agent/src/transport/tcp_vsock_proxy.rs:47-55 | the listener's entry in the map is the answer Ok |
| ProxyCalls.Agent.Remove | guest-agent/src/transport/tcp_vsock_proxy.rs:59-64 | takes out exactly the listener the map has for the port, or answers that there is none |
| ProxyCalls.Agent.SignalAndJoin | guest-agent/src/transport/tcp_vsock_proxy.rs:66-69 | the flag is set, and the call goes on only once the listener has exited |
| ProxyCalls.RelyHoldsAlong | guest-agent/src/transport/tcp_vsock_proxy.rs:33-72 | no number of steps of others moves a thread's own call, takes back an answer, clears a flag or revives a listener |
| Dispatch.StartStopUndo | guest-agent/src/transport/dispatch.rs:12-62 | a request that is not acknowledged changes nothing; an acknowledged start or stop is undone by the other |
| Dispatch.HandleKeepsWellBound | guest-agent/src/transport/dispatch.rs:49-62 | every proxy listens on a real port, its own unless it was asked for 0, and no two on one |
| Dispatch.OtherRequests | guest-agent/src/transport/dispatch.rs:17-26 | a status answer has the four current statistics; a restore is acknowledged exactly when mounting and setting the clock succeed; no proxy is touched |
| Dispatch.ProxyRequests | guest-agent/src/transport/dispatch.rs:27-62 | which starts and stops are acknowledged, with what entry, and which error each other one gets |
| PortsCommand.GuestKeyExact | guest-agent/src/transport/dispatch.rs:60-62 | the guest keeps a port under its own number exactly for 0 to 65535 |
| PortsCommand.RoutesExactly | vm/status.go:72-99 | whatever numbers the ledger holds, exactly its ports from 1 to 65535 come out of the guest, at the same port of the host, and nothing else comes out anywhere |
| PortsCommand.AgreementRoutes | vm/status.go:72-99 | when the three places agree, a connection inside the guest comes out on the host, at the same port, exactly for the ports in the ledger |
| PortsCommand.AddAgreesExactly | cmd/ports.go:49-72 | a successful add keeps agreement exactly for ports 1 to 65535; in every case exactly the ledger's ports of that range come out |
| PortsCommand.PortZeroGoesNowhere | guest-agent/src/transport/tcp_vsock_proxy.rs:39 | port 0 is added with success, the guest listens on a port of the kernel's choice, and nothing comes out anywhere |
| PortsCommand.WrappedPortDisagrees | vm/status.go:88 | 4294967376 is added with success, and nothing comes out anywhere |
| PortsCommand.RemoveAgreesExactly | cmd/ports.go:103-129 | a successful removal keeps agreement if and only if the forwarder is gone; either way exactly the ports left in the ledger come out, and where it is left the port cannot be added again |
| PortsCommand.ReloadRepairs | cmd/ports.go:200-213 | a reload restores agreement exactly when the guest had no proxies the ledger does not know |
| PortsCommand.RestoreKeepsAgreement | vm/vm.go:618-625 | a snapshot and the restore from it bring back exactly what agreed, whatever becomes of the best-effort starts |
| PortsCommand.HistoriesAgree | cmd/ports.go:49-213 | through any history of successful adds, removals, reloads and snapshots with their restores the three places stay the same if and only if every added port is one of 1 to 65535 and no removal leaves its forwarder |
| PortsCommand.Vm.SendRequest | vm/status.go:123-135 | the guest handles exactly this request or none, and an answer is the guest's to it |
| PortsCommand.Vm.StartTcpVsockProxy | vm/status.go:77-99 | Ok means the guest has just added the proxy; an error means it did or did not, and nothing else |
| PortsCommand.Vm.StopTcpVsockProxy | vm/status.go:102-119 | Ok means the guest has just removed it; an error means it did or did not, and nothing else |
| PortsCommand.Vm.AddPort | cmd/ports.go:49-72 | a port in the ledger, or a failed write, changes nothing and asks nothing; otherwise the port stays in the ledger, whatever follows: nothing on a stopped VM, else the forwarder, and only if that is up one request to the guest; a ledger without duplicates never gets one |
| PortsCommand.Vm.RemovePort | cmd/ports.go:103-129 | a port not in the ledger, or a failed write, changes nothing and asks nothing; otherwise the port stays out of the ledger, whatever follows: the forwarder's stop, perhaps in vain, and only if that succeeds and the VM runs one request to the guest |
| PortsCommand.Vm.ReloadPorts | cmd/ports.go:200-213 | nothing is asked unless every forwarder is restarted; then a stop and a start for each port in order, until a start fails; the ports before it are renewed, and proxies of other ports left alone |
| PortsCommand.Vm.Restore | vm/vm.go:618-625 | succeeds exactly when no launch fails, no port is listed twice and no name is taken; then each port is asked for, in order, and the guest's registry is what was in memory plus at most ledger ports it lacked; a failure asks nothing |
| PortsCommand.RestoreAgrees | vm/vm.go:618-625 | the restore of what agreed agrees, exactly when no launch fails |
| Streams.ReadFull | vm/status.go:157-163 | exactly n bytes, or an error if the stream is shorter, however it is split |
| Framing.Uint32RoundTrip | vm/status.go:145 | the prefix carries the length modulo 2^32 |
| Framing.PrefixIsBigEndian | vm/status.go:145 | the most significant byte comes first, written and read |
| Framing.FrameOnTheWire | vm/status.go:139-151 | a frame is four bytes that are the length, big-endian, and the payload |
| Framing.FrameRoundTrip | vm/status.go:139-166 | a payload comes back, and what follows is left alone, exactly when its length is below 2^32 |
| Framing.TruncatedFrameIsAnError | vm/status.go:155-166 | a frame cut anywhere is an error, never another message |
| Framing.FramesArePrefixFree | vm/status.go:139-151 | no frame begins another |
| Framing.WriteFramed | vm/status.go:139-151 | what has left is the frame, or on error a beginning of it |
| Framing.ReadFramed | guest-agent/src/transport/vsock.rs:78-87 | the outcome is the parse of the whole stream, however it is split |
| Framing.HandleConnection | guest-agent/src/transport/vsock.rs:55-66 | one request is read, dispatched and answered, or none and nothing is sent |
| Framing.Exchange | vm/status.go:123-135 | host and guest together, over any splitting and a break at any byte: the guest handles exactly this request, or none exactly if its frame did not get through whole; the host gets its answer, or an error exactly if there was none or its frame did not get through whole |
| Handshake.BufReader.ReadLine | vm/vsock.go:37-41 | the first line of the stream, with nothing of what follows lost |
| Handshake.BufReader.Read | vm/vsock.go:18-20 | the next bytes in order, and the end only at the end |
| Handshake.SessionExactly | vm/vsock.go:43-49 | for every stream: it is accepted, with these session bytes, if and only if its first line is white space, OK and anything, and they follow it |
| Handshake.OkReplyIsAccepted | vm/vsock.go:43-49 | in particular any such reply, spelled out |
| Handshake.DialVsock | vm/vsock.go:25-50 | succeeds exactly when the first line is white space, OK and anything, and the session then has exactly the bytes after it |
| Handshake.DialAndReadAll | vm/vsock.go:13-50 | reading the session to its end, in reads of any size, yields exactly those bytes |
| Detach.CtrlBracketReader.Read | vm/vm.go:723-732 | a read is passed through up to its first 0x1d, which fires the detach |
| Detach.CopyInput | vm/vm.go:700-703 | what is copied is the input before the first 0x1d, and detach fires exactly when there is one; at most the bytes of that last read are lost, and only if the close wins |
| Detach.SplitsAgree | vm/vm.go:700-703 | two splits of the same input copy the same bytes |
| Detach.DetachFiresBeforeTheWrite | vm/vm.go:723-732 | the loss is possible |
| Signals.FromU64InvertsCode | guest-agent/src/boot/signals.rs:33-41 | a number reads as a tag exactly when it is that tag's |
| Reaper.NoLostZombie | guest-agent/src/boot/signals.rs:69-92 | in every run, while there is a zombie its signal is pending or the loop is still draining or reaping |
| Reaper.LoopProgresses | guest-agent/src/main.rs:56-68 | each step of the loop brings it closer to having no zombie |
| Reaper.LoopIsNeverStuck | guest-agent/src/main.rs:56-68 | while there is a zombie the loop has a step |
| Reaper.ZombiesDieOut | guest-agent/src/main.rs:56-68 | once children stop exiting, the loop reaches a state without zombies |
| Reaper.ReapFirstLosesAZombie | guest-agent/src/boot/signals.rs:69-92 | with the two loops the other way round, a run ends with a forgotten zombie |
| Reaper.ForgottenStays | guest-agent/src/boot/signals.rs:69-92 | and nothing the loop does brings it back |
| Reaper.DrainSignals | guest-agent/src/boot/signals.rs:69-92 | every zombie there on entry is reaped, one that appears meanwhile has its signal pending on return, and a signal is pending then only if a child exited meanwhile |
| Poller.ReplayIsLastWord | guest-agent/src/scheduler/epoll.rs:46-93 | what a history leaves registered is, per descriptor, the last word on it |
| Poller.Poller.AddEpoll | guest-agent/src/scheduler/epoll.rs:46-59 | list and kernel both gain or retag the descriptor, or neither changes |
| Poller.Poller.AddAll | guest-agent/src/scheduler/epoll.rs:62-67 | exactly the specs before the first failure are registered |
| Poller.Poller.RemoveEpoll | guest-agent/src/scheduler/epoll.rs:70-78 | list and kernel both lose the descriptor, or neither changes |
| Poller.Poller.PurgeAll | guest-agent/src/scheduler/epoll.rs:88-93 | afterwards both are empty, whatever had been closed elsewhere |
| Poller.Poller.GetEvents | guest-agent/src/scheduler/epoll.rs:95-104 | every event decodes to the source that the last word on its descriptor gave |
| Poller.Poller.ClosedElsewhere | guest-agent/src/scheduler/epoll.rs:85-87 | a descriptor closed elsewhere leaves the list a superset of the kernel's set |

## Left out

- The work behind the operations: systemd-run, systemctl, ip, cp, the Firecracker API, mount,
  clock_settime, pty spawning. Each is an operation that succeeds, fails, or fails half-way.
- Protobuf: the encoding of messages is taken as a pair of inverse functions.
- SQLite beyond its transactions: busy retries, the two migrations, and the images table.
- `ociimage`, `cmd/image*`, `cmd/setup.go`, `cmd/list.go`, the console and terminal, statistics:
  display and plumbing.
- Timeouts and sleeps: they are failures that may happen at any time. A request the guest gets to
  only after the host has given up on it is not modelled.
- IP, MAC and CID inside a restored guest: only the tap is replaced, so uniqueness is claimed for
  the ledger.
- The accept loops under persistent accept errors, where the code spins.
- A reboot of the host, which empties `vms/` under live rows.
- Concurrent commands on one VM id, apart from edits of its ports and destroys in the ledger.
- LedgerProcesses, Lifecycle, ProxyRegistry and Reaper are step systems over values, because their
  point is interleaving; the same operations in the source's shape are `AllocationCalls.Database`,
  `Runner.Host`, `ProxyCalls.Agent` and `Reaper.DrainSignals`. Sharing of one Go or Rust object
  between threads is not modelled otherwise.
- Lifecycle: reading a snapshot's row and allocating from it are one step, and so are a restore's
  failure and the removal of its row. A ports command writes the ledger and looks whether the VM
  is alive in one step.
- Snapshot names that lead out of the snapshots directory, or to where another snapshot may have a
  file (`SnapshotPaths.Contained` says which do not): `Lifecycle` knows no snapshot under such a
  name. One that leads into a VM's chroot exists for every VM, and its copies are written over that
  VM's disk: `SnapshotPaths.NameOfAChroot`.
- Runner.Host.Snapshot: such names, for the same reason; the empty name is refused as in the code.
- Runner.Host.Run: runs and restores are detached; attaching is the Attach stage of Lifecycle only.
- Runner.Host.Destroy: the ctrl-alt-del request, whose error is ignored, is not an operation.
- PortsCommand.Vm.AddPort: the ledger is the VM's list; that the row in the table holds the same
  list through every write is `Store.State.SetPorts` and `PortsJson.PortsRoundTrip`.
- ProxyCalls.Agent.Start: waiting for the mutex, and for a thread in stop, is an early return
  without an answer, since nothing in the code bounds it; that it ends is ProxyRegistry.NoDeadlock.
- ProxyRegistry.RunKeepsInv: a panic while the mutex is held, as when a thread cannot be spawned,
  would poison it and is not modelled.
- PortsGrammar.UnmarshalExactly: the reader takes only lists of integers, which is all that is ever
  written; `null` and other JSON that Go would also take are refused.
- Handshake.DialVsock: starts where the CONNECT line has been written, and knows ASCII white space
  only; that dialling may fail is part of `PortsCommand.Vm.SendRequest`.
- Detach.CopyInput: writes to the connection succeed until it is closed.
- `run_listener`'s handling of the connections it accepts: two byte copies per connection.
