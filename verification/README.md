# A model of niflhel in Dafny

niflhel runs each container in its own Firecracker microVM. This project models the parts of it where several things
happen at once and must still add up, and proves what they promise:

- the daemon's sandbox lifecycle: create, start, stop, finish, remove and recover, interleaved over a durable record
  table, with backend calls that fail and crashes between any two steps;
- the identity checks around SIGKILL, on a host that recycles PIDs;
- the bounded, rotating journal and the clients that follow it by cursor;
- the byte budget for registry metadata and the admission of DNS queries;
- the guest agent, the file-copy archive, the image store, result retention and environment merging.

`dafny verify dfyconfig.toml` checks all of it.

## How to read it

`Lifecycle.dfy` is the coordinator as a state machine. A `Cell` is everything that belongs to one sandbox: its record,
what exists for it on the host, and the goroutine at work on it. `Step` is one action: taking a lock, one access to the
record store, or one backend call. `Reachable` is every state of every schedule from an empty store.
`LifecycleInvariant.dfy` states the invariant, `LifecycleProof.dfy` and `LifecycleSteps.dfy` prove that each step keeps
it, and `LifecycleTheorems.dfy` draws the conclusions. `LifecycleStore.dfy` relates the steps to transactions of the
record store, `LifecycleRecovery.dfy` says what Recover achieves, `LifecycleLimits.dfy` when a reservation comes back, and
`LifecycleWitnesses.dfy` has schedules that show what can happen. `LifecycleOperations.dfy` says what each operation
leaves behind when nothing interferes with it, for every outcome of the calls that it makes. `Archive.dfy` writes and
extracts archives and proves the round trip; `Extraction.dfy` says what extraction does to a tree that is not empty.

What the model takes from outside:

- Kill returning nil means the VMM is not alive; Network.Remove and VM.Remove returning nil mean that their resource is
  gone. Each may also fail, at any time. A VMM may die at any time. `ProcessIdentity.dfy` examines the first of these.
- A commit of the record store happens or does not; a crash loses the daemon's memory and nothing else.
- Sandbox IDs are fresh and of one length, so that the ID of a deleted record is no abbreviation of another
  (`LifecycleTheorems.DeletedIsNotFound`). A record without a base digest cannot be started, since there is no such base.
- No sandbox is named like an ID. This condition is needed, and the code does not
  enforce it: the store looks a key up by ID or name in one pass, so a name that spells another sandbox's ID takes over
  that sandbox's lookups. `Records.LookupById` gives the exact condition and `Records.TwoLocksOneRow` what follows: two
  requests hold different locks and work on one record. If both are Starts, two runs share a generation
  (`LifecycleTheorems.TwoAdmissionsOneGeneration`), which under the condition never happens
  (`LifecycleTheorems.GenerationCountsStarts`, `LifecycleTheorems.LookupsAreExact`).
- Memory readings, clocks, file contents, process tables and the outcomes of system calls are parameters.
- The hash of the image store has no collisions.
- Journals write fewer than 2^64 frames.

Some properties one might expect do not hold. For each there is an instance and the exact condition:

- A release, once confirmed, lasts until the next start. A Stop that began before its run ended may call finish for that
  run again, and a failing Kill then makes the record reserve again (`LifecycleWitnesses.ReleaseIsTakenBack`).
  `LifecycleLimits.ReservationReturns` says exactly when a record comes to reserve. So exclusivity is proved of live VMMs
  and admitted starts, not of reservations.
- Kill reports success only if the VMM is gone. It may be wrong in two ways. A file under /proc that cannot be read at
  the wrong moment makes a VMM that runs look gone (`ProcessIdentity.LiveVmmLooksDead`);
  `ProcessIdentity.PresentIsMissedExactly` says exactly which file. And a VMM that neither the record nor the jailer's
  file names is not looked for (`ProcessIdentity.UnnamedVmmIsMissed`), as after a crash between launching it and storing
  its PID, if the jailer has not written its file yet. A VMM that stays put is signalled exactly when it is named; and
  when all files are legible, success leaves behind none that is named (`ProcessIdentity.Kill`,
  `ProcessIdentity.WrongSuccessIsUnnamed`).
- Wait reports the latest run's exit. After a removal it may report an earlier one
  (`LifecycleWitnesses.StaleResultIsReported`): exactly when the result it finds was saved before the last start
  (`LifecycleTheorems.WaitReportsTheLatestRun`).
- Metadata that fits is not refused. Overlapping reads may refuse it before a read, after it, or at a response
  (`MetadataBudget.OverlapRefusesWhatFits`, `MetadataBudget.OverlapFailsWhatWasRead`); `MetadataBudget.SpuriousExactly`
  says exactly when, and that it takes overlap.
- A read only returns frames past its cursor, and reading a journal to its end ends. The cursor 2^64-1 is sent back to an
  old gap marker (`JournalReaders.ReadMovesForward`), and so reading files that hold that number goes on for ever
  (`JournalReaders.NeverEnds`); all others are read to their end (`JournalReaders.ReadAll`).
- A lookup by ID finds the sandbox with that ID: see above.

## Model

| member | source | states |
|---|---|---|
| LifecycleSteps.RunKept | internal/daemon/daemon.go:128-674 | the invariant holds after every schedule of requests, failures, deaths, crashes and recoveries |
| LifecycleTheorems.VolumesAreExclusive | internal/daemon/daemon.go:260-302 | two sandboxes that are alive or being started never share a volume, in any reachable state |
| LifecycleTheorems.UnreservedHoldsNothing | internal/daemon/daemon.go:118-127 | a sandbox that does not reserve has no VMM, network, jail, port listener or DNS proxy, and its cleanup has been confirmed since its last start |
| LifecycleTheorems.ReleasedIsConfirmed | internal/daemon/daemon.go:496-519 | VMResourcesReleased is true only if Kill, Network.Remove and VM.Remove have all succeeded since the last admission |
| LifecycleTheorems.LiveStaysReserved | internal/daemon/daemon.go:305-325 | no step, failed cleanup, crash or recovery drops the reservation of a VMM that lives |
| LifecycleLimits.ReservationReturns | internal/daemon/daemon.go:479-519 | over every step of the daemon other than its own admission, a record comes to reserve exactly when a cleanup of it that was not all confirmed is written for a finished run or an interrupted operation |
| LifecycleWitnesses.ReleaseIsTakenBack | internal/daemon/daemon.go:531-554 | some schedule takes a confirmed release back without a new start |
| LifecycleTheorems.MemoryIsAdmitted | internal/daemon/daemon.go:279-302 | the envelopes of all live or starting sandboxes fit the memory read at the latest admission, less the host reserve |
| LifecycleTheorems.RequestsAreAdmitted | internal/daemon/daemon.go:279-302 | the memory that live or starting sandboxes asked for, 128 MiB for each on top, fits the memory read at the latest admission less the host reserve |
| LifecycleTheorems.AdmissionIsBudgeted | internal/daemon/budget.go:12-17 | an admission sets that budget from its own reading, and the newly admitted sandbox counts against it with its guest memory and 64 MiB |
| LifecycleTheorems.ReservationSumFits | internal/daemon/daemon.go:279-284 | the reservation sum, at most 16000 bounded terms and the candidate, stays within int64 |
| LifecycleSteps.ScanClears | internal/daemon/daemon.go:266-288 | passing the scan of reserving records clears a sandbox against everything that is alive or being started |
| LifecycleSteps.GuestMemoryBounded | internal/daemon/daemon.go:213 | guest memory is at least what was asked for plus 64 MiB, and at most 1 TiB plus 4096 MiB |
| LifecycleSteps.GuestMemoryIsRounded | internal/daemon/daemon.go:213 | guest memory is what was asked for plus the reserve, rounded up to the next MiB and no further |
| LifecycleTheorems.GenerationCountsStarts | internal/daemon/daemon.go:293-301 | the generation is the number of admitted starts; a live VMM and a stored exit belong to the latest |
| LifecycleTheorems.FinishIsFenced | internal/daemon/daemon.go:479-519 | while finish works for a generation, the record is at that generation and so is the VMM it may kill |
| LifecycleTheorems.CleanupHasCause | internal/daemon/daemon.go:305-325 | a cleanup of a live record is begun only by finish for its run, a forced Remove, the failure of its own start, or Recover |
| LifecycleTheorems.OneMonitorPerGeneration | internal/daemon/daemon.go:388-405 | at most one monitor runs per sandbox and generation |
| LifecycleTheorems.WaitReportsTheLatestRun | internal/daemon/daemon.go:555-580 | Wait goes on exactly while a started record has neither an exit nor failed, which every live one has not; the exit it reports, code included, is one that finish was called with, and no VMM lives; it is the latest run's while there is a record, and after removal exactly if the result was saved since the last start |
| LifecycleTheorems.KeptUntilStart | internal/daemon/daemon.go:520-528 | an automatic removal saves the latest run's result, and it stays the latest until the next start |
| LifecycleWitnesses.StaleResultIsReported | internal/daemon/daemon.go:520-613 | some schedule makes Wait report the first run's exit after the second run's record was removed |
| LifecycleTheorems.AllocationsAreDistinct | internal/daemon/daemon.go:139-180 | slots are distinct and in 1..16000, names distinct, host ports disjoint, and every mount names an existing volume despite volume-rm |
| LifecycleSteps.VolumeKept | internal/daemon/handler.go:140-185 | creating and removing volumes keeps the invariant, mounts included |
| LifecycleTheorems.FindSlot | internal/daemon/daemon.go:165-171 | the search ends with the least free slot, and passes 16000 exactly when all are taken |
| LifecycleTheorems.SlotsHaveLinks | internal/network/network.go:27-38 | the slots that Create may hand out are exactly those for which there is a link |
| LifecycleTheorems.LinksAreDisjoint | internal/daemon/daemon.go:165-180 | every record has a link, and no address in one record's /30 block is in another's |
| LifecycleTheorems.LookupsAreExact | internal/daemon/daemon.go:239-249 | when no name spells an ID, looking a record up by its ID finds it |
| LifecycleTheorems.DeletedIsNotFound | internal/state/store.go:63-86 | with IDs of one length, looking up the ID of a deleted record finds nothing |
| LifecycleTheorems.TwoAdmissionsOneGeneration | internal/daemon/daemon.go:293-299 | two Starts that have read the same record and both commit leave one generation for two runs, against the invariant |
| LifecycleWitnesses.SandboxCanRun | internal/daemon/daemon.go:239-359 | some schedule reaches a running VMM on a volume |
| LifecycleWitnesses.VmmCanDie | internal/daemon/daemon.go:622-633 | some schedule leaves a running record without a VMM |
| LifecycleSteps.CrashKept | internal/daemon/daemon.go:614-674 | a crash at any point leaves a state from which recovery starts with the invariant intact |
| LifecycleRecovery.RecoverySettles | internal/daemon/daemon.go:614-674 | when Recover returns and every cleanup since it began was written, no record is left creating, starting or removing, whatever crashed or failed in between |
| LifecycleRecovery.RecoveryWatches | internal/daemon/daemon.go:614-674 | when Recover returns, without a failed read in finish or a monitor giving up since it began, every record that is live is watched by a monitor of its run, and its listeners are up unless finish is at work on it |
| LifecycleOperations.StartTakes | internal/daemon/daemon.go:239-259 | Start takes on exactly a created or exited sandbox that has a base |
| LifecycleOperations.ScanPassesExactly | internal/daemon/daemon.go:260-292 | the scan passes exactly if no other reserving sandbox mounts a volume of the candidate and the memory read covers all reservations, 64 MiB each and 256 MiB |
| LifecycleOperations.AdmissionWrites | internal/daemon/daemon.go:293-302 | an admission begins the next generation, without exit or release, and changes no other sandbox |
| LifecycleOperations.RefusalWrites | internal/daemon/daemon.go:286-292 | a refused Start leaves everything as it was |
| LifecycleOperations.BootAlone | internal/daemon/daemon.go:326-359 | when every call of an admitted Start succeeds, the run, network, listeners and monitor are up and the record is running |
| LifecycleOperations.BootFailsAlone | internal/daemon/daemon.go:305-325 | whichever stage fails, the record is failed, and released exactly if Kill, Network.Remove and VM.Remove succeed |
| LifecycleOperations.FinishAlone | internal/daemon/daemon.go:479-519 | for every outcome of its calls, what finish leaves of the record and the host: the exit it was given unless Kill failed, exited and released exactly if all calls succeed |
| LifecycleOperations.StaleFinishAlone | internal/daemon/daemon.go:482-485 | finish for another generation changes nothing |
| LifecycleOperations.AutoRemoveAlone | internal/daemon/daemon.go:520-529 | the result is saved before the record is deleted, and a failure to save it keeps the record |
| LifecycleOperations.MonitorStartsOnce | internal/daemon/daemon.go:388-397 | watching a run that is watched starts no second monitor |
| LifecycleOperations.MonitorLeaves | internal/daemon/daemon.go:397-405 | a monitor that returns leaves the table to a later run |
| LifecycleOperations.StopTakes | internal/daemon/daemon.go:531-538 | Stop returns at once exactly if there is no record, or it was never started, or it has exited |
| LifecycleOperations.StopMarks | internal/daemon/daemon.go:531-542 | Stop marks exactly a starting or running record as stopping |
| LifecycleOperations.StopFinishes | internal/daemon/daemon.go:543-551 | a Stop that the guest does not obey calls finish for the run it has read, once |
| LifecycleOperations.RemoveRefuses | internal/daemon/daemon.go:592-596 | Remove without force leaves a live sandbox alone |
| LifecycleOperations.RemoveFailsAlone | internal/daemon/daemon.go:598-607 | the first call that fails ends Remove and leaves the record as it was |
| LifecycleOperations.RemoveAlone | internal/daemon/daemon.go:598-613 | when the calls succeed nothing is left of the sandbox, or only a record that is being removed |
| LifecycleOperations.VisitAlone | internal/daemon/daemon.go:621-634 | Recover watches a live run if its listeners come up, stops with an error if they do not, and finishes a run that is not alive |
| LifecycleOperations.InterruptedAlone | internal/daemon/daemon.go:635-649 | an interrupted operation is failed, and released exactly if all calls succeed |
| LifecycleOperations.QuarantinedAlone | internal/daemon/daemon.go:650-670 | a failed sandbox is released exactly if all calls succeed now |
| LifecycleOperations.CreateAlone | internal/daemon/daemon.go:128-238 | a Create that succeeds stores what was asked for under the least free slot, holds nothing, and touches no other sandbox |
| LifecycleOperations.CreateFailsAlone | internal/daemon/daemon.go:181-187 | a Create that fails after its insert leaves a failed record that reserves nothing |
| LifecycleOperations.FailedWrite | internal/state/store.go:107-136 | a write that fails has changed no record, whatever the operation does next |
| LifecycleOperations.VolumeCreateAlone | internal/daemon/handler.go:140-160 | creating a volume adds it and nothing else |
| LifecycleOperations.VolumeRemoveAlone | internal/daemon/handler.go:160-185 | a volume is removed exactly if it exists and no record mounts it, and it alone |
| Records.Get | internal/state/store.go:63-86 | the first exact match by ID or name; otherwise the only row with that ID prefix; otherwise ambiguous or not found |
| Records.LookupById | internal/state/store.go:63-86 | a lookup by ID finds its row exactly when no earlier row has that ID as its name |
| Records.EmptyKeyFindsNothing | internal/state/store.go:63-86 | the empty key abbreviates no ID |
| Records.TwoLocksOneRow | internal/daemon/daemon.go:239-249 | whenever an earlier row's name is another row's ID, requests for that other row work on the earlier one, under a different lock than requests for the earlier one, which find it exactly if no row before it is named like its ID |
| Records.TransitionExactly | internal/state/store.go:137-154 | a transition is accepted exactly to the same state or from a state the target may be reached from, and changes only the state |
| Records.ReservesExactly | internal/daemon/daemon.go:118-127 | reserved is what is live or has failed without a confirmed release |
| LifecycleStore.StepIsOneTransaction | internal/state/store.go:87-162 | every step of the daemon is at most one insert, replacement or deletion of one row, which the store accepts and which renames no row |
| LifecycleStore.StoreIsKeyed | internal/state/store.go:87-106 | in every reachable state rows are kept under their own IDs and names are unique |
| LifecycleStore.StateFollowsTable | internal/state/store.go:137-154 | every change of a record's state is in the transition table, except the direct writes of finish, Remove, Recover and the end of Create |
| ProcessIdentity.Kill | internal/firecracker/vm.go:304-343 | a delivered SIGKILL hits a process, never PID 1, that showed the identity in the exact cgroup while held; a process that stays put is signalled exactly when the record or, failing that, the jailer's file names it; success means looks for the recorded and the discovered identity missed and, if all that was read was legible, that a process with either identity is gone for good; what is not there at either look is killed without a signal; failure means that something there could not be read, a system call failed, or the process outlived the deadline |
| ProcessIdentity.WrongSuccessIsUnnamed | internal/firecracker/vm.go:304-343 | if, with legible files, a process that showed its identity in the group all along is there after a success, neither the record nor the jailer's file named it |
| ProcessIdentity.UnnamedVmmIsMissed | internal/firecracker/vm.go:420-431 | such a process exists: with every file legible, Discover finds nobody and Kill has nothing to do |
| ProcessIdentity.AbsentIsGone | internal/firecracker/vm.go:265-303 | a process that shows its identity while it lives, and once was not there, is gone for good |
| ProcessIdentity.MissedIsAbsent | internal/firecracker/vm.go:265-303 | a look that misses, when the files are legible, proves a moment at which no process with the PID had the start time in the group |
| ProcessIdentity.PresentIsMissedExactly | internal/firecracker/vm.go:265-303 | a process that is there is taken for gone exactly when the boot ID, its start time or its group cannot be read |
| ProcessIdentity.LiveVmmLooksDead | internal/firecracker/vm.go:269-272 | one unreadable boot ID makes the look that decides Kill miss a VMM that runs all along |
| ProcessIdentity.HeldProcessIsIdentified | internal/firecracker/vm.go:317-334 | if the held process is still there to be signalled, the second look was at that process |
| ProcessIdentity.DiscoverSteady | internal/firecracker/vm.go:420-458 | Discover settles on the recorded process, or on the one in the jailer's file when the record has none |
| ProcessIdentity.DiscoverFailsExactly | internal/firecracker/vm.go:420-458 | Discover fails exactly when the group of a process it saw, the jailer's file, or the start time or group of the process named there is present and cannot be read; nothing that is missing is a failure |
| ProcessText.StartTicksOfStat | internal/firecracker/vm.go:232-244 | the start time is read from the right field whatever the command name contains |
| ProcessText.FullIdentityMatches | internal/firecracker/vm.go:273-281 | a full identity matches exactly the same boot and ticks |
| ProcessText.LegacyIdentityMatches | internal/firecracker/vm.go:274-278 | a ticks-only identity matches exactly when the ticks are equal |
| ProcessText.GroupIsExact | internal/firecracker/vm.go:247-263 | whatever hierarchies are listed, a process is owned exactly when its path in one of them is the sandbox's |
| JournalFrames.RetainIsLongest | internal/journal/journal.go:44-51 | what is retained is the longest suffix within the limit, or the last frame |
| JournalFrames.RetainStepwise | internal/journal/journal.go:44-51 | evicting after each frame retains the same as evicting once |
| JournalFrames.ReadFrames | internal/journal/journal.go:85-103 | of any frames, a read returns a gap marker if the first was skipped, then the frames past the cursor up to the one that fills the page |
| Journal.Journal.Append | internal/journal/journal.go:44-51 | leaves exactly the retained suffix and its byte count |
| Journal.Journal.Write | internal/journal/journal.go:52-84 | adds frames whose data is the block, cut into full pieces of 32 KiB and a rest, numbered on; the files keep a contiguous end of the history, and one is given up only for another that has grown past the limit |
| Journal.Open | internal/journal/journal.go:22-43 | any files give the retained suffix and the highest number; files that hold the end of a history restore it |
| Journal.Reopen | internal/journal/journal.go:22-43 | reopening continues the same history, so no number is used twice |
| JournalReaders.DeliveredIncreases | internal/journal/journal.go:85-103 | sequence numbers given to a reader that starts at any cursor strictly increase, over any interleaving of writes and reads |
| JournalReaders.NothingLostSilently | internal/journal/journal.go:85-103 | every number up to the cursor was delivered or covered by a gap marker |
| JournalReaders.RetainedIsDelivered | internal/journal/journal.go:85-103 | a gap marker stands only for evicted frames: a read skips nothing that is retained |
| JournalReaders.DeliveredAsWritten | internal/journal/journal.go:85-103 | a frame is delivered as it was written under its number |
| JournalReaders.ReadAll | internal/daemon/results.go:153-166 | reading any files until nothing comes ends, with nothing left past the last number; frames in order are each sent exactly once behind a gap marker if needed |
| JournalReaders.NeverEnds | internal/daemon/results.go:153-166 | the exception: files that hold the number 2^64-1 after a positive first one are read for ever |
| JournalReaders.ReadMovesForward | internal/journal/journal.go:89-91 | of any frames, a read goes back before its cursor exactly for the cursor 2^64-1 when the first number is positive |
| MetadataBudget.RunConserves | internal/oci/metadata.go:145-213 | used equals bytes read plus reservations, at most total+1, and no body passes max+1, over any interleaving |
| MetadataBudget.RunCounts | internal/oci/metadata.go:131-158 | the limit is on exactly while it was switched on more often than off, and every response that arrives meanwhile counts, refused or not |
| MetadataBudget.QuietBudgetIsExact | internal/oci/metadata.go:201-208 | with no read in progress, used is what the bodies delivered |
| MetadataBudget.RefusedExactly | internal/oci/metadata.go:154-207 | each of the three limit tests, of a response, before a read and after it, fails exactly when bytes delivered do not fit or reservations crowd it out |
| MetadataBudget.ResponseExactly | internal/oci/metadata.go:145-172 | over any run, a response gets a limited body exactly if the limit is on, it fits and reservations do not crowd it out; without the limit it changes nothing |
| MetadataBudget.AllowanceIsMost | internal/oci/metadata.go:184-199 | a read may take exactly as much as leaves body and total at most one byte past their limits |
| MetadataBudget.SpuriousExactly | internal/oci/metadata.go:145-213 | over any run, a Read or a response that fits fails exactly when reservations of other reads crowd it out, so never without overlap |
| MetadataBudget.OverlapRefusesWhatFits | internal/oci/metadata.go:184-205 | a reservation alone can refuse another body's first byte, and an empty response |
| MetadataBudget.OverlapFailsWhatWasRead | internal/oci/metadata.go:205-211 | a reservation alone can fail a body that was let in and has delivered what fits |
| MetadataBudget.Transport.Read | internal/oci/metadata.go:175-213 | reserve, read, refund; fails exactly when a limit is or was passed |
| MetadataBudget.Transport.ReadWhole | internal/oci/metadata.go:175-213 | a whole body fails exactly when its own or the aggregate length exceeds its limit |
| DnsAdmission.RateIsBounded | internal/network/dns.go:34-54 | admissions are at most burst plus rate times the advance of the latest time, for times in any order; tokens stay in range |
| DnsAdmission.SteadyIsNeverRefused | internal/network/dns.go:34-54 | calls that keep to the rate are all admitted |
| DnsAdmission.BurstIsAdmitted | internal/network/dns.go:27-54 | a new bucket admits its whole burst at once |
| DnsAdmission.DisabledAdmitsNothing | internal/network/dns.go:37-39 | a bucket without rate or burst admits nothing and never changes |
| DnsAdmission.TokenBucket.Take | internal/network/dns.go:34-54 | the in-place update computes the bucket function |
| DnsAdmission.GlobalRateIsBounded | internal/network/dns.go:64-83 | over any stretch of any run, the steps by which queries of any sandbox clear the process-wide bucket, counted from the states, are at most the burst plus the rate times the time that passes |
| DnsAdmission.LocalRateIsBounded | internal/network/dns.go:64-83 | the same for the queries of each sandbox and its own bucket |
| DnsAdmission.SlotsAreConserved | internal/network/dns.go:79-96 | at most 64 local and 256 global slots are in use, each by exactly one holder |
| DnsAdmission.GivingBackNeverBlocks | internal/network/dns.go:89-95 | no receive on release or refund ever waits |
| DnsAdmission.NothingLeaks | internal/network/dns.go:79-96 | when no call holds anything, every slot is free |
| DnsAdmission.AcquireExactly | internal/network/dns.go:79-96 | alone, a query is let in exactly if both buckets have a token and both a slot is free; let in, it holds one slot of each, and refused none |
| DnsAdmission.ReleaseGivesBack | internal/network/dns.go:79-96 | a release gives back exactly the two slots |
| GuestAgent.LaunchedAtMostOnce | internal/guest/agent.go:84-133 | any replay of start launches the application at most once |
| GuestAgent.StartAnswers | internal/guest/agent.go:84-133 | in every state of every run: a first start that succeeds launches and is answered with success, so is a replay of it, which changes nothing, and everything else is refused and changes nothing |
| GuestAgent.ExecutedOnce | internal/guest/agent.go:335-349 | no exec ID is let in twice |
| GuestAgent.ExecAnswers | internal/guest/agent.go:335-349 | an exec ID is let in exactly while the application runs and only if it has not been let in before |
| GuestAgent.StatusMovesForward | internal/guest/agent.go:131-172 | ready, running, exited, one at a time; the exit status is there exactly once exited, and stays |
| GuestAgent.ExitIsTheProcesss | internal/guest/agent.go:134-167 | the exit status that is published is the process's: its code, 128 plus its signal, or 125 |
| GuestAgent.ExitFrameComesLast | internal/guest/agent.go:134-305 | with or without a terminal, output ends before the waiting goroutine publishes the exit, so when attach sends the exit frame all output has been delivered or covered by a gap marker |
| GuestAgent.Agent.HandleStart | internal/guest/agent.go:84-133 | the in-place update computes the start function that LaunchedAtMostOnce describes |
| GuestAgent.Agent.HandleExec | internal/guest/agent.go:335-349 | the in-place update computes the exec function that ExecutedOnce describes |
| Paths.JoinedPathDoesNotClimb | internal/filecopy/copy.go:171-181 | no path made from an accepted destination and name, and no parent folder of one, has a `..` component |
| Paths.DirIsParent | internal/filecopy/copy.go:181 | making the parent folder of such a path walks all its components but the last |
| Paths.CleanPathOf | internal/filecopy/copy.go:18-25 | a plain path is accepted unchanged |
| Paths.CleanKeepsMeaning | internal/filecopy/copy.go:18-25 | path.Clean keeps where a path leads, in every tree without links |
| Paths.CleanFailsExactly | internal/filecopy/copy.go:18-25 | a path is refused exactly if, less one leading slash, it is relative and climbs above where it begins, or what is left of it holds a NUL |
| Archive.ArchiveTree | internal/filecopy/copy.go:302-362 | archiving fails exactly when there are more than 10000 objects or 512 MiB, else writes every object before what is below it |
| Archive.AcceptedStreamFits | internal/filecopy/copy.go:143-157 | what is accepted for archiving is within the stream limit of extraction |
| Archive.Mkdir | internal/filecopy/copy.go:65-99 | the loop computes the function that Extraction.MakeFoldersExactly describes |
| Archive.Extract | internal/filecopy/copy.go:137-200 | the loop computes member after member what Extraction describes, and also fails on an unsafe destination or too long a stream |
| Extraction.TargetMeaning | internal/filecopy/copy.go:167-171 | a member goes where its name leads from the destination, in every tree whose root is its own parent |
| Extraction.MakeFoldersExactly | internal/filecopy/copy.go:65-99 | in any tree, making a folder fails exactly if a file is on the way, and otherwise adds exactly the missing folders |
| Extraction.PutFileExactly | internal/filecopy/copy.go:181-196 | in any tree, a file replaces the one that is there, makes the folders above it, and changes nothing else; it fails exactly if a file is on the way or a folder in its place |
| Extraction.ExtractOneExactly | internal/filecopy/copy.go:160-200 | a member fails exactly on the 10001st, an unsafe name, too much data or an obstacle, and otherwise is put at its place |
| Extraction.KindsStay | internal/filecopy/copy.go:137-200 | into any tree, extraction turns no file into a folder and no folder into a file |
| Extraction.FoldersAreThere | internal/filecopy/copy.go:137-200 | every folder member, and everything on the way to a member, is then a folder |
| Extraction.OthersStay | internal/filecopy/copy.go:137-200 | every path that no member touches is as it was |
| Extraction.LastMemberDecides | internal/filecopy/copy.go:137-200 | the last member put at a place decides what is there |
| Archive.RoundTrip | internal/filecopy/copy.go:137-362 | archive then extract into an empty folder gives the same names and contents, and touches nothing else |
| ImageStore.Store.Get | internal/oci/store.go:48-65 | a record is found exactly when all its layers are there with digest and size |
| ImageStore.DigestsSpellHashes | internal/fsutil/files.go:163-172 | a digest is accepted exactly if it spells 64 hexadecimal digits, small or capital |
| ImageStore.Store.WriteVerified | internal/oci/store.go:209-244 | a blob is put in place exactly when size and digest are right, and no good blob changes |
| ImageStore.Store.ImportLayers | internal/oci/store.go:162-202 | goes through exactly when every layer is within the limits and was there already, or can be downloaded and checked, or repeats one that could; whatever it adds is the checked content of a layer |
| ImageStore.Store.Import | internal/oci/store.go:100-208 | every exit leaves the store closed; it succeeds exactly when the layers go through and both records are written, and then the image is under digest and reference; when only the first record is written, only that is there |
| ImageStore.Store.Remove | internal/oci/store.go:267-307 | every exit leaves the store closed; success leaves no record of the digest, and its blobs only where another record lists them; when nothing fails underneath, a well-formed image is removed, and one with a malformed digest is left as it was |
| Results.Prune | internal/daemon/results.go:93-134 | in whatever order sorting leaves results of the same time, what stays is the longest run of newest results that are younger than 24 h, at most 128 and at most 256 MiB |
| Results.NewestSurvives | internal/daemon/results.go:26-45 | a strictly newest result within the byte limit survives its own pruning |
| Environment.MergeEnv | internal/api/types.go:250-263 | each key once, where it first occurs, with its last entry |
| Environment.KeyOf | internal/api/types.go:250-263 | a key ends at the first equals sign; an entry without one is its own key |
| Environment.MergeIsAssociative | internal/api/types.go:250-263 | layers merged from either end equal one merge of all |
| Environment.MergeIsIdempotent | internal/guest/agent.go:356 | merging a merged environment again changes nothing |
| Addresses.BlocksAreDisjoint | internal/network/network.go:27-38 | both ends are the usable addresses of one /30 block with valid octets, and different slots have different blocks |

## Left out

- LifecycleSteps.RunKept: leaves out sandboxes whose name spells an ID, because the invariant does not survive them (`LifecycleTheorems.TwoAdmissionsOneGeneration`).
- The record store is modelled on values, one accepted transaction to a step; its mutex and the events it logs are not.
- The lifecycle is modelled on values, one cell per sandbox, so aliasing between goroutines' copies of a record is not; each copy that a goroutine keeps across a step is part of its work.
- Whether a nil from Kill is right about the VMM: the lifecycle assumes it; `ProcessIdentity.Kill` proves it for legible files and a VMM that the record or the jailer's file names.
- Finding a saved result by name or abbreviation, and the retention of results as a step of the lifecycle: there a result may vanish at any time.
- Sequence numbers past 2^64, and file operations of the journal that fail half-way: a failed write leaves the files out of the claims that follow.
- Archive headers longer than one block, as for very long names; the bound on the stream is for one header block per entry.
- The tar and JSON encodings, SQLite, openat2 flags, SHA-256 and TLS.
- ImageStore.Store.Import: does not model manifests, platforms and diff IDs, which are checked before any layer is written.
- The monitor's copying of guest logs to the host, and its final drain.
- Spec.Validate apart from the memory limits: the mounts and ports of a spec are sets here because it rejects duplicates.
- Registry pulls, base images, firewall rules, the CLI, build staging and the wire protocol: input and output, or easy.
- Floating point in the token bucket: real numbers instead.
