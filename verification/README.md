# Verification of WTM's daemon core

A Dafny model of the parts of WTM whose correctness is hardest to see from one function, with proofs.

## What is modelled

**Crash-safe log rotation and the lock-free reader.** An anchor process appends to `current`, rotates it through
`.1 … .R` by single renames, and publishes a phase marker between the steps. `LogWorld` gives every directory an
*explanation* (which inode was current in which generation, how far the running shift got); `RotationSteps` shows that
each atomic step leads from an explained directory to an explained one. `AnchorLog` and `RotatingLog` are the writer in
its own form: a directory, an operation that may die after any number of atomic steps, and a log object with descriptor,
size and generation. `CrashRecovery` states the crash theorem on plain disks. `CursorPositions` says what a cursor means
in the stream of all bytes ever written, and `CursorReader` is the daemon's reader: `timeline` lists the states the
directory passes through, each observation happens at an adversary's choice of a later moment, and how many bytes each
call gets is a parameter. `ReadExtents` says where a read of unchanging segments stops.
A store is constructed over any run of a writer's directory, which joins the two halves; `RotatingReads` reads what the
writer really leaves. `LogPaths` counts the paths a mutation registers. `Utf8` is the cut at a character boundary against
the grammar of RFC 3629, sections 3 and 4.

**Process ownership.** `ProcessJournal` is the record of everything the supervisor and the job queue observe and do, with
what each deed must rest on. `Supervisor` appends to it: inspections may answer anything at any time, waits may
look again an arbitrary number of times, and at every await other operations may move any record on. `JobStore` is the durable job table,
one transaction per method. `HeavyJobQueue` schedules jobs over both; it may die between any two steps, and its successor
finds the table, the records and the markers only, and begins by recovering what was left running. `KeyedLock` is the
promise chain that serializes operations per key.

**Smaller pieces.** `ReconcilerQueue` (each method is one stretch of code between two awaits, in any order), `ProcessTree`
(the Windows process walk), `IdleRuntime` (idle suspension), `AdapterRegistry` (exclusion and pruning), `DaemonStatus`
(shell quoting, against a reader written after sections 2.2 and 2.3 of the POSIX.1-2017 Shell Command Language).

## Where the code does less than one might expect

- The reader's next offset can fall below zero: it is reduced by all held-back bytes although some of them may lie in an
  earlier segment (`packages/daemon/src/logs.ts:530-533`). `ReadIsSlice` says when for one read. `BelowZeroIff`,
  `ReadStill` and `ReadBelowZero` say for which cursors and files the reader can return one while nothing changes:
  exactly under a plain number, with the cursor's segment linked and in reach, and with a place to stop inside a torn
  character. `WholeStartsSuffice` rules it out for every run; under a rotating marker `ReadCursor` never returns one.
  `ReadTorn` and `ReadTornThrough` give a run.
- If the daemon creates the next current log while the marker still says `shifted`, a reader without a cursor, or whose
  file is gone, takes that empty log for the rotated one. `PreparedMidShiftMisnames` says that this is the only such
  situation, `PreparedIsSeen` how the files show it, `ReadCursor` what a read then returns, and `ReadAfterPreparing` gives
  a run from every steady directory. A read with a cursor that is not flagged truncated is not affected.
- A rotating read with a cursor that carries no generation reports generation 0 (`packages/daemon/src/logs.ts:454`).
- On a buffer of stray continuation bytes nothing is emitted and the cursor does not move (`EmitsNothing`).
- A start can let a run go without a cleanup flag although nobody saw its group absent: when it retires a run whose
  leader is absent (`packages/daemon/src/process-supervisor.ts:472-476`), where `recover` would set the flag, and when it
  undoes a launch whose anchor exited or is absent. `RetireAbsent` and `AbandonLaunch` say exactly when,
  `LeftoverGroupIsStray` and `LeftoverTaskIsStray` give the inputs. Every other operation is proved not to: such places
  in the journal are recorded in the field `strays`, and only the start path, which is `LetGo` and its callers, lists
  that field under `modifies`.
- A `flush` or `close` that arrives after a flush left its loop and before its promise is cleared joins a flush that will
  do nothing more. `BeginFlush`, `BeginClose` and `EndFlush` say exactly who is served; `JoinInTheGap` and
  `CloseInTheGap` show it for every queue in the gap, `SignalInTheGap` and `WaiterInTheGap` reach it.
- The idle window does not count from the first sweep that saw a run if an interaction was on record before
  (`FirstSightIsKept`, `EarlyStop`; `TouchedAtZero` is the case of a task touched at 0 under a window of 50).
- One record that the store refuses an answer for ends the whole recovery (`RecoverRecord` says which, `Recover` that it
  ends early at no other).
- Reads of fewer than four bytes may never get past a character (`WholeTextIsEmitted` says when).
- The Windows process walk ends exactly if the process is not its own descendant (`EndsExactly`).

## Premises

- The file system renames atomically and gives a new file an inode that no file of the directory, linked or held open,
  has; a reused inode would let a cursor match the wrong file. Device numbers are part of the inode here.
- A reader's cursor belongs to the log it is used on (`Tracked`), and the exact claim about an exhausted scan asks that the
  reader look at no fewer archives than the anchor keeps.
- `CrashRecovery.OpenStreams` gives each stream of a task its own directory object, since the two never share a file name.
- Identifiers of records and jobs are never issued twice. Records of jobs that still hold a slot are not deleted; the only
  deletion in the source, `deleteFinished`, spares them.
- Process numbers in a Windows snapshot are unique. Creation dates are compared as an order; their text form is not
  modelled.
- The sweep's clock does not go back, and a run's start lies not in its future.
- Adapter identifiers are distinct, as they are in `builtInAdapters`.

## Model

| member | source | states |
|---|---|---|
| CrashRecovery.RotateThroughCrashes | packages/daemon/src/anchor-log-trust.ts:280-353 | From any steady directory: a rotation killed after any number of its atomic steps, any number of recoveries each killed likewise, then one full recovery. If the first marker was never published the disk is untouched; otherwise it is exactly what an uninterrupted rotation leaves (generation + 1, empty current log, the old one at `.1`, every archive one higher, the oldest gone only beyond the bound), for every disk, not only those a model run produced |
| CrashRecovery.RecoverOnce | packages/daemon/src/anchor-log-trust.ts:280-329 | One life of a recovering anchor, of any length, with or without the daemon having created the current log first, stays committed to that state; a life of `retained + 6` steps finishes it |
| RotatingLogs.RotatingLog.Initialize | packages/daemon/src/anchor-log-trust.ts:280-290 | Fails, other than by dying, exactly on the directories `Refused` lists, and then touches nothing; otherwise the log is open and marker, descriptor, size and generation agree with the directory; five temporaries suffice |
| RotatingLogs.RotatingLog.Recover | packages/daemon/src/anchor-log-trust.ts:291-329 | Decides from marker and files which renames already happened and performs the rest: the history only gains explained steps committed to what the directory was committed to, and the error cases are exactly `Refused` |
| AnchorLog.CrashesAreNotRefused | packages/daemon/src/anchor-log-trust.ts:291-329 | No directory a crash can leave behind is refused as ambiguous |
| RotatingLogs.FilesTellProgress | packages/daemon/src/anchor-log-trust.ts:298-325 | In every reachable mid-rotation state the current log and archive `.1` tell whether the log was renamed and the next one made, and the first free number is the place the shift has reached |
| RotatingLogs.FilesDetermineProgress | packages/daemon/src/anchor-log-trust.ts:298-325 | However a directory got to its mid-rotation state, the files alone determine how far the shift got, how many logs are linked and whether the next one exists |
| RotatingLogs.RotatingLog.Rotate | packages/daemon/src/anchor-log-trust.ts:331-353 | Dies before its first marker and changes nothing, or leaves the directory committed to the rotated state at every later step; uses exactly seven temporaries; refuses only at the largest safe generation |
| RotatingLogs.RotatingLog.Write | packages/daemon/src/anchor-log-trust.ts:355-375 | Ends for every chunk, and fails exactly if a call accepted nothing, if a rotation found no generation left, or if the process died in a rotation, which has fewer than `retained + 8` steps then; so with calls that accept something, rotations the process lives through and generations enough the whole chunk is accepted. It rotates exactly when the current log is full and more is to come; the stream grows by exactly the accepted prefix; every segment sealed on the way has exactly `rotationBytes` bytes; a segment is unlinked only when more than `retained` archives would stay |
| RotatingLogs.RotationSeals | packages/daemon/src/anchor-log-trust.ts:331-353 | A finished rotation adds one empty segment, leaves every other segment byte for byte as it was, and unlinks only beyond the bound |
| RotatingLogs.NothingBelowTheBoundIsLost | packages/daemon/src/anchor-log-trust.ts:331-353 | At whatever moment of a rotation a crash hits, the newest `retained` logs are still linked |
| RotatingLogs.SettledLayout | packages/daemon/src/anchor-log-trust.ts:331-353 | Outside a rotation the names are exactly the current log and archives without a gap, newest first |
| RotationSteps.RetainedIsSuffix | packages/daemon/src/anchor-log-trust.ts:331-375 | At every step, the archives oldest first followed by the current log are a suffix of all bytes ever written, and what is missing is whole oldest segments |
| RotationSteps.ReadDownIsRecent | packages/daemon/src/anchor-log-trust.ts:331-353 | Reading the numbered files from the highest down yields the linked segments in writing order, also in the middle of a shift |
| LogWorld.RunEvolves | packages/daemon/src/anchor-log-trust.ts:331-375 | In any run, any two moments are related as a reader needs it: segments only grow at the end, move only to higher numbers, stay unlinked once unlinked, and markers never go back |
| AnchorLog.LogOperation.Publish | packages/daemon/src/anchor-log-trust.ts:200-208 | Takes one prepared temporary, never runs out before fourteen (or seven) are used, and replaces the marker in one step or not at all |
| CrashRecovery.OpenStreams | packages/daemon/src/anchor-log-trust.ts:85-113 | Opening both streams registers their paths and fourteen temporaries and initializes both logs: it exceeds the 128 paths exactly from 54 retained files on, where the policy admits 32, never runs out of temporaries, and otherwise fails only by a crash or on a refused directory |
| LogPaths.LimitIsReachedAt54 | packages/daemon/src/anchor-log-trust.ts:85-97 | For the set of paths the source registers (targets of both streams, every directory above them, temporaries): within the limit exactly up to 53 retained files; a rotation with its seven temporaries for every count the policy admits |
| LogPaths.Registry.Register | packages/daemon/src/anchor-log-trust.ts:85-113 | Registering one by one, in any order and with repetitions, fails exactly if distinct files, distinct directories and temporaries together exceed the limit |
| CursorReader.ManagedLogStore.ReadCursor | packages/daemon/src/logs.ts:367-420 | Whatever is returned was read between two equal readings of the marker; unless flagged truncated it starts exactly at the caller's cursor, and the returned inode is the file of the returned generation; without a cursor, or with a lost one, it starts the read bound before the end of a size the returned file had meanwhile, and reads as far as its call gets; `rotated` says whether a rotation came in between. With a cursor of this log the only failure is that the log kept rotating through three attempts, and none occurs while nothing changes. A read that begins when the next log already exists under `shifted`, without a cursor or with one whose file it does not find, returns the number of one generation with the inode of the next |
| CursorReader.ManagedLogStore.Attempt | packages/daemon/src/logs.ts:378-415 | One attempt: any outcome a rotation can explain is retried, any other error is raised |
| CursorReader.ManagedLogStore.ReadRotatingCursor | packages/daemon/src/logs.ts:422-462 | The ascending scan cannot miss a file that moves up while it runs: not finding it means it was unlinked (with at least as many slots as the anchor keeps); finding it continues the stream exactly at the cursor |
| CursorReader.ManagedLogStore.ReadCursorGeneration | packages/daemon/src/logs.ts:464-548 | Reads from the segment the generation number names, across archives down to the current log, and delivers a contiguous stretch of the stream ending where the new cursor stands plus the held-back bytes; without a cursor, or with a lost one, from the tail of the current log; during a rotation it always flags truncation for a cursor the scan missed |
| CursorReader.ManagedLogStore.ChooseStart | packages/daemon/src/logs.ts:472-505 | Starts at the cursor unless flagged truncated; otherwise, and without a cursor, at byte max(0, size - bound) of the current log; a file that is not where the cursor's number says is never taken for its file; while nothing changes it always finds a start |
| CursorReader.ManagedLogStore.ReadTail | packages/daemon/src/logs.ts:367-548 | While nothing changes and with calls that get everything, a read without a cursor returns the last min(size, bound) bytes of the log but for an incomplete character, and the new offset plus what was held back is the size of the file |
| CursorReader.ManagedLogStore.ResolveRotationSnapshot | packages/daemon/src/logs.ts:778-806 | While the marker does not change, one of the two names always leads to the log of the marker's generation, unless the next log already exists under `shifted`, where the name chosen is slot 0 |
| CursorReader.ManagedLogStore.ReadIsSlice | packages/daemon/src/logs.ts:509-543 | The new offset is negative exactly if the character held back begins before the last segment read; otherwise the new cursor is valid and a read not flagged truncated is the slice of the stream from the old cursor to the new one |
| CursorReader.ManagedLogStore.BelowZeroIff | packages/daemon/src/logs.ts:509-543 | With some amounts of at least `least` bytes a call, where as many are left, the reader returns an offset below zero if and only if the marker is a plain number, the segment of the cursor is still linked within `retainedFiles`, and there is a place to stop (k bytes of a later segment, within the read bound) where what is held back began in an earlier segment; for every `least`, while nothing changes |
| CursorReader.ManagedLogStore.ReadStill | packages/daemon/src/logs.ts:367-548 | The reader itself, while nothing changes: for each sequence of amounts it returns an offset below zero, not flagged truncated, if and only if the cursor is in reach and the place these amounts make it stop in gives one; a cursor in reach is always answered, not truncated |
| CursorReader.ManagedLogStore.ReadBelowZero | packages/daemon/src/logs.ts:367-548 | From every such place: amounts with which the reader does return one |
| ReadExtents.MayFallInText | packages/daemon/src/logs.ts:509-543 | Over text such a place is one where a character torn by a rotation lies across the start of a segment and is not complete with the k bytes either |
| CursorReader.ManagedLogStore.WholeStartsSuffice | packages/daemon/src/logs.ts:509-543 | If every later segment begins at a character boundary, every read not flagged truncated resumes exactly, whatever happens during it |
| CursorReader.ManagedLogStore.OneSegmentResumes | packages/daemon/src/logs.ts:530-533 | A read that ends in the segment of its cursor always resumes exactly |
| CursorReader.ManagedLogStore.ChainedReadsAreConsecutive | packages/daemon/src/logs.ts:367-548 | Any number of reads, each with the cursor of the one before, with appends and rotations anywhere in between: together one stretch of the stream, no gap, no repeat |
| RotatingReads.ReadTorn | packages/daemon/src/logs.ts:530-533 | A run that opens an untouched directory and writes two bytes of a three-byte character through segments of one byte, which it does; every read from the first byte on that gets into the second segment returns offset -1 |
| RotatingReads.ReadTornThrough | packages/daemon/src/logs.ts:530-533 | And with no check failing by chance some read does get there, however many bytes a call is sure to get: finished, not truncated, nothing emitted, offset -1 |
| CursorPositions.PositionStays | packages/daemon/src/logs.ts:422-462 | A cursor names the same position of the stream for ever, whatever happens to its segment |
| CursorPositions.PlainNumberFreezesNames | packages/daemon/src/logs.ts:382-409 | Two readings of the same plain number enclose one unchanged set of names: no rename, unlink or creation in between |
| CursorPositions.PreparedIsSeen | packages/daemon/src/logs.ts:778-806 | That the daemon created the next log while the marker says `shifted` shows in the files: slot 0 is there and empty |
| CursorPositions.PreparedMidShiftMisnames | packages/daemon/src/logs.ts:778-806 | That situation is the only one in which the trusted name leads to the wrong log, as an if-and-only-if |
| RotatingReads.ReadAfterPreparing | packages/daemon/src/logs.ts:464-548 | From any steady directory: a rotation that dies after its last rename, the daemon preparing the log again, and a read without a cursor, which returns the number of the archived log with the inode of its empty successor |
| CursorPositions.OneGenerationEach | packages/daemon/src/logs.ts:446-457 | The generation 0 reported for a cursor that carries none is right exactly when its file is generation 0 |
| Utf8.CompleteUtf8PrefixLength | packages/daemon/src/logs.ts:819-830 | Computes the specification of the cut |
| Utf8.CutsAtLastBoundary | packages/daemon/src/logs.ts:819-830 | On the beginning of any well-formed text (RFC 3629) the cut is the last character boundary and at most three bytes are held back |
| Utf8.PiecesDecodeAsWhole | packages/daemon/src/logs.ts:819-830 | However a text is cut into reads, decoding the emitted pieces one by one equals decoding them joined |
| Utf8.WholeTextIsEmitted | packages/daemon/src/logs.ts:819-830 | With reads of m bytes a text is emitted as a whole in the end if and only if none of its characters is longer than m; four is always enough |
| Utf8.EmitsNothing | packages/daemon/src/logs.ts:819-830 | Exactly when nothing at all is emitted; a buffer of stray continuation bytes is such a case |
| ProcessJournal.SignalsHitTheirTarget | packages/daemon/src/process-supervisor.ts:680-746 | In every run every TERM and KILL directly follows an inspection that found the recorded process with all four identity fields, and no KILL goes out without an earlier TERM or ABORT in its operation |
| ProcessJournal.StoppedMeansGone | packages/daemon/src/process-supervisor.ts:775-791 | Every record that becomes STOPPED was preceded, in the same operation, by a look at its process group that found it absent |
| ProcessJournal.GoFollowsTheRecord | packages/daemon/src/process-supervisor.ts:547-573 | GO is sent only to a process recorded earlier in the same operation and, for a job, only after the job was bound to that record |
| ProcessJournal.LetGoIsAccounted | packages/daemon/src/process-supervisor.ts:331-398 | A run that leaves the active states without a cleanup flag is no stray if and only if its operation saw its group absent or its number in other hands |
| ProcessJournal.LeftoverGroupIsStray | packages/daemon/src/process-supervisor.ts:472-476 | A running record, leader absent, group present, recorded FAILED without the flag: a careful journal with a stray |
| ProcessJournal.LeftoverTaskIsStray | packages/daemon/src/process-supervisor.ts:586-594 | A launch that was recorded and sent GO and whose anchor then exits, recorded FAILED without the flag: a careful journal with a stray |
| Supervisor.ProcessSupervisor.Transition | packages/daemon/src/process-supervisor.ts:775-791 | Compare-and-set, as a whole: if something changes, the transition is possible and the row is still in the state the caller saw, the store holds the old row under the new state, flag and, for a final state, exit, and nothing else; a row that moved on is returned as it is; an impossible transition is refused; the journal records which. Lets nobody go unaccounted for |
| ProcessJournal.LegalIsForward | packages/core/src/state/sqlite-store.ts:2006-2017 | The transitions the store accepts are exactly those that move a run forward, from starting over running and stopping to its end, and how it ended is final |
| Supervisor.ProcessSupervisor.StopLocked | packages/daemon/src/process-supervisor.ts:680-746 | A stop is settled by its last looks: group gone, number in other hands, or one of the reasons to give up. Unless somebody else decided the record meanwhile, the store then holds what is reported: STOPPED or the ending of a task that had ended by itself, with its exit; STALE_IDENTITY; or FAILED with the flag. No stray arises |
| Supervisor.ProcessSupervisor.StopGroup | packages/daemon/src/process-supervisor.ts:689-735 | TERM, wait, KILL, wait: it gives up only on a look without an answer, a refused signal, a group without its leader, or a group that outlived the KILL; a KILL follows a TERM and a look at the group; nothing happens after a refusal, an impostor (but for one look at the group) or leader and group both gone |
| Supervisor.ProcessSupervisor.TerminateCleanupOwned | packages/daemon/src/process-supervisor.ts:824-848 | Succeeds exactly on a last look at an absent group or at another process under the number; gives up for the same reasons and as promptly as a stop |
| Supervisor.ProcessSupervisor.RecordExit | packages/daemon/src/process-supervisor.ts:748-773 | The row an exit leaves: STOPPED for a group seen gone and a requested or clean exit, FAILED otherwise, flagged exactly when the group was not seen gone, with the exit of the completion marker or else of the anchor unless a stop was under way; no stray arises |
| Supervisor.ProcessSupervisor.RecoverRecord | packages/daemon/src/process-supervisor.ts:331-398 | Unless somebody else decided the record, the store holds what is returned: a run that cannot be looked at, or whose group outlived its leader, FAILED and flagged; one that is gone FAILED exactly if it already was or its completion marker shows a failure, with that exit, else STOPPED; one whose number passed on stale; one alive under its own identity cleaned up if flagged and failed or never launched, stopped if a stop was under way, else RUNNING. No stray arises. The store refuses an answer exactly if the record was deleted meanwhile, or is a flagged STOPPED one unless leader and group are absent, or a flagged STALE_IDENTITY one unless another process has its number |
| Supervisor.ProcessSupervisor.Recover | packages/daemon/src/process-supervisor.ts:342-397 | Records are recovered in order, each under its own identity; recovery ends early exactly at a record the store refuses |
| Supervisor.ProcessSupervisor.ConfirmStopped | packages/daemon/src/process-supervisor.ts:274-281 | Confirms only on its own look at an absent group, and then the row is final and unflagged unless somebody else decided it; fails only if the record is gone, the group is not absent, or somebody else decided; no stray arises |
| Supervisor.ProcessSupervisor.StopRecord | packages/daemon/src/process-supervisor.ts:251-263 | An active run is stopped, a flagged one is cleaned up and loses its flag exactly on a further look at an absent group, any other is returned as it is; what the store holds afterwards, unless somebody else decided |
| Supervisor.ProcessSupervisor.Restart | packages/daemon/src/process-supervisor.ts:283-315 | The old run is stopped first, as `StopActive` and `StopLocked` say; a stop that fails prevents the start, and sends no GO; otherwise the answer is that of a spawn |
| Supervisor.ProcessSupervisor.Spawn | packages/daemon/src/process-supervisor.ts:504-625 | From spawn to RUNNING with rollback at every failure point and a crash possible between any two steps: GO reaches only a recorded, bound process, a job's process is bound only after its anchor, and the row then names that anchor and that process. If nothing goes wrong the run is started, unless another run of this owner is active, the job is bound already, the anchor was not seen twice as what it reported, or the record moved on; otherwise which answer is given is stated for each misfortune |
| Supervisor.ProcessSupervisor.RollbackSpawn | packages/daemon/src/process-supervisor.ts:627-655 | Succeeds if the anchor exits or is absent, or is killed and its group seen absent; fails only without an identity, on a look without an answer or at another process, on a refused signal or a group that outlives the KILL; KILL only after ABORT and a matching inspection |
| Supervisor.ProcessSupervisor.Start | packages/daemon/src/process-supervisor.ts:412-485 | At most three attempts, the last of which is decided or the answer is a conflict: a reservation leads to a spawn; a run seen alive under its own identity, whose task has not ended, is returned; a stop or another start under way, a look without an answer, a declined store or leftovers that could not be stopped refuse; anything else is retired first. For a job, GO went out only after the anchor and the record were bound |
| Supervisor.ProcessSupervisor.RetireAbsent | packages/daemon/src/process-supervisor.ts:472-476 | Where the start path retires a run whose leader is absent, the run is accounted for if and only if it was flagged already or its group was seen absent or its number in other hands |
| Supervisor.RetireLeftover | packages/daemon/src/process-supervisor.ts:472-476 | For a run an earlier start left RUNNING without the flag: accounted for exactly if the group is absent |
| Supervisor.ProcessSupervisor.AbandonLaunch | packages/daemon/src/process-supervisor.ts:586-618 | Cleaned only if the leader is gone, else the record keeps its flag or, without one, a flagged FAILED record is made; the run is accounted for if and only if the rollback did not rest on the exit or absence of the anchor alone, or the group had been accounted for before |
| KeyedLock.NeverTogether | packages/daemon/src/process-supervisor.ts:808-816 | Two running operations never share a key |
| KeyedLock.PromiseChains.Resume | packages/daemon/src/process-supervisor.ts:808-816 | An operation whose awaited promise is resolved is alone under its key, and operations begin in order of arrival |
| KeyedLock.PromiseChains.Leave | packages/daemon/src/process-supervisor.ts:808-816 | However an operation ends, its successor becomes the head of the chain, and the map forgets the key exactly if nobody is left |
| KeyedLock.HeldExactlyWhileUsed | packages/daemon/src/process-supervisor.ts:808-816 | The map holds a key exactly while an operation on it is running or waiting |
| KeyedLock.NobodyIsStuck | packages/daemon/src/process-supervisor.ts:808-816 | Every used key has an operation that runs or may run now |
| HeavyJobQueue.RunThroughCrashes | packages/daemon/src/heavy-job-queue.ts:149-385 | Any number of daemons, each recovering all runs first and dying anywhere, with exits, stops, starts and restarts in between: the journal stays careful, every job that was sent GO still runs or was released on record, pruned ones included, success was proved and nobody had asked to stop, the concurrency bound and one-job-per-worktree hold |
| ProcessJournal.SlotOutlivesTheProcess | packages/daemon/src/heavy-job-queue.ts:264-401 | A slot is released only if GO was never sent for the job, or the process group GO was sent to was seen absent in the releasing operation |
| HeavyJobQueue.Queue.Conclude | packages/daemon/src/heavy-job-queue.ts:397-401 | The one place where a slot is given up; it demands the evidence and may lose the race to a stop request or to a crash; the whole row it leaves, from the row the transaction found |
| HeavyJobQueue.Queue.Launch | packages/daemon/src/heavy-job-queue.ts:264-310 | A start is attempted exactly if the sources match, the time is not up, the queue is not closing and nobody had asked to stop when the row was read; otherwise no GO goes out and the job ends as asked, as timed out or as interrupted. A launch that gives the slot up again sent no GO at all, whichever of its exits it took |
| HeavyJobQueue.Queue.Fail | packages/daemon/src/heavy-job-queue.ts:285-309 | After a failed start the slot is given up if and only if the start proved that no process is left, no anchor is bound and no process is on record; otherwise the job is asked to stop and notes why |
| HeavyJobQueue.Queue.ReconcileMissing | packages/daemon/src/heavy-job-queue.ts:312-324 | Without a process record a job is ended if and only if it is unbound, its start did not leave the ownership open and a bound anchor's group was seen absent; otherwise it notes why not; the other jobs run on |
| HeavyJobQueue.Queue.ReconcileProcess | packages/daemon/src/heavy-job-queue.ts:325-365 | Returns at once exactly if nothing shows that the task ended and nobody wants it to; asks the supervisor to stop exactly if the group is there, a stop is wanted and none was asked for in the last five seconds; keeps the slot and notes the obstacle if the last look did not find the group gone; otherwise ends the job on its latest marker, by a stop reason only on its grounds, or reports that the end was not confirmed; the other jobs run on |
| HeavyJobQueue.Queue.Judge | packages/daemon/src/heavy-job-queue.ts:366-385 | The whole outcome of a job whose group is gone. Without a stop reason: INTERRUPTED if and only if a marker was unreadable since the last valid one or there is neither marker nor observed exit, SUCCEEDED if and only if the marker, or else the observed exit, shows exit 0, no signal, no timeout and no log failure (a job taken over from an earlier daemon needs the marker), FAILED otherwise; with one, the state and error of that reason. Exit code and signal are those of the marker, else of the observed exit, else none; the error accordingly |
| HeavyJobQueue.Queue.Flush | packages/daemon/src/heavy-job-queue.ts:149-178 | A pass that is not cut short polls every job that held a slot when it began, and then launches until nothing may be claimed or as often as there are slots |
| HeavyJobQueue.Queue.Prune | packages/daemon/src/heavy-job-queue.ts:403-414 | Deletes the finished jobs that are due, but none whose process is still active or flagged, and touches no other |
| HeavyJobQueue.Queue.GoMeansBound | packages/daemon/src/heavy-job-queue.ts:281-292 | GO for a job was only ever sent to the process its row names |
| JobStore.HeavyJobStore.Claim | packages/core/src/state/jobs-store.ts:111-139 | Fails the queued jobs that the memory policy can never admit and takes the oldest of the others, in one transaction, if and only if a slot is free, its worktree is idle and registered and memory admits it; an unregistered worktree ends the job; states the whole new table; keeps the concurrency bound |
| JobStore.FirstRequestCounts | packages/core/src/state/jobs-store.ts:147-155 | The first stop request counts: it ends a queued job at once and is noted on a running one; later ones, and one for a finished job, change nothing |
| JobStore.WhatFits | packages/core/src/state/job-memory.ts:12-21 | A queued job is fit exactly if its estimate is positive, within the budget, and leaves the reserve of a measured host alone; which of these it lacks is its error |
| JobStore.HeavyJobStore.Finish | packages/core/src/state/jobs-store.ts:164-178 | Ends a job once; a stop request committed before decides the recorded state, and success needs recorded evidence |
| JobStore.WhyClosed | packages/core/src/state/jobs-store.ts:164-178 | An error given for the reason that prevails is kept; one given for another outcome gives way to that reason's own, and a job somebody asked to stop always has one |
| JobStore.HeavyJobStore.BindProcess | packages/core/src/state/jobs-store.ts:140-142 | Binds a running job to one record, once and for ever |
| JobStore.HeavyJobStore.Meddle | packages/core/src/state/jobs-store.ts:71-195 | Requests running beside the queue leave every existing job alone or ask it to stop, delete it only if it is finished then, and add jobs only under new numbers, queued or cancelled before they ran |
| ReconcilerQueue.NothingIsLost | packages/daemon/src/reconciler-queue.ts:70-166 | In every interleaving every accepted signal is pending or in a batch that started after it |
| ReconcilerQueue.ReconciledIsQuiet | packages/daemon/src/reconciler-queue.ts:95-108 | Every signal ever accepted was in a later batch that has ended, if and only if nothing is pending and no run is under way |
| ReconcilerQueue.BatchesAreAccepted | packages/daemon/src/reconciler-queue.ts:141-151 | A batch holds only roots that were accepted |
| ReconcilerQueue.Queue.Schedule | packages/daemon/src/reconciler-queue.ts:70-79 | Accepts exactly while open; keeps the invariant that includes single flight and the timer's due time |
| ReconcilerQueue.Queue.FireTimer | packages/daemon/src/reconciler-queue.ts:127-133 | After the timer fired a run is under way or nothing is pending; the run takes everything; waiters are released exactly if the queue is idle then |
| ReconcilerQueue.Queue.DrainContinues | packages/daemon/src/reconciler-queue.ts:158-165 | The continuation of a run arms the timer for what arrived meanwhile, due at max(now, min(now + debounce, first signal + coalescing window)), and releases waiters exactly if the queue is idle then |
| ReconcilerQueue.Queue.ResolveIdle | packages/daemon/src/reconciler-queue.ts:168-176 | Waiters are released all together, and only at a moment when nothing is pending, running or armed; every method that may release any ensures the same |
| ReconcilerQueue.Queue.ResumeFlush | packages/daemon/src/reconciler-queue.ts:95-108 | A flush that leaves its loop has reconciled everything accepted so far, reports a run that went badly, and releases waiters exactly if the queue is idle; otherwise it awaits the run under way or starts one with everything pending |
| ReconcilerQueue.Queue.EndClose | packages/daemon/src/reconciler-queue.ts:115-125 | A finished close left everything reconciled, unless the flush it joined was already out of its loop with something not reconciled |
| ReconcilerQueue.Queue.BeginClose | packages/daemon/src/reconciler-queue.ts:115-125 | A close misses something if and only if it joins a flush that is out of its loop while something is pending or a run under way; it leaves idle waiters unresolved if and only if it joins one and finds only a leftover timer |
| ReconcilerQueue.Queue.BeginFlush | packages/daemon/src/reconciler-queue.ts:89-93 | A caller is stranded if and only if it joins a flush that is out of its loop while something is not reconciled |
| ReconcilerQueue.Queue.EndFlush | packages/daemon/src/reconciler-queue.ts:89-108 | In every interleaving, when a flush is over, all its callers that were not stranded have had their signals reconciled |
| ReconcilerQueue.JoinInTheGap | packages/daemon/src/reconciler-queue.ts:89-93 | Whatever the queue: a caller that joins in the gap between the end of the loop and the clearing of the promise is told so at once, and is served if and only if nothing was pending and no run under way |
| ReconcilerQueue.CloseInTheGap | packages/daemon/src/reconciler-queue.ts:115-125 | Whatever the queue: a close in that gap with no drain under way closes it with the same signals pending, no timer, no run and no flush; everything is reconciled if and only if nothing was pending |
| ReconcilerQueue.WaiterInTheGap | packages/daemon/src/reconciler-queue.ts:110-125 | A run in which such a close takes a leftover timer away and a waiter for idleness is never resolved although the closed queue is idle |
| ProcessTree.WalkWindowsTree | packages/daemon/src/process-anchor.ts:325-353 | Unless the process is its own descendant, terminates and returns the root, if present, and exactly its descendants along links whose child is not older, each once; also when the root has exited |
| ProcessTree.QuerySubtreeIsLeftOut | packages/daemon/src/process-anchor.ts:329-333 | What the query process started is left out with it, however long the chain of parents |
| ProcessTree.EndsExactly | packages/daemon/src/process-anchor.ts:343-351 | The walk, which keeps no visited set, ends if and only if the process is not among its own descendants |
| ProcessTree.DatesSuffice | packages/daemon/src/process-anchor.ts:343-351 | Known and different dates of parents and children rule that out |
| ProcessTree.ExitedSuffices | packages/daemon/src/process-anchor.ts:343-351 | So does the exit of the process itself |
| ProcessTree.WithoutDatesItNeverEnds | packages/daemon/src/process-anchor.ts:343-351 | Two processes without dates that name each other as parent: however many have been taken up, some are left |
| IdleRuntime.Suspender.Sweep | packages/daemon/src/idle-runtime.ts:117-155 | In every interleaving of touches, close and the clock, each stop of the sweep concerns an opted-in running task whose whole window passed since its last interaction, its start, and any sweep that found it without one, and the sweep returns exactly the runs whose stop ended STOPPED; if nothing else happens exactly the overdue runs are stopped, in order, a failed stop begins a new window, and every other window is as it should be; a sweep never runs on another |
| IdleRuntime.Suspender.StillIdle | packages/daemon/src/idle-runtime.ts:175-187 | The decision is checked again after the note: an interaction in between prevents the stop |
| IdleRuntime.FirstSightStartsWindow | packages/daemon/src/idle-runtime.ts:168-172 | A sweep that comes upon a run starts a window for it if and only if no interaction is on record, or the last one or the start is this very moment |
| IdleRuntime.Suspender.FirstSightIsKept | packages/daemon/src/idle-runtime.ts:160-172 | If the window began when a sweep first saw the run, every stop of it, in every interleaving, came a whole window after that |
| IdleRuntime.EarlyStop | packages/daemon/src/idle-runtime.ts:160-199 | Otherwise not, whatever the suspender and the policy: a run not seen before whose window on record began earlier is stopped, if nothing else happens, before a whole window has passed since the first sight; at once, or by a second sweep when that window is over |
| AdapterRegistry.DetectBuiltInAdapters | packages/adapters/src/registry.ts:45-95 | The greatest subset of the unambiguous adapters in which every requirement is provided by a member, in order; findings name exactly the dropped adapters, every contested capability with all its providers, and every requirement no candidate provides; at most one active provider per exclusive capability |
| AdapterRegistry.Round | packages/adapters/src/registry.ts:73-93 | A round of pruning drops somebody, and nobody who belongs to a closed set |
| DaemonStatus.RoundTrip | packages/cli/src/daemon-status.ts:133-135 | For every list of words the shell reads back exactly that list |
| DaemonStatus.FormatIsInjective | packages/cli/src/daemon-status.ts:133-135 | Different lists never print the same |
| DaemonStatus.UnquotedIffPlain | packages/cli/src/daemon-status.ts:133-135 | A word is printed as it is exactly if it is not empty and has plain characters only |

## Left out

- Ownership, permission, ACL and symbolic-link checks of log paths, and abort signals: a failing check aborts an operation, which is one of the crashes modelled.
- Disposal of unused temporaries.
- CursorReader.ManagedLogStore.ResolveRotationSnapshot: leaves out markers written before rotation had phases (`rotating-` without a phase), which no writer modelled here publishes; and in the prepared state under `shifted` the name is proved wrong instead of right.
- Appends of notes by the daemon and its own rotation without a marker (`#rotateIfNeeded`, `#shiftGenerations`).
- Archives with holes that no anchor produces: recovery is stated for directories a run can reach, its refusals for all directories.
- Wall-clock deadlines: how often each wait may look again before it gives up is an arbitrary function of the wait (`patience`), and so is the number of looks a launch has at its anchor.
- The reservation table behind `start` and `restart`: whether each reservation is granted, held by somebody else or can be released is a parameter of the attempt.
- Real spawning, pipes, signals and platform readers: their answers are arbitrary.
- How task exit, launch acknowledgement and completion markers are read from disk: their contents are arbitrary or parameters; what an operation read is in the journal.
- Errors thrown by reading such markers inside `recover`.
- Operations under different keys are interleaved through the record store only: within one operation its own events are consecutive.
- `recordExit` of the queue: exits may appear in its map at every await, with any content.
- How much memory is free when `claim` runs, registration of worktrees, source snapshots and fingerprints: arbitrary answers.
- The delay bookkeeping of the queue's timer, retention limits, and the request and response layer.
- Observer errors, and which error a flush rethrows: only whether it does is stated.
- DaemonStatus.RoundTrip: is about splitting into words; that a first word such as `FOO=bar` or `if` is not run as a command is outside it.
- `nextDaemonStatus`, command wiring, rendering, the HTTP proxy and overlay, configuration parsing: input and output, or easy single-branch claims.
- Nothing was executed; every statement is a proof about the model.
