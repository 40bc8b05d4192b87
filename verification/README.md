# Verification of persona

persona keeps a change set as one patch file and shows it as an overlay view of a repository. Its daemon
holds long-lived sessions: an upper layer that commands write into, a metadata file and the patch file.
This project models the parts whose correctness is hardest to see from the code, and proves what they
are for. Check it with `dafny verify dfyconfig.toml`.

## What is modelled

**Sessions that survive crashes** (`SessionModel`, `SessionSpec`, `SessionInvariant`, `SessionOps`,
`SessionRuns`, `SessionOutcomes`, `SessionProgress`, `SessionOpening`, `SessionAnswers`, `SessionChecksums`,
`SessionDamage`, `SessionExample`, `Daemon`). One session key,
from its first opening through any number of requests, kills and restarts. `SessionModel` is the world: metadata file,
patch file, roots with their upper layers, mounted masks, and the processes that may write. Every system call is an
effect that may fail, and a metadata or patch write may fail before or after its rename (`Fate`). Between any two
effects the other processes may write into the view, die, or change a base worktree. An oracle (`Choice` by tick)
makes all these decisions, so a statement for every oracle covers every failure and every interleaving.
Each effect leaves a snapshot in the log; a kill can happen at any snapshot. `Daemon.DaemonSession` has the
program's fields and methods, in the program's order; each method is proved equal, snapshot by snapshot,
to its function in `SessionSpec`. `SessionInvariant` states what always holds, `SessionOps` shows that
every operation keeps it, and `SessionRuns` draws the conclusions for all runs. `SessionProgress`, `SessionOpening` and
`SessionAnswers` say of every request exactly when it succeeds, in terms of the session, the processes and which
effects work, and what it then has done: what never goes wrong is safe only if the daemon also does its work. The content of a session changes
by authorised writes and, as a fault, when a damaged upper layer is reopened; both are entries of `World.written`.
`SessionExample` has tools that meet the laws asked of Git and OverlayFS (`PlainIsLawful`).

**Locking, draining and shutting down** (`Gates`). Any number of request, drain and close threads, as a
transition system over critical sections: the gate of each key, the flag `closing` that is looked at
before and after waiting for the gate, the polling drain, and the closer.

**Is a process group still alive?** (`ExecGroup`). The kernel as a timeline of process tables in which
processes fork, start threads, exit and are reaped between any two reads; `ProcFS` reads it as `/proc`
does. The scan is proved sound against every timeline, and an answer "alive" to have a cause.

**The patch engine** (`PatchText`, `PatchPaths`, `PatchValidator`, `PatchNames`, `PatchBlocks`, `PatchCreation`,
`PatchFilter`, `PatchParts`, `PatchGit`, `PatchApply`, `PatchPrint`, `PatchPrinted`, `PatchOnePart`, `PatchRoundTrip`,
`PatchModeless`, `PatchLosses`). Texts are byte strings (`string`, one character a byte). Loops of the program are
methods, proved against functions; what validation, splitting, the two-pass skip test and the retry after "already
exists" mean is proved about those functions. `PatchPrint` prints new text files in the form Git gives them, and serves
as the inverse of the parsers. Git is a function on whole texts (`PatchGit.Git`), of which three laws are asked. A patch
whose parts are its blocks, on different paths, is applied block by block or not at all (`Regular` says on the lines when
that is so: no `@@ -` line before the first header, and in each block a header of more than one line, its hunks, and no
further `@@ -` line). A block acts only at its paths, and looks only at, above and below them. A new file in Git's own form,
at a path Git takes, is made where nothing is in the way, and refused where it exists. `StandardOnlyLawful` shows tools
that meet these laws.

**Smaller pieces**: replacing a file through a temporary one (`AtomicWrite`, the reason for the three outcomes of
a write in `SessionModel.Fate`), the output buffer that notices one message across writes (`BoundedOutput`), the stack of
cleanup actions (`CleanupStack`), masks over ignored files (`Masks`), and metadata file names (`MetaNames`).

## What was found

Five statements one would expect do not hold of the code without a condition. In each case the model keeps
the code's behaviour, a lemma shows the run or the input that fails, and the exact condition is proved.

1. *A shutdown that reports success leaves a session that can be reopened.* When an acquire is rolled
   back although its metadata write did land (the directory sync failed after the rename), memory is clean
   and the file says dirty. Closing then removes the root without writing the file again, and the session is
   never opened again (`ShutdownCanStrand`, `StrandedForever`). It is recoverable if and only if the session
   was dirty in memory or the file already said clean with the right checksum (`ShutdownRecoverable`). No
   content is lost: the patch holds it.
2. *Clean metadata records the checksum of the patch on disk.* It does so at every instant of every run if and only
   if the first patch has the checksum of what the exporter writes for it (`ChecksumsExactly`; the condition is
   `SessionModel.InExportForm`). With any other first patch, an acquire that loses both its metadata write and the
   unmount after it is enough (`DoubleFaultMismatch`); without that double fault it holds for every first patch
   (`ChecksumsMatch`).
3. *Skipping a file that is there is the same as creating it.* There are three kinds of patches for which it is not. The
   filter drops what comes before the first `diff --git` line, but Git applies a part that it finds there: its change is
   lost and success is reported (`LeadIsLost` gives the patch, the tree and what Git makes of it; `HeadIsLost` covers
   every patch). A file that only `--- /dev/null` tells to be new is skipped when its content is there, but Git refuses it
   everywhere (`SkippedIsNotMade`). The same goes for a file at a path that Git does not take, such as `git~1`
   (`ShortNameIsLost`). For tools that meet the laws above, the filtered patch means what the full patch means without the
   skipped files if and only if the parts of the patch are its blocks, and every skipped block is a new file in Git's own
   form at a path the tool takes (`FilteredExactly`; `FilteredMeansSame` is the direction for a given tool). The laws leave
   other blocks open, and Git does make some of them: there the condition is on the safe side.
4. *A session whose daemon is killed while shutting down can be reopened.* Removing a session takes the base worktree
   away first and the root last. Killed in between, even a clean session with a worktree is locked out: a restart
   finds a stale root and asks for an explicit recovery, and the recovery refuses a root without its base directory
   (`KilledRemovalStrands`, `StrandedForever`; `RecoverExactly` says exactly what a recovery needs). No content is lost.
5. *A session killed while its root is being removed is never served from what is left.* This rests on the same order:
   without the base a dirty session is not reopened. But the cleanup stack goes on after a failed action, so when
   removing the worktree fails the upper layer is deleted all the same. After a kill at any instant of any run, every
   reopening before a write serves the content as it was if and only if dirty metadata does not name a root that still has
   its base and shows something else (`CutRemovalExactly`; the condition is `SessionInvariant.Harmful`). One late error of an
   acquire and one removal without its worktree are enough to get there (`HalfRemovalShown`). `World.exposed` notes a
   removal that does it; `CrashRecovery` excludes those after the kill, `OnlyWritesChange` those so far, and every other
   statement about runs none.

## Model

The contract of each method of `Daemon.DaemonSession` equates its new state, its answer and every instant on the way
with its function in `SessionSpec`; the rows say what that function does. The lemmas of the other
session modules are about those functions. In `SessionProgress`, `SessionOpening` and `SessionAnswers` the n-th effect of
a request works or fails as the oracle says at its n-th tick, and every success and refusal is an "if and only if".

| member | source | states |
|---|---|---|
| SessionRuns.RunKeeps | cmd/persona/daemon.go:966-1300 | Over any run of requests, each perhaps cut short by a kill between two effects, the invariant that ties view, patch, metadata, memory and authority together holds, also when a removal fails half-way and the cleanup goes on. |
| SessionRuns.InstantsAreGood | cmd/persona/daemon.go:1770-1823 | It also holds at every instant inside a request, not only between requests. |
| SessionRuns.ViewIsLastWrite | cmd/persona/daemon.go:1372-1432 | The view of an open session always shows exactly what the last change of the content left. |
| SessionRuns.OnlyWritesChange | cmd/persona/pathutil.go:27-47 | As long as no removal left dirty metadata naming a root that has its base and shows something else, the content changes only by authorised writes. |
| SessionRuns.CrashRecovery | cmd/persona/daemon.go:1372-1432 | Kill the daemon at any instant of any run, whatever went wrong before; if any later run reopens the session before anybody with authority wrote, the view is the one at the kill, whether it came back by replaying the patch or by reusing the upper layer. Only later runs with an exposing removal are excluded. |
| SessionRuns.EndedIsSaved | cmd/persona/daemon.go:1703-1768 | At every instant at which the metadata is absent or clean, replaying the patch gives the content of the last change. |
| SessionRuns.AuthorityIsMarked | cmd/persona/daemon.go:1003-1053 | No write authority without a durable mark: while a lease holder or an attached group may write, the metadata on disk is dirty and names it and its root, also during retries and other requests' writes. |
| SessionRuns.DiscardedWereSaved | cmd/persona/daemon.go:1251-1300 | Whenever an upper layer begins to be deleted (end, prune, shutdown, recovery, failed creation), replaying the patch of that moment gives what it held. |
| SessionRuns.OneLease | cmd/persona/daemon.go:1003-1008 | At most one lease is outstanding at any instant. |
| SessionRuns.GenerationsIncrease | cmd/persona/daemon.go:1032-1048 | Generations handed out by successive grants under one metadata file strictly increase, across restarts and in spite of rollbacks. |
| SessionRuns.StaleLeaseRefused | cmd/persona/daemon.go:1417-1431 | A release or attach that carries the view generation of an earlier incarnation is refused and changes nothing, even if the restore could not write its own metadata. |
| SessionRuns.RetryKeepsLease | cmd/persona/daemon.go:1003-1007 | Acquiring again with the same identifier and owner changes neither lease nor generation, and succeeds exactly when the metadata can be written. |
| SessionRuns.SnapshotsValidate | cmd/persona/daemon_metadata.go:72-118 | Every memory state ever reached passes the generation and execution-group clauses of the metadata validator. |
| SessionRuns.ChecksumsMatch | cmd/persona/daemon_metadata.go:48-53 | Whatever the first patch is, clean metadata records the checksum of the patch on disk unless an acquire suffered the double fault since the last good write. |
| SessionChecksums.ChecksumsExactly | cmd/persona/daemon_metadata.go:48-53 | Clean metadata records the checksum of the patch at every instant of every run, faults and kills included, if and only if the first patch has the checksum of what exporting it would write. |
| SessionOutcomes.DoubleFaultMismatch | cmd/persona/daemon.go:1036-1052 | The two requests after which a clean session, whose patch is not in export form, has clean metadata with another checksum over a patch that is still good. |
| SessionOutcomes.ReleaseSaves | cmd/persona/daemon.go:1112-1135 | A release that succeeds leaves the last content in the patch, clean metadata with its checksum, and nobody able to write. |
| SessionOutcomes.FlushSaves | cmd/persona/daemon.go:1703-1746 | So does a successful flush without a minimum age. |
| SessionOutcomes.EndSaves | cmd/persona/daemon.go:1748-1768 | A successful end leaves no session and no metadata, and the patch gives the last content. |
| SessionOutcomes.RefusedAcquire | cmd/persona/daemon.go:984-1055 | An acquire that fails leaves an open session idle without masks, or busy with every remaining mask recorded; a session that was idle before is as it was in memory or dirty and busy, and nobody may write. |
| SessionProgress.AcquireExactly | cmd/persona/daemon.go:984-1055 | An acquire of a session in the registry is refused outright with other options or once it is closed, does nothing more when its first metadata write fails, and is otherwise answered exactly as the next two rows say. |
| SessionProgress.IdleAcquire | cmd/persona/daemon.go:1010-1055 | An idle session is leased if and only if the options are the same, it is not closed, both metadata writes land and masking works. Then it is busy for that owner under the lease asked for, or a fresh nonempty one, the generation is the next one, dirty metadata on disk says so, and its grant is the only one outstanding and the last one issued. A failed masking or second write is undone exactly when the masks come off again; otherwise the session stays busy with them recorded. |
| SessionProgress.BusyAcquire | cmd/persona/daemon.go:1000-1009 | A busy session whose owner and group are gone is finished and leased anew if and only if the five effects of that work; otherwise only its holder, asking under its own lease, is told again, and for everybody else nothing changes. |
| SessionProgress.HolderWrites | cmd/persona/daemon.go:1053-1054 | Whoever holds a lease and lives can write, and the view shows what it wrote. |
| SessionProgress.ReleaseExactly | cmd/persona/daemon.go:1112-1135 | A release succeeds if and only if the session is open and busy under that lease, the view generation is 0 or the current one, the recorded group is gone, and export, unmounting and the metadata write work; the owner may live. It leaves the session idle, clean and recorded as such. Refused by one of the tests it changes nothing; when an effect fails the session is dirty, and busy exactly when a mask stayed. |
| SessionProgress.AttachExactly | cmd/persona/daemon_exec_lifetime.go:133-165 | A group is accepted if and only if lease and view generation are the current ones, no other group is recorded, it can be inspected, the owner lives and the metadata write lands; then it is on disk. A test that fails changes nothing. |
| SessionProgress.GroupWrites | cmd/persona/daemon_exec_lifetime.go:128-165 | A group that was accepted and lives can write. |
| SessionProgress.MarkDirtyExactly | cmd/persona/daemon.go:1172-1195 | Marking dirty succeeds if and only if the session is open and idle and the metadata write lands; then dirty metadata with the next generation is on disk. A closed or busy session is left as it is. |
| SessionOpening.RestoreExactly | cmd/persona/daemon.go:1372-1432 | A session is reopened from its metadata if and only if it can be (clean: its old root removed and the recorded checksum that of the patch; dirty: writers gone, no masks, its root there over the pinned base, no repository mode) and the effects work. It is then open and idle under the next view generation with its own numbers, in memory and on disk; when only the metadata write fails it is in the registry all the same. What cannot be reopened is left alone. |
| SessionOpening.LookupExactly | cmd/persona/daemon.go:1332-1348 | A session that is not in the registry is reopened so if there is metadata, and reported missing if there is none. |
| SessionOpening.EnsureExactly | cmd/persona/daemon.go:1302-1330 | A session in the registry is confirmed if and only if it is not closed, the options are the same and its metadata is written again; one that is not is reopened for the same options only, and created, with generation 0 and view generation 1, if and only if there is no metadata and both effects work. A creation that fails leaves no session, and no root if the root could be removed. |
| SessionOpening.AcquireOpens | cmd/persona/daemon.go:993-1055 | An acquire of a session not in the registry opens or creates it first, and then masking and one metadata write decide. |
| SessionOpening.RecoverOpens | cmd/persona/daemon_exec.go:219-293 | An explicit recovery leaves an open session alone, refuses without metadata, only looks in a dry run, and otherwise, when it succeeds, has opened the session under the next view generation. |
| SessionOpening.OpensFirst | cmd/persona/daemon.go:1137-1245 | Of a session not in the registry, changes, flushes, ends, prunes and listings do what they do of the session as it is looked up; releases and attachments are refused. |
| SessionAnswers.FlushExactly | cmd/persona/daemon.go:1703-1746 | A flush is refused while the session is closed or held; otherwise it succeeds if and only if a dead lease can be finished and the three steps of a save work, and the session is then clean, with the checksum of the patch on disk. Within the minimum age only the metadata is written. |
| SessionAnswers.EndExactly | cmd/persona/daemon.go:1748-1768 | An end is refused while the session is held; otherwise it succeeds if and only if finishing, saving (unless closed before) and both removals work, and then session, metadata and root are gone. |
| SessionAnswers.PruneExactly | cmd/persona/daemon.go:1220-1243 | A prune leaves a held session alone, finishes a dead lease of one that was used lately, and ends every other one exactly as an end does. |
| SessionAnswers.ListExactly | cmd/persona/daemon.go:1057-1107 | A listing leaves a held session alone and finishes a dead lease exactly when its three steps work. |
| SessionAnswers.CloseExactly | cmd/persona/daemon.go:1256-1299 | A shutdown forgets the session in every case. A held one keeps its root, patch and record; any other is finished or saved if it needs to be, and removed, if and only if all of that works. |
| SessionAnswers.CloseSaves | cmd/persona/daemon.go:1256-1299 | A shutdown without errors of a session with unsaved work has saved it durably before its root is gone. |
| SessionOutcomes.RecoverExactly | cmd/persona/daemon_exec.go:219-293 | An explicit recovery can succeed, and does whenever nothing fails, if and only if the recorded writers are gone and the data is there: for clean metadata the patch has the recorded checksum and a stale root still has its base, for dirty metadata the root is there over its unchanged base. |
| SessionOutcomes.ShutdownRecoverable | cmd/persona/daemon.go:1251-1300 | After a shutdown without errors the session is recoverable if and only if it was dirty in memory, or its metadata was already clean with the right checksum. |
| SessionOutcomes.ShutdownCanStrand | cmd/persona/daemon.go:1036-1052 | From any clean open session, one metadata error reported after the rename and then a shutdown leave dirty metadata without a root. |
| SessionDamage.CutRemovalExactly | cmd/persona/daemon.go:1501-1590 | Kill at any instant of any run, whatever removals were cut short: every later reopening before a write shows the present content, if and only if dirty metadata does not name a root that has its base and shows something else. |
| SessionDamage.HalfRemovalShown | cmd/persona/pathutil.go:27-47 | From any clean open session with a worktree: a late error of an acquire, one shutdown cut short that could not remove the worktree, and a recovery serve whatever is left of the upper layer. |
| SessionOutcomes.KilledRemovalStrands | cmd/persona/daemon.go:1501-1590 | Killing the shutdown of a clean session with a worktree between removing the worktree and removing the root leaves metadata that names a root without its base. |
| SessionOutcomes.StrandedForever | cmd/persona/daemon_exec.go:219-293 | A session stranded in either way is never opened again by any run, and its patch stays as it is. |
| SessionOps.DoKeeps | cmd/persona/daemon.go:966-1300 | Every single operation keeps the invariant, under every oracle. |
| SessionOps.FinishBusyKeeps | cmd/persona/daemon.go:1770-1803 | Finishing a lease keeps it, and success means saved and clean. |
| SessionOps.FlushLockedKeeps | cmd/persona/daemon.go:1703-1746 | Flushing keeps it; success without a minimum age means saved and clean. |
| SessionOps.AcquireKeeps | cmd/persona/daemon.go:984-1055 | Acquiring keeps it, through every failure path. |
| SessionOps.RestoreKeeps | cmd/persona/daemon.go:1372-1432 | Reopening keeps it: clean by replaying the patch into a new root, dirty in place over the unchanged base. |
| SessionOps.CreateKeeps | cmd/persona/daemon.go:1456-1691 | Creating keeps it, and a creation that fails to publish removes only what the patch already holds. |
| SessionOps.CloseOpKeeps | cmd/persona/daemon.go:1251-1300 | Shutting down keeps it. |
| SessionOps.RecoverKeeps | cmd/persona/daemon_exec.go:219-293 | Explicit recovery keeps it. |
| SessionInvariant.PersistKeeps | cmd/persona/daemon.go:887-933 | Writing metadata keeps the invariant whether it fails, lands late, or succeeds; on success the file is the memory state. |
| SessionInvariant.WritePatchKeeps | internal/patchio/patchio.go:264-293 | Replacing the patch keeps it in all three outcomes; success means the patch gives the view and the recorded checksum is its own. |
| SessionInvariant.RemoveRootKeeps | cmd/persona/daemon.go:1501-1590 | Removing a root whose content is saved keeps the invariant at every stage, base gone or left behind, upper layer half deleted, all gone, whichever stage it stops or is killed at. |
| AtomicWrite.Directory.Commit | internal/patchio/patchio.go:264-293 | A crash at any instant shows the old content or the new content in full; success means only the new one can show; an error leaves the old or the new file. It succeeds exactly when no call fails, and the temporary name is gone unless two calls failed. |
| AtomicWrite.Directory.WriteFileAt | internal/patchio/patchio.go:295-319 | The same from creating the temporary file on; a text over 16 MiB is refused and changes nothing. |
| AtomicWrite.SettledShows | internal/patchio/patchio.go:264-293 | After success a crash can show nothing but the new content. |
| Daemon.DaemonSession.Persist | cmd/persona/daemon.go:1434-1446 | Writes nothing unless the snapshot validates; leaves the old file, the new file with an error, or the new file; no field changes. |
| Daemon.DaemonSession.WriteSessionPatch | cmd/persona/daemon.go:1805-1823 | Leaves the old patch, the exported view with an error, or the exported view; the checksum field changes only in the last case. |
| Daemon.DaemonSession.FinishBusy | cmd/persona/daemon.go:1770-1803 | Saves, then unmounts, then clears lease and dirty mark, then persists; every failure leaves the session dirty, and busy as long as a mask is mounted. |
| Daemon.DaemonSession.RecoverBusy | cmd/persona/daemon.go:1693-1701 | Leaves a session with a live owner or group alone; otherwise it finishes the lease. |
| Daemon.DaemonSession.FlushLocked | cmd/persona/daemon.go:1703-1746 | Refuses a closed or busy session; marks dirty durably, exports, publishes clean; a recent flush is only recorded. |
| Daemon.DaemonSession.Restore | cmd/persona/daemon.go:1372-1432 | Refuses live writers, a stale root or a wrong checksum for clean metadata, a changed or missing base for dirty; registers the session before it persists the next view generation. |
| Daemon.DaemonSession.Create | cmd/persona/daemon.go:1456-1691 | A new session exists exactly when its first metadata write succeeded; otherwise its root is removed again. |
| Daemon.DaemonSession.Lookup | cmd/persona/daemon.go:1332-1348 | Finds the session in the registry, else reopens it from metadata, else reports that there is none. |
| Daemon.DaemonSession.Ensure | cmd/persona/daemon.go:1302-1330 | Refuses a closed session and other options; persists a known one, reopens or creates an unknown one. |
| Daemon.DaemonSession.AbortAcquire | cmd/persona/daemon_state.go:213-224 | Unmounts the given masks, or stays busy and dirty with nobody as owner and the masks recorded. |
| Daemon.DaemonSession.Acquire | cmd/persona/daemon.go:984-1055 | Ensures, recovers, then answers a retry by the same owner and lease, refuses a busy session, or masks and takes the lease. |
| Daemon.DaemonSession.TakeLease | cmd/persona/daemon.go:1024-1055 | Grants when busy, dirty and the next generation are on disk, and only then (`IdleAcquire` says what it grants); on failure it restores the old fields if the masks come off. |
| Daemon.DaemonSession.Attach | cmd/persona/daemon_exec_lifetime.go:133-165 | Accepts one live process group of the live owner under the current lease and view generation, and only once its identity is on disk. |
| Daemon.DaemonSession.Release | cmd/persona/daemon.go:1112-1135 | Refuses a wrong lease, a wrong view generation or a live group, and nothing else (`ReleaseExactly`); otherwise it finishes the lease. |
| Daemon.DaemonSession.MarkDirty | cmd/persona/daemon.go:1172-1195 | Refuses a closed or busy session; otherwise raises the generation and marks it dirty durably. |
| Daemon.DaemonSession.EndLocked | cmd/persona/daemon.go:1748-1768 | Saves unless already closed, marks closed, removes the root (going on when the worktree stays, and reporting it), then the metadata; a failed step can be retried. |
| Daemon.DaemonSession.Prune | cmd/persona/daemon.go:1220-1243 | Ends an idle session, after recovering a lease whose writers are gone. |
| Daemon.DaemonSession.List | cmd/persona/daemon.go:1057-1107 | Recovers a lease whose writers are gone and changes nothing else. |
| Daemon.DaemonSession.Recover | cmd/persona/daemon_exec.go:219-293 | Checks writers, then checksum, then unmounts, then drops a clean stale root, then reopens, in this order. |
| Daemon.DaemonSession.Close | cmd/persona/daemon.go:1256-1299 | Saves what is idle, preserves what is live or cannot be saved, removes a root only after a good save or when memory is clean, and forgets the session. |
| Daemon.DaemonSession.Handle | cmd/persona/daemon.go:966-1300 | Any request leaves exactly the state and the instants that the run theorems are about, and keeps the invariant. |
| Gates.MutualExclusion | cmd/persona/daemon_state.go:19-53 | In every reachable state at most one thread is inside the gate of a key. |
| Gates.OnlyInside | cmd/persona/daemon_state.go:19-53 | A session is opened, leased, ended or closed only by the thread inside its gate. |
| Gates.DrainIsComplete | cmd/persona/daemon_state.go:163-193 | After a drain that returned with nothing pending, no live owner holds a lease, now or in any later state, and no request works inside a gate except releases. |
| Gates.CloseIsComplete | cmd/persona/daemon.go:1251-1300 | After closing returned no session is registered, nor ever will be, whatever creations held or waited for a gate. |
| Gates.RequestGetsIn | cmd/persona/daemon_state.go:19-43 | From every reachable state a request gets through its gate to its work, after the thread inside went on and two acts of its own, if and only if the daemon is not closing or it is a release. |
| Gates.WaiterGetsToWork | cmd/persona/daemon_state.go:34-41 | The same for a request that was already waiting: one that is no release is turned away once the daemon is closing. |
| Gates.TryGetsIn | cmd/persona/daemon_state.go:85-108 | A listing that tries the gate once gets in exactly when nobody is inside and the daemon is not closing. |
| Gates.ReleaseGetsThrough | cmd/persona/daemon_state.go:160-163 | From every reachable state, closing or not, a release that is asked for ends the lease and leaves the gate. |
| Gates.DrainReturns | cmd/persona/daemon_state.go:163-193 | Once the gates are free and no live owner holds a lease, a drain returns by its own next pass. |
| Gates.DrainNeverWaits | cmd/persona/daemon_state.go:163-193 | In every state a drain finishes its next pass by its own acts, whoever is inside the gates, and can give up at its deadline. |
| Gates.CloseReturns | cmd/persona/daemon.go:1251-1300 | From every reachable state closing can come to its end. |
| Gates.WaiterGetsIn | cmd/persona/daemon_state.go:19-43 | In every reachable state a thread that waits for a gate has it after at most two acts of the thread inside and one of its own. |
| Gates.GateIsLeft | cmd/persona/daemon_state.go:19-43 | Whoever is inside a gate is out after at most two acts of its own, which move no other thread. |
| Gates.InvStep | cmd/persona/daemon_state.go:163-193 | Every step of every thread keeps what drains and closers have achieved so far. |
| ExecGroup.ProcFS.InspectExecutionGroup | cmd/persona/daemon_exec_lifetime.go:78-123 | "Dead and stable" implies that at the last read no member of the group can run; "alive" implies a failed read, a process of that group number that could run during the scan, or one whose number passed to a younger process; "unstable" implies that the counter moved. |
| ExecGroup.ProcFS.ExecutionGroupActive | cmd/persona/daemon_exec_lifetime.go:66-76 | Three tries; "not active" is never said of a group that can run, and "active" has one of these causes, or the counter moved during each of the three scans. |
| ExecGroup.ProcFS.ExecutionGroupAlive | cmd/persona/daemon_exec_lifetime.go:56-64 | "Not alive" implies that no member can run at any later time; "alive" has one of the same causes, so a group of unreaped zombies is let go. |
| ExecGroup.NoWriterEver | cmd/persona/daemon_exec_lifetime.go:53-55 | A group none of whose members can run stays so, under every event of the kernel. |
| ExecGroup.Shrinks | cmd/persona/daemon_exec_lifetime.go:114-117 | While the allocation counter stands still, members only exit. |
| ExecGroup.AllListed | cmd/persona/daemon_exec_lifetime.go:114-122 | With an unchanged counter, whoever could still run at the end had an entry in the listing. |
| PatchText.LinesOfJoin | internal/patchio/patchio.go:321-343 | Reading lines undoes joining them. |
| PatchText.LinesTidy | internal/patchio/patchio.go:321-343 | The lines read are the whole text, and only the last may lack its LF. |
| PatchText.CountExactly | internal/patchio/patchio.go:440-450 | A printed count is read back exactly when it fits in 63 bits. |
| PatchPaths.UnescapeGitPath | internal/patchio/patchio.go:780-833 | The index loop computes the unescaping function, octal runs and a final backslash included. |
| PatchPaths.UnescapeUndoes | internal/patchio/patchio.go:780-833 | Unescaping undoes every mixture of plain bytes, named escapes and three-digit octal up to 377. |
| PatchPaths.ReadQuotedToken | internal/patchio/patchio.go:739-761 | The scan loop finds the token of its specification, or none. |
| PatchPaths.QuotedTokenExact | internal/patchio/patchio.go:739-761 | For a printed token the scan returns exactly that token, and the rest without leading spaces. |
| PatchPaths.CheckPath | internal/patchio/patchio.go:895-923 | The scan reports the first forbidden component, in order. |
| PatchPaths.LegalExactly | internal/patchio/patchio.go:895-923 | A relative path is accepted if and only if no component is `.`, `..` or `.git` in any case. |
| PatchPaths.DiffHeaderPaths | internal/patchio/patchio.go:534-581 | The loop yields all ways to split the header, and gives up exactly when there are more than 64. |
| PatchPaths.HeaderInverts | internal/patchio/patchio.go:549-553 | The printed header of any path without a backslash, spaces and ` b/` included, decodes to that one pair. |
| PatchPaths.PathsAmongCandidates | internal/patchio/patchio.go:534-581 | The candidates of a header contain the two unescaped paths it was written for if and only if these are equal, or the header does not look like that of one path and has at most 64 splits. |
| PatchValidator.ValidatePatch | internal/patchio/patchio.go:345-418 | Accepts exactly the patches of at most 16 MiB whose every line is in order, and reports the first error otherwise. |
| PatchValidator.WalkPatchLines | internal/patchio/patchio.go:321-343 | Validates every line in order with the counters of the lines before it, and fails on a text that is too long. |
| PatchValidator.ValidateLine | internal/patchio/patchio.go:347-413 | One line, with the hunk counters before and after it; `BodyLineExactly`, `PrintedHunkOpens`, `RenameLineExactly`, `FileLineExactly` and `HeaderChecksBoth` say what that is for each kind of line. |
| PatchValidator.HeaderChecksBoth | internal/patchio/patchio.go:379-393 | When the header of a rename is accepted, both its paths are legal, unless the shortcut reads it as one path. |
| PatchValidator.HunkHeaderInverts | internal/patchio/patchio.go:425-453 | A printed hunk header, with any heading, parses to its own counts. |
| PatchValidator.HunksAreExact | internal/patchio/patchio.go:345-418 | In an accepted patch every hunk shows exactly as many old and new lines as its header declares. |
| PatchValidator.ExactHunksAreAccepted | internal/patchio/patchio.go:345-418 | Conversely, a header followed by exactly the lines it declares is accepted. |
| PatchValidator.BodyLineExactly | internal/patchio/patchio.go:349-374 | A body line is in order if and only if it is the note about the newline or its marker has a line left to stand for; exactly that is taken off. |
| PatchValidator.PrintedHunkOpens | internal/patchio/patchio.go:375-378 | Outside a hunk, a printed hunk header opens one with the counts it shows. |
| PatchNames.RenameLineExactly | internal/patchio/patchio.go:401-409 | Outside hunks, a line `rename from`, `rename to`, `copy from` or `copy to` is accepted if and only if the path it names, unquoted, is harmless: empty, the null device, or relative without a component `.`, `..` or `.git`. |
| PatchNames.FileLineExactly | internal/patchio/patchio.go:394-400 | The same for `--- a/` and `+++ b/` with a path written plainly, whatever follows it after a tab. |
| PatchNames.AcceptedNamesHarmless | internal/patchio/patchio.go:394-409 | In an accepted text none of these lines outside a hunk body names a forbidden path. |
| PatchNames.AcceptedHeadersHarmless | internal/patchio/patchio.go:379-393 | Nor does a header `diff --git`, on either side, unless the shortcut reads it as one path. |
| PatchValidator.BodiesByMarker | internal/patchio/patchio.go:349-374 | Replacing what follows the marker of a body line, at equal length and without line breaks, never changes the verdict. |
| PatchValidator.CompleteConcat | internal/patchio/patchio.go:345-418 | Complete patches can be put one after the other and taken apart again. |
| PatchBlocks.GroupsCover | internal/patchio/patchio.go:473-520 | The blocks in order are the input from its first header; each starts with its only header. |
| PatchBlocks.ExpectedSize | internal/patchio/patchio.go:648-686 | The first pass accepts exactly the creations and computes the size of their content. |
| PatchBlocks.MatchChunks | internal/patchio/patchio.go:709-715 | Comparing in chunks of 32 KiB is comparing the whole. |
| PatchBlocks.SameContent | internal/patchio/patchio.go:696-719 | The second pass succeeds exactly when the file is the content. |
| PatchBlocks.ShouldSkip | internal/patchio/patchio.go:624-719 | The two passes together are the simple test; if the file changes between them, a skip still means that what was read is the content. |
| PatchCreation.CreationIsHunks | internal/patchio/patchio.go:648-686 | A block counts as a creation if and only if it is a head without hunks followed by hunks that show no old line, exactly the declared added lines, and then only blank lines. |
| PatchCreation.HeadExactly | internal/patchio/patchio.go:583-622 | A block is binary, or new, if and only if a line after its header and before its body says so. |
| PatchCreation.OnlyNewText | internal/patchio/patchio.go:624-632 | Only a block that is new and not binary is ever skipped. |
| PatchFilter.FilterExistingNewFiles | internal/patchio/patchio.go:473-520 | The loop writes exactly the blocks that are not skipped, in order, and lists the paths of the others. |
| PatchFilter.FilteredAccepted | internal/patchio/patchio.go:473-520 | What is left of an accepted patch is accepted again and has exactly the kept lines. |
| PatchFilter.BodiesStartNoBlock | internal/patchio/patchio.go:345-374 | In an accepted patch no line of a hunk body is taken for a block header. |
| PatchFilter.AcceptedPathsLegal | internal/patchio/patchio.go:583-622 | Every block of an accepted patch has a legal path, so the skip test never refuses for the path. |
| PatchApply.FilteredMeansSame | cmd/persona/apply_patch.go:76-115 | When the parts of a patch are its blocks, on unrelated paths, and every skipped one is a new file in Git's own form at a path Git takes, applying the filtered text gives what the full text gives without the skipped files. |
| PatchApply.FilteredExactly | cmd/persona/apply_patch.go:76-115 | For a patch that is retried and whose filtered form can be applied, that equality holds with every lawful tool alike if and only if the parts are the blocks and every skipped block is of that form and taken. |
| PatchApply.HeadIsLost | internal/patchio/patchio.go:492-519 | When every block is there already and Git refuses the patch, success is reported and nothing changes, whatever stands before the first header. |
| PatchLosses.LeadIsLost | internal/patchio/patchio.go:492-519 | A patch and a tree, byte by byte: the full patch without the skipped file changes `f`, the retry succeeds without that change, though the only skipped block is in Git's own form. |
| PatchLosses.ShortNameIsLost | internal/patchio/patchio.go:895-923 | A new file `git~1` is legal in a patch and skipped when there; a tool with Git's test of paths never makes it. |
| PatchModeless.SkippedIsNotMade | internal/patchio/patchio.go:599-719 | A patch and a tree, byte by byte: both files are there with equal bits, the retry reports success, and the full patch without them is refused. |
| PatchModeless.ModelessDiffers | internal/patchio/patchio.go:599-719 | The same for any two files and any lawful tool that, like Git, refuses a new file without a mode. |
| PatchParts.FilteredText | internal/patchio/patchio.go:473-520 | The filtered text is accepted, begins with a header, and reads back as exactly the blocks that were kept. |
| PatchApply.ApplyPatchStore | cmd/persona/apply_patch.go:41-115 | Size limit, validation, first attempt on the whole text, filter and the decision to retry have the stated outcome. |
| PatchApply.AppliedMeaning | cmd/persona/apply_patch.go:41-115 | An empty patch changes nothing and one that is not accepted is refused; otherwise the answer is what the full text does on the tree, or, for a strict apply that met files that exist, without those files; failing both, the tree is as it was. Provided that the parts of a retried patch are its blocks and what was skipped is in Git's own form and taken. |
| PatchApply.RerunChangesNothing | cmd/persona/apply_patch.go:96-115 | A patch of new files in Git's own form, with no part before them, makes exactly those files, and applying it to its own result succeeds and changes nothing. |
| PatchGit.OwnResultSkips | internal/patchio/patchio.go:624-719 | After such a patch every one of its blocks is skipped, and without skipping it would fail. |
| PatchGit.KeptMeansSame | internal/patchio/patchio.go:473-520 | Block by block: the kept blocks do to the tree what all blocks do to the tree without the skipped files. |
| PatchOnePart.PrintedIsOnePart | internal/patchio/patchio.go:473-520 | A printed file is one part for Git: what is asked of a regular patch holds of it. |
| PatchPrint.PrintedIsComplete | internal/patchio/patchio.go:345-418 | A printed new file is accepted by the validator, whatever its content. |
| PatchPrinted.PrintedBlock | internal/patchio/patchio.go:583-622 | A printed file is read as the block of its path and mode, with or without an index line. |
| PatchPrinted.PrintedContent | internal/patchio/patchio.go:648-719 | Both passes find in it a creation of exactly its content, missing final newline included. |
| PatchRoundTrip.PrintReadsBack | internal/patchio/patchio.go:473-520 | Printed files split into one block each, with the printed lines. |
| PatchRoundTrip.PrintedBlocks | internal/patchio/patchio.go:583-719 | The block of each printed file is that file: path, content and executable bit. |
| PatchRoundTrip.PrintApplyRerun | cmd/persona/apply_patch.go:41-115 | Applying printed text at paths Git takes, with nothing in the way, adds exactly those files, and applying it again skips them all and leaves the tree alone. |
| BoundedOutput.WhereItLies | internal/gitx/git.go:802-824 | A message in the output lies before the new bytes, inside them, or within the overlap across the cut. |
| BoundedOutput.Output.Write | internal/gitx/git.go:802-824 | Keeps: the flag is set exactly when all that was written contains the message, and the buffer is its first 513 bytes. |
| BoundedOutput.Capture | internal/gitx/git.go:802-824 | For every way to cut the output into writes, the detector equals a search of the whole. |
| CleanupStack.Stack.Push | cmd/persona/pathutil.go:20-25 | Puts the action on top; no action is no change. |
| CleanupStack.Stack.Run | cmd/persona/pathutil.go:27-47 | Runs from the top down and compacts in place to exactly what the sweep leaves; the result is good exactly when nothing is left. |
| CleanupStack.SweepRuns | cmd/persona/pathutil.go:27-47 | One run tries every pending action once, last pushed first, and leaves exactly those that did not succeed, in push order. |
| CleanupStack.AlwaysGood | cmd/persona/mount_env.go:141-160 | From a new stack on, over all pushes and runs, no action runs again after it succeeded, and no root is removed while something is mounted below it. |
| Masks.MountTable.MaskIgnoredFiles | cmd/persona/mount_env.go:231-292 | However it ends, the result lists exactly the mounts it made; it fails only on a path it may not mask or a failed call, and otherwise every ignored path is masked, read-only where asked, or was found to be gone. |
| Masks.MountTable.UmountPathsReverse | cmd/persona/pathutil.go:176-190 | Tries every path; what could not be unmounted, and nothing else, stays mounted. |
| Masks.MountTable.MaskOrAbort | cmd/persona/daemon.go:1010-1016 | A failed masking followed by a good unmount leaves the mount table as it was. |
| MetaNames.DaemonSafeName | cmd/persona/daemon.go:1871-1888 | The loop computes the name function. |
| MetaNames.SafeExactly | cmd/persona/daemon.go:1871-1888 | A name is left as it is if and only if it is safe: 1 to 48 letters, digits, `_` and `-`, with no `-` at its ends. |
| MetaNames.EachCharacterCounts | cmd/persona/daemon.go:1871-1888 | No character of a key that begins and ends safely is lost: each one that is not safe becomes a dash in its place. |
| MetaNames.OwnFileIsValid | cmd/persona/daemon_metadata.go:55-70 | The scan of the state directory recognises the metadata file of every session key. |
| MetaNames.ValidFileIsOwn | cmd/persona/daemon_metadata.go:55-70 | It recognises no name that is not of this form. |

## Left out

- Git itself, OverlayFS, SHA-256 and `strconv.Unquote` are parameters. Git's diff and replay are inverse to each
  other, capturing and overlaying an upper layer likewise. Blocks that are not new files in Git's own form are left
  free apart from locality, and nothing is said of patches in which one block's path is another's or lies below it.
- Which paths Git takes is a parameter (`Git.takes`): names it refuses, names too long for the file system, places without
  permission. Content conversion by attributes, and patches that change attributes, are not modelled, nor are empty directories.
- The cleanup actions of a session are reduced to three stages: base worktree, upper layer, everything else. In
  repository mode, which has no worktree, the first stage stands for anything that makes the root unusable.
  What someone repairs by hand in a root is not modelled.
- Generations are unbounded; wrap-around after 2^64 acquires is not modelled.
- Metadata of older schemas (empty checksum or base), the content of the configuration, counters, time stamps,
  `lastError` and the list of initially ignored files. Equality of configurations and the comparison with the
  minimum flush age are inputs of a request.
- Reopening a dirty session of repository mode appears only as the refusal it is.
- Recorded external roots that do not match, foreign owner markers and mount inspection failures appear as
  refusals decided by the oracle.
- Writers that bypass leases. Processes that leave their group, reused start times and a wrapped PID counter.
- Lazy detach: taking a busy mount off always removes it from the table.
- The session model follows one key; `Gates` shows why requests of one key do not overlap and treats what happens
  inside a request as one or more updates of the registry.
- SessionOutcomes.ShutdownRecoverable: speaks of a session that is not already closed by an earlier `end`; one that is has no content to keep.
- PatchApply.ApplyPatchStore: attempts other than the strict one are an abstract outcome, and whether Git's message
  says "already exists" is an input.
- PatchBlocks.ShouldSkip: parent directories that are symbolic links and two spellings of one path are not modelled;
  white space around a mode is ASCII white space.
- PatchPaths.HeaderInverts: speaks of one path; for two different ones `PathsAmongCandidates` says when they are found.
- PatchValidator.HeaderChecksBoth: escaped and quoted paths are not covered.
- PatchNames.FileLineExactly: escaped and quoted paths are covered for renames and copies only (`RenameLineExactly`).
- PatchPrint.PrintedIsComplete: the printer leaves paths that need quoting aside.
- BoundedOutput.Capture: the reader of the child's output is replaced by a list of writes.
- Symbolic-link walking of patch paths, RPC, JSON, command line, hooks and diagnostics.
