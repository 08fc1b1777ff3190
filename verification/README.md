# A Dafny model of the nexus sandbox system

Nexus boots development sandboxes as virtual machines. A guest agent runs as PID 1 in each of them,
starts sessions, reaps children, buffers output and resizes disks; a host CLI prints the agent's
boot command line, binds sandboxes to herdr workspaces and reconciles the two. This project models
the parts where something can go wrong between two threads, two processes or two binaries, and
proves what they promise.

| files | what they model |
|---|---|
| Reaper, ReaperProof, ReaperLive, ReaperDelivery, ReaperSignals, ReaperReuse | the process protocol of the agent (spawners, one-shot helpers, the reap loop, sweeps): safety, progress, arrival of every exit code, lost and coalesced signals, and what PID reuse does |
| Ring, Stream | the output ring as a circular array over an append-only log, and its replay to reconnecting hosts |
| SessionTable | retention of exited sessions: TTL, byte budget, the two indices |
| Swap | the agent's hot-swap with rollback, every file-system call allowed to fail |
| Bindings, Prune, Sandboxes | the 1:1 binding store and the destructive two-pass reconciler |
| CreateProtocol, CreateOnce, CreateReuse, CreateEnds, CreateRace | the double-checked create and the process it runs, one sandbox for one handle, what a call leaves alone and comes to, how it fails, and the run that records two |
| Boot, Disks | the kernel command line printed by the host and parsed by the guest, and the disk-index calculus on both sides |
| Flags, CreateArgs, CreateFields, Names, Volumes | the `sandbox create` argument list across its process boundary, names and volume specs |
| Shell, Env | the remote command line, and the layers of a process environment |
| Brief, BriefBox | confirmed delivery of a brief, and when the verdict on it tells the truth about the input box |
| Tmpfs | the /tmp resizer |
| Text, Options, Paths | Go's string functions, optional values, and runs of a step relation |

Concurrent code is a state machine: one step is one critical section or one call that may fail, and
a run is a sequence of states in which each follows from the one before. Code that updates fields
is a class, code that loops is a method, and each is proved against a function of values about
which the promises are then proved.

Where the code and its comments disagree, the code is modelled:

- `parseWorkspaceMountArg` splits into seven fields; the comment above it describes six.
- `handleDiskGrow` admits index 25, whose device `/dev/vd{` no telemetry ever reports (`Disks.GrowGuard`).
- The lock-file name is called collision-free, and is not (`CreateProtocol.LockNamesDistinct`, exact
  condition in `CreateProtocol.LockNamesCollideIff`); the protocol is safe regardless.
- The lock, the re-check under it and the create's own refusal of a taken handle are to make calls for
  one handle converge on one sandbox. The create is a process of its own, which a call that is killed
  leaves running, while its lock, closed on exec, goes: then two sandboxes of one handle can be recorded
  (`CreateRace.CreatedTwice`, from every such state by `CreateRace.OrphanOverlaps`). Where no call dies
  over a pending create they do converge (`CreateOnce.NeverTwo`, `CreateOnce.SecondCreateIff`).
- The second pass of space-prune says it mirrors the first pass's refusal of an empty workspace
  list. The first counts entries with an ID, the second counts entries (`Prune.BlankListStillSweeps`,
  exact condition in `Prune.BlankIsHonouredIff`).
- Whether a sandbox has a scratch disk is decided in three places. The CLI's answer picks the disk
  the guest reformats (`Disks.WipesMountedIff`); it differs from the service's exactly as
  `Disks.ScratchAgreesIff` says. `Disks.VolumeIsWiped` is such a plan, with NoScratchDisk, which nothing
  but tests sets; on what `sandbox create` asks for they agree (`Disks.CreateAgrees`). The supervisor's
  answer is wrong for a live workspace mount (`Disks.LiveWorkspaceIsMissed`, exact condition in
  `Disks.SupervisorAgreesIff`).
- The verdict on a brief is to say whether the input box still holds it. In a rule-delimited box only
  prompt lines are read, so text below the prompt passes for none (`BriefBox.BelowThePrompt`, exact
  condition in `BriefBox.RuledIsTrueIff`). A cornered box is judged by its chips and by what the last
  two rules of the viewport enclose: typed text passes for none (`BriefBox.CornerIsBlind`), and a
  prompt between two rules above an empty one makes it stranded, where the comment says such boxes
  are exempt (`BriefBox.EmptyCornerReadsStranded`; exact condition in `BriefBox.CorneredIsTrueIff`).
- The rollback of the hot-swap restores the old binary only if the backup rename worked; otherwise
  a stale backup may be installed (`Swap.StaleBackupRestored`, exact condition in `Swap.RollbackRestoresIff`).
- Clearing a workspace ID reads outside the lock, so an update between its read and its write is
  lost (`Bindings.ClearLosesBackfill`, exact condition in `Bindings.ClearIsAtomicIff`).
- An override whose key contains `=` does not do what `mergeEnv` says, and then the iteration order
  of the map shows (`Env.OrderMatters`, exact condition in `Env.OverridesIff`).
- A /tmp whose cap cannot be read is treated as empty and may be shrunk; `Tmpfs.ShrinksIff` says when. /tmp is to be
  half the memory, clamped; at totals so large that the percentage wraps round it is not, and more memory may then mean
  a smaller /tmp (`Tmpfs.WrapsToFloor`, exact condition in `Tmpfs.MonotoneIff`).
- Sanitising a handle is said to collapse consecutive hyphens. It collapses runs of illegal characters; hyphens that
  are typed stay (`Names.SquashKeepsRuns`).
- After a failed write the data plane still attempts the exit frame, with the initial code 0 if the
  session has not exited; whether it gets out is up to the connection (`Stream.EarlyExit`, exact condition in `Stream.BrokenExitIff`).
- Exit codes are routed by PID, and an exited session keeps its PID until it is swept: if the
  kernel reissues it, a child's code is lost (`ReaperReuse.ReuseLosesCode`).

## Model

| member | source | states |
|---|---|---|
| `ReaperProof.StepKeepsInv` | cmd/nexus-agent/session.go:96-222 | every step of every thread keeps the protocol invariant: lock ownership, both indices, the kernel's process table, routing, recorded wakeups |
| `ReaperProof.RunKeepsInv` | cmd/nexus-agent/agent.go:97-160 | the invariant holds in every state of every run |
| `ReaperProof.ExactlyOnce` | cmd/nexus-agent/session.go:96-169 | once a registered child has died with a code, its own channel carries nothing before the report and exactly that code ever after, and a receiver has received that code |
| `ReaperProof.NeverDiscarded` | cmd/nexus-agent/session.go:137-155 | notifyExit throws away only codes of children nobody registered, never hits a full channel, and sends a code only to the job whose child died |
| `ReaperProof.DrainLeavesNoZombie` | cmd/nexus-agent/agent.go:97-115 | every child that was a zombie when the reap loop woke is reported when that one drain ends, whatever signals were dropped or coalesced |
| `ReaperProof.RunReports` | cmd/nexus-agent/agent.go:134-160 | whenever the reap loop sleeps, all that its last wakeup found has been reported |
| `ReaperProof.LockOrder` | cmd/nexus-agent/session.go:106-116 | no thread takes spawnMu while it holds mu, exclusively or shared |
| `ReaperLive.NoDeadlock` | cmd/nexus-agent/session.go:96-169 | in every state of every run with a lock held or the loop awake, the very thread in the way can step: the holder or a reader of mu, else the holder of spawnMu, else the woken loop |
| `ReaperLive.LocksAreReleased` | cmd/nexus-agent/session.go:96-222 | from every state of every run, whichever steps the threads in the way take, the agent is at rest within a number of them computed from the state: every held lock is released |
| `ReaperLive.WorkGrowsIff` | cmd/nexus-agent/agent.go:97-160 | a step raises that number if and only if it is a wakeup, a request for either lock (by a spawner, a reader or a sweep after an exit), or a death while the loop is awake |
| `ReaperDelivery.ReaderMovesIff` | cmd/nexus-agent/childexec.go:30-52 | a reader whose spawn has returned can move exactly when its channel holds a code, and receives that code; of sessions and one-shots alike |
| `ReaperDelivery.CodeArrives` | cmd/nexus-agent/childexec.go:30-52 | from every state of every run in which the child of a session or one-shot has died and its code was not received, the threads in the way, the ticker and the reader, whichever steps they take and with no new request or death, bring that code to its reader within a number of steps computed from the state |
| `ReaperDelivery.MarksExitIff` | cmd/nexus-agent/control.go:181-219 | a session's reader marks the exit exactly once it has the code |
| `ReaperDelivery.SweepsAfterExitIff` | cmd/nexus-agent/control.go:181-219 | and then sweeps exactly when the table lock is free |
| `ReaperDelivery.SessionIsRetired` | cmd/nexus-agent/control.go:181-219 | from there it is marked exited and has swept within a number of steps computed from the state, whatever the holders of the lock do |
| `ReaperSignals.WakeIff` | cmd/nexus-agent/agent.go:134-160 | the sleeping loop is woken exactly by a pending signal, or by the ticker at any time |
| `ReaperSignals.LetInIff` | cmd/nexus-agent/session.go:96-222 | a reader of the table is let in exactly when nobody holds the lock exclusively, a spawn exactly when spawnMu is free |
| `ReaperSignals.SignalIsKept` | cmd/nexus-agent/agent.go:134-160 | a death the kernel signals leaves a wakeup pending until the loop takes one, whatever happens in between |
| `ReaperSignals.WakeupsAreRaised` | cmd/nexus-agent/agent.go:134-160 | signals coalesce and never multiply: over any run the loop is woken by a signal at most as often as one was raised |
| `ReaperReuse.RetainedIsReached` | cmd/nexus-agent/session.go:96-222 | the agent itself reaches a state in which an exited session retains its PID, from its start and under the hypothesis |
| `ReaperReuse.ReuseMisroutes` | cmd/nexus-agent/session.go:137-155 | from every such state the PID may be reissued to a one-shot, whose code then goes to the old session and never to the one-shot |
| `ReaperReuse.ReuseDiscards` | cmd/nexus-agent/session.go:179-222 | reissued to a session, the sweep of the old one deletes the new one's PID entry and its code is discarded as an orphan's |
| `ReaperReuse.ReuseLosesCode` | cmd/nexus-agent/session.go:137-155 | so without the hypothesis on PID reuse there are whole runs, for one-shots and for sessions, in which a registered child's code never reaches its channel |
| `Ring.Ring.constructor` | cmd/nexus-agent/ring.go:28-32 | an open ring that stands for the empty log |
| `Ring.Ring.WriteByte` | cmd/nexus-agent/ring.go:40-49 | one turn of the write loop: the circular buffer holds the last bytes of the log extended by one |
| `Ring.Ring.Write` | cmd/nexus-agent/ring.go:35-53 | the log grows by exactly the written bytes; used is min(total, cap) and the held bytes are its last ones, in order |
| `Ring.Ring.Close` | cmd/nexus-agent/ring.go:56-61 | closing keeps every byte |
| `Ring.Ring.OldestLocked` | cmd/nexus-agent/ring.go:117-122 | the offset of the oldest byte held |
| `Ring.Ring.SnapshotLocked` | cmd/nexus-agent/ring.go:97-115 | exactly the log slice from max(offset, oldest), at most 64 KiB, across the wrap-around, and the offset after it |
| `Ring.Ring.WaitNext` | cmd/nexus-agent/ring.go:84-93 | the same slice, with the closed flag, once there is something to wait for |
| `Ring.Ring.StreamClosed` | cmd/nexus-agent/dataplane.go:146-160 | over a closed ring the streaming loop ends, having sent the log from the requested or oldest offset to the end, nothing twice |
| `Stream.RunKeepsInv` | cmd/nexus-agent/dataplane.go:38-142 | in every interleaving of feeders, waiter and connections, what a connection sent is a list of strictly increasing log slices that skip evicted bytes only, and without a write failure its exit frame, like an exited handshake, carries the delivered code |
| `Stream.NoWriteAfterClose` | cmd/nexus-agent/control.go:181-219 | once the ring is closed, the log never changes again |
| `Stream.ExitIsLast` | cmd/nexus-agent/dataplane.go:63-87 | a connection without write failures sends Exit only after every byte up to the final total, and with the code setExited stored |
| `Stream.CodeIsFinal` | cmd/nexus-agent/session.go:61-66 | the stored exit code is the delivered one and never changes; before it is stored it is 0 |
| `Stream.AckIff` | cmd/nexus-agent/dataplane.go:63-77 | over every run, a connection is acked as exited exactly if the exit was stored before it connected, with the delivered code, else as alive, and the ack never changes |
| `Stream.TurnIff` | cmd/nexus-agent/dataplane.go:146-160 | a connection can take a turn exactly when there is something to read or the ring is closed, and can send its exit frame exactly when it has drained or broken |
| `Stream.WaiterIff` | cmd/nexus-agent/control.go:181-219 | the waiter receives exactly when all feeders are done and the code is there, and then stores code, flag and close in that order |
| `Stream.OpenIff` | cmd/nexus-agent/dataplane.go:38-77 | hosts connect at any time, exited sessions included; feeders write while they last; a code is delivered once |
| `Stream.ConnectionEnds` | cmd/nexus-agent/dataplane.go:146-160 | once the ring is closed, every connection ends within a number of its own turns computed from the state, whether or not its writes succeed |
| `Stream.ReconnectResumes` | cmd/nexus-agent/dataplane.go:146-160 | a host that reconnects where its last connection stopped has, over both, one contiguous piece of the log |
| `Stream.KeepingUpIsExact` | cmd/nexus-agent/ring.go:84-115 | over a whole run, a connection the ring never outruns by more than its capacity has been sent exactly the log from the offset it asked for, up to its cursor |
| `Stream.FallingBehindSkips` | cmd/nexus-agent/ring.go:97-115 | one further behind skips to the oldest byte held |
| `Stream.ClosedStreamEnds` | cmd/nexus-agent/dataplane.go:146-160 | after Close every turn ends the loop or brings the cursor closer to the end |
| `Stream.AheadIsRewound` | cmd/nexus-agent/ring.go:97-115 | a cursor moves back exactly when it asked for more than the total, and then sends nothing |
| `Stream.BrokenExitIff` | cmd/nexus-agent/dataplane.go:63-87 | the exit frame of a broken connection carries the child's final code exactly when that code was already stored or is 0 |
| `Stream.EarlyExit` | cmd/nexus-agent/dataplane.go:63-87 | a run in which it carries 0 and the child exits with any code |
| `SessionTable.SortByExit` | cmd/nexus-agent/session.go:211-213 | the retained sessions, ordered by exit time, the same ones |
| `SessionTable.Table.SweepExited` | cmd/nexus-agent/session.go:179-222 | no running session is evicted, none past the TTL is kept, the rest is within the byte budget, budget evictions are the oldest and one fewer would exceed the budget, and both indices agree |
| `SessionTable.Table.EvictExpired` | cmd/nexus-agent/session.go:184-198 | exactly the expired sessions go, from both indices, and the other exited ones are listed once each |
| `SessionTable.Table.EvictOverBudget` | cmd/nexus-agent/session.go:200-221 | the oldest exited sessions go until the rest fits, and no more |
| `SessionTable.Table.Add` | cmd/nexus-agent/session.go:96-102 | the new session joins both indices and the table is swept |
| `SessionTable.Table.MarkExited` | cmd/nexus-agent/session.go:61-66 | both indices see the exit |
| `Swap.Machine.PerformSwap` | cmd/nexus-agent/swap_linux.go:140-215 | each of the seven outcomes has its exact condition on files and faults; exec is attempted exactly when the staged binary is there with the announced size and nothing before fails, and then sees that file, executable; early errors leave the file system untouched, late ones roll it back |
| `Swap.RollbackRestores` | cmd/nexus-agent/swap_linux.go:165-215 | if the backup and the rollback rename work, every late error leaves the old binary installed |
| `Swap.RollbackRestoresIff` | cmd/nexus-agent/swap_linux.go:165-215 | exactly which faults and files leave the install path as it was after a late error |
| `Swap.StaleBackupRestored` | cmd/nexus-agent/swap_linux.go:165-215 | without the backup rename, a stale backup becomes the installed binary |
| `Bindings.Store.Put` | internal/cli/cmd_herdr_space.go:175-195 | bindings conflicting on either key go, the new one is appended, uniqueness is kept, a fault changes nothing |
| `Bindings.Store.Delete` | internal/cli/cmd_herdr_space.go:351-369 | the labelled binding goes or NotFound, uniqueness is kept, a fault changes nothing |
| `Bindings.Store.BackfillRepoRoot` | internal/cli/cmd_herdr_space.go:290-348 | all or nothing: every empty repo root with a known workspace is filled and the count is of real changes |
| `Bindings.Store.ClearWorkspaceID` | internal/cli/cmd_herdr_space.go:386-393 | whatever other processes do between its unlocked read and its put: the binding it read is written back without its workspace ID, conflicting ones go, uniqueness is kept, and a fault or a missing label writes nothing |
| `Bindings.Store.GetByLabel` | internal/cli/cmd_herdr_space.go:198-212 | the first binding with the label, or none |
| `Bindings.Store.GetByHandle` | internal/cli/cmd_herdr_space.go:215-229 | the first binding with the handle, or none |
| `Bindings.RunKeepsUnique` | internal/cli/cmd_herdr_space.go:170-195 | labels and handles stay unique over any run of puts, deletes and backfills |
| `Bindings.PutThenGet` | internal/cli/cmd_herdr_space.go:175-229 | a put is read back under its label and under its handle |
| `Bindings.PutKeepsOrder` | internal/cli/cmd_herdr_space.go:175-195 | every non-conflicting binding survives a put, in the order it had |
| `Bindings.BackfillIsSafe` | internal/cli/cmd_herdr_space.go:290-348 | a backfill touches only empty repo roots, never a key, fills them from the list, and is idempotent |
| `Bindings.ClearIsAtomicIff` | internal/cli/cmd_herdr_space.go:386-393 | the unlocked read of a clear is harmless exactly when the stored binding is still the one read, up to the workspace ID |
| `Bindings.ClearLosesBackfill` | internal/cli/cmd_herdr_space.go:386-393 | otherwise an update in between is lost: a backfilled repo root is emptied again |
| `Prune.Host.Close` | internal/cli/cmd_herdr_plugin.go:1896-1911 | closing a workspace without an ID is a successful no-op; any other close succeeds, and is recorded, exactly if its call does not fail |
| `Prune.Settle` | internal/cli/cmd_herdr_plugin.go:2137-2170 | a binding may go only after its VM was reaped, if it is to be, and its workspace closed; nothing else happens if the reap fails; if no call fails, all of it happens, in order |
| `Prune.Reconcile` | internal/cli/cmd_herdr_plugin.go:2118-2177 | one stale binding: cleared, dropped after settling, or retained unchanged; everything done on the way is caused by that binding; if no call fails it is cleared or dropped, never retained |
| `Prune.ReconcileAll` | internal/cli/cmd_herdr_plugin.go:2116-2178 | over all stale bindings: each accounted for, others untouched, the count equals the bindings really gone or cleared; if no call fails, every one is gone or cleared, all that is owed for it was done, and the count is their number |
| `Prune.SweepOrphanWorkspaces` | internal/cli/cmd_herdr_plugin.go:2191-2241 | closes only "nexus:" workspaces no binding names by ID, and exactly those with an ID, in order, if no call fails; a failed read closes nothing |
| `Prune.MountShapeOf` | internal/cli/cmd_herdr_plugin.go:2395-2432 | exactly one checkout, exactly one git common directory, and not the main checkout |
| `Prune.AfterLastSlash` | internal/cli/cmd_herdr_plugin.go:1404-1409 | the display label's tail: what follows the last slash |
| `Prune.Classify` | internal/cli/cmd_herdr_plugin.go:2474-2529 | a sandbox is collectable if and only if all four guards clear, stated as quantified conditions |
| `Prune.SweepBindingless` | internal/cli/cmd_herdr_plugin.go:2543-2574 | removes only collectable sandboxes, and exactly those, in order, if no call fails; counts the collectable and the really removed; removes none in a dry run |
| `Prune.BindinglessStep` | internal/cli/cmd_herdr_plugin.go:2586-2637 | an unreadable or empty workspace list, or an unreadable sandbox list, removes nothing; otherwise, if no call fails, exactly the collectable sandboxes go |
| `Prune.PruneBindings` | internal/cli/cmd_herdr_plugin.go:2071-2183 | pass one: dry run changes nothing; otherwise every candidate is accounted for by what was done before the orphan sweep, and every event has its cause; if no call fails, every stale candidate is dealt with and every orphan closed |
| `Prune.UnderstoodOnly` | internal/cli/cmd_herdr_space.go:437-485 | a workspace list that is unreadable or carries no ID reaps no binding |
| `Prune.FateIff` | internal/cli/cmd_herdr_space.go:437-485 | what becomes of a binding, by quantified conditions on the lists alone: it is stale if and only if its sandbox is known to be missing or its workspace known to be gone; reaped, or cleared, if and only if the sandbox may exist and the workspace is gone, and it is worktree-managed, or not |
| `Prune.SettlingIff` | internal/cli/cmd_herdr_plugin.go:2137-2170 | what is done for a stale binding is everything it may cause, and nothing else |
| `Prune.CheckoutsIff` | internal/cli/cmd_herdr_plugin.go:2395-2432 | a checkout is an absolute host path mounted at /workspace |
| `Prune.CommonsIff` | internal/cli/cmd_herdr_plugin.go:2395-2432 | a common directory is an absolute host path mounted at the same guest path, and passes the probe |
| `Prune.LabelRefers` | internal/cli/cmd_herdr_plugin.go:2474-2529 | a workspace labelled with a sandbox's name, with or without the project, refers to it |
| `Prune.SpacePrune` | internal/cli/cmd_herdr_plugin.go:1947-2030 | over a whole run, in its order (stale bindings, orphan workspaces, sandboxes without a binding): a sandbox is removed only for a worktree-managed binding with the sandbox present and the workspace gone, or when no binding of the snapshot knows it and all guards clear; unreadable or empty lists remove none; dry runs and refusals change nothing; a binding goes only after its sandbox was reaped, if it is to be, and its workspace closed, before any sweep, and failures keep it; no binding appears that was not there, or there with its workspace ID; the count is exact; and if no call fails, every stale candidate is gone or cleared with all that is owed for it done and counted, every orphan workspace is closed and exactly the collectable sandboxes are removed |
| `Prune.BlankIsHonouredIff` | internal/cli/cmd_herdr_plugin.go:2601-2613 | a list whose entries all lack an ID removes nothing in pass two exactly when it is empty or its entries refer to every unclaimed sandbox |
| `Prune.BlankListStillSweeps` | internal/cli/cmd_herdr_plugin.go:2601-2613 | one blank entry keeps every binding in pass one and removes an unclaimed sandbox in pass two |
| `CreateProtocol.LockNamesCollideIff` | internal/cli/cmd_herdr_plugin.go:3768-3771 | two handles share a lock file exactly when they differ at most in which separators are '/' and which '_' |
| `CreateProtocol.LockNamesDistinct` | internal/cli/cmd_herdr_plugin.go:3768-3771 | so names are distinct for handles without '_', and not in general |
| `CreateProtocol.NextKeepsExclusive` | internal/cli/cmd_herdr_plugin.go:4815-4834 | every call between lock and unlock holds the lock named after its handle |
| `CreateProtocol.OneAtATime` | internal/cli/cmd_herdr_plugin.go:4815-4834 | two calls that name the same lock are never both under it |
| `CreateProtocol.NextKeepsPaths` | internal/cli/cmd_herdr_plugin.go:4961-5067 | every step keeps each call on one of its paths: a stale rebind starts no create, and what is put was created by this call or read as adoptable |
| `CreateProtocol.PutIsEarned` | internal/cli/cmd_herdr_plugin.go:5055-5086 | a binding is written only for a sandbox this call created or read as adoptable; it names the call's workspace, handle, sandbox and repository, is marked worktree-managed, and is then found by handle; a failed write changes nothing |
| `CreateProtocol.RunIsSafe` | internal/cli/cmd_herdr_plugin.go:4661-5094 | both hold in every state of every run |
| `CreateOnce.CreateIsEarned` | internal/cli/cmd_herdr_plugin.go:4835-4967 | in any run, and for any number of interleaved calls, each create comes after a re-check of its call that saw no binding and a check of its own that found no sandbox, and no other create of the handle in between, provided no call on the handle dies over a pending create |
| `CreateOnce.SecondCreateIff` | internal/core/service/create.go:511-517 | so a second create succeeds exactly when, since a first, both guards fail: a re-check sees no binding, then a check finds the sandbox gone |
| `CreateOnce.AtMostOneCreate` | internal/core/service/create.go:511-517 | while a created sandbox is not removed, at most one create of its handle succeeds, whatever becomes of bindings, reads, gets, puts and calls |
| `CreateOnce.NeverTwo` | internal/core/service/service.go:224-237 | the store, which does not look at handles, never holds two sandboxes of one handle, however often they are removed and created again, unless others add them |
| `CreateOnce.BoundIsNotRecreated` | internal/cli/cmd_herdr_plugin.go:4835-4863 | a call that re-checks once the handle is bound, and stays so for all to read, creates nothing |
| `CreateOnce.BoundIsLast` | internal/cli/cmd_herdr_plugin.go:4835-5086 | the call that creates and binds a sandbox is the last to create it as long as the binding stays, even if the sandbox does not |
| `CreateReuse.AliveIsLeftAlone` | internal/cli/cmd_herdr_plugin.go:4842-4863 | over every run: a call whose re-check reads a binding of its own workspace, or of one that is alive, writes no binding, adopts nothing and creates nothing up to its end |
| `CreateReuse.ResolvedIsLeftAlone` | internal/cli/cmd_herdr_plugin.go:4661-4680 | the same for a call whose workspace already resolves to a binding |
| `CreateReuse.StaleIff` | internal/cli/cmd_herdr_plugin.go:4842-4863 | a call takes a binding over if and only if its re-check read one of another workspace that is not alive |
| `CreateReuse.NewIsCreated` | internal/cli/cmd_herdr_plugin.go:4961-5086 | from every state with nothing bound and no sandbox, a call can go on to create one and end with its workspace bound to it |
| `CreateReuse.LeftoverIsAdopted` | internal/cli/cmd_herdr_plugin.go:4967-5086 | from every state with an adoptable sandbox and no binding, as a call that died leaves it, the next call binds it and creates none |
| `CreateReuse.GoneIsRebound` | internal/cli/cmd_herdr_plugin.go:4842-5086 | a binding of a workspace that is gone is replaced by the call's own, with the sandbox it had |
| `CreateEnds.AdoptableIff` | internal/cli/cmd_herdr_plugin.go:4995-5028 | adoptable is exactly a sandbox whose first /workspace mount is the worktree, that is not marked for removal, and is running or stopped |
| `CreateEnds.FailureIsLast` | internal/cli/cmd_herdr_plugin.go:4967-5086 | over every run, after a failed lock, get, start, adoption check or put, a call binds, adopts and creates nothing more |
| `CreateEnds.ResolveIff` | internal/cli/cmd_herdr_plugin.go:1823-1843 | a call goes on past the resolve if and only if the bindings cannot be read or none has its key for workspace, label, handle or derived label |
| `CreateEnds.PutsWhatItRead` | internal/cli/cmd_herdr_plugin.go:5036-5086 | the sandbox a call binds is one of its handle that it has read |
| `CreateEnds.FailedCreateLeavesNothing` | internal/core/service/create.go:1010-1184 | a create that fails after its record is written, and can delete it, leaves records, bindings and locks as they were |
| `CreateRace.OrphanOverlaps` | internal/cli/cmd_herdr_plugin.go:450-467 | from every state with a create past its check whose call is gone, the next call's create gets past both guards as well and both write their records |
| `CreateRace.CreatedTwice` | internal/cli/cmd_herdr_plugin.go:450-467 | a run from the start, for every handle, in which every read succeeds, nobody else touches the stores, and two sandboxes of the handle are recorded |
| `CreateProtocol.PutKeepsBound` | internal/cli/cmd_herdr_plugin.go:5055-5086 | every put keeps each handle's bindings under its own label, and so unbinds no handle |
| `Boot.WorkspaceMountCmdline` | internal/cli/cmd_sandbox.go:704-726 | the base and one argument per mount, in order |
| `Boot.ParseArgs` | cmd/nexus-agent/main.go:78-123 | the mounts in order, the last well-formed scratch disk, the last handle |
| `Boot.PrintParseIff` | cmd/nexus-agent/workspace_args.go:42-76 | printing and parsing a mount gives it back exactly when device, target and type are non-empty and free of ':' and it is a file mount iff it has a file name |
| `Boot.LegacyForms` | cmd/nexus-agent/workspace_args.go:42-76 | four, five and six fields parse with the missing flags false |
| `Boot.InitGetsPrintedArgs` | internal/cli/cmd_sandbox.go:683-773 | split at spaces, the command line hands init exactly the printed arguments |
| `Boot.BootRoundTrip` | internal/cli/cmd_sandbox.go:759-773 | the guest recovers all mounts in order, the scratch device and the hostname |
| `Boot.HostnameIsLegal` | internal/cli/cmd_sandbox.go:685-702 | at most 63 characters, each a lower-case letter, digit or hyphen: the handle's own, lower-cased, else a hyphen |
| `Disks.ExtraDisks` | internal/core/service/create.go:735-860 | attachment order: named disks as declared, shadows, workspace, scratch |
| `Disks.NamedDiskGuestMounts` | internal/cli/cmd_sandbox.go:2274-2289 | the disk volumes in order, each at the device of its position among disks |
| `Disks.ResizableDiskIndices` | internal/cli/cmd_sandbox.go:1826-1832 | the host's index list |
| `Disks.ResizableDisksFromMounts` | cmd/nexus-agent/resize_disks.go:62-78 | the guest's telemetry list: workspace and resizable mounts with a recognisable device |
| `Disks.SelectWorkspaceMount` | cmd/nexus-agent/workspace_args.go:86-103 | none, the one, or a refusal exactly when there are several |
| `Disks.DeviceRoundTrip` | cmd/nexus-agent/resize_disks.go:33-43 | a device's letter gives back its index exactly up to z |
| `Disks.GrowGuard` | cmd/nexus-agent/resize_actuate_linux.go:314-320 | a grow request is admitted for 0 to 25, and its device maps back for 0 to 24 only |
| `Disks.MountsFindTheirDisks` | internal/cli/cmd_sandbox.go:1381-1383 | every block-device mount names the device at which its own disk is attached |
| `Disks.NamedVolumeIsMounted` | internal/cli/cmd_sandbox.go:2274-2289 | a named disk volume is mounted at its own path, writable or not as asked, and may grow |
| `Disks.ShadowIsMounted` | internal/cli/shadowdisk.go:226-236 | a shadow is mounted at its own target, writable, never resized |
| `Disks.WorkspaceIsMounted` | internal/cli/shadowdisk.go:246-253 | a captured workspace is mounted at its guest path after the shadows, and no other mount is marked as the workspace |
| `Disks.LiveIsMounted` | internal/cli/cmd_sandbox.go:2397-2414 | a live mount comes by the tag of its position, at its own path, writable or not as asked; only a file carries a file name |
| `Disks.WorkspaceMountIff` | internal/core/service/workspace.go:10-31 | a live mount counts for a workspace if and only if it is at /workspace or below |
| `Disks.ScratchIsNeverMounted` | internal/cli/cmd_seam.go:105-115 | where CLI and service agree, the device handed to mkfs is the scratch disk's and no mount names it |
| `Disks.ScratchAgreesIff` | internal/cli/cmd_sandbox.go:728-730 | the CLI and the service agree on the scratch disk exactly when none is suppressed for a workspace and a captured workspace has a source path |
| `Disks.CreateAgrees` | internal/core/service/create.go:851-860 | on the `sandbox create` path they agree |
| `Disks.SupervisorAgreesIff` | internal/cli/cmd_sandbox.go:1772-1778 | the supervisor's flag is right exactly when the workspace is not only a live mount, and its index is then the CLI's |
| `Disks.WipesMountedIff` | internal/cli/cmd_seam.go:105-115 | the guest is told to reformat a mounted disk exactly when the CLI promises a scratch disk, the service attaches none and another disk is there |
| `Disks.LiveWorkspaceIsMissed` | internal/cli/cmd_sandbox.go:1772-1778 | a plan with one live mount at /workspace, whose scratch disk the supervisor is not told of |
| `Disks.VolumeIsWiped` | internal/cli/cmd_seam.go:105-115 | a plan with NoScratchDisk, on which the guest is told to reformat the named volume it mounts |
| `Disks.TelemetryIsLettered` | cmd/nexus-agent/resize_disks.go:62-78 | for every plan the guest reports the host's indices, less those past z |
| `Disks.IndicesAgreeIff` | internal/cli/cmd_sandbox.go:1826-1848 | the two lists agree, in order, exactly when every resizable disk's index is at most 24 |
| `Disks.BootTelemetry` | internal/cli/cmd_seam.go:105-115 | end to end, over the printed and parsed command line, the guest reports the host's indices and is handed the host's scratch device, if any |
| `Shell.BuildRemoteCmd` | internal/cli/cmd_orca_remote.go:325-342 | the POSIX shell reads the built line back as "env", the tokens and the arguments, for all strings |
| `Shell.ScanQuoted` | internal/cli/cmd_orca_remote.go:340-342 | a quoted string is read as that one word, whatever it holds |
| `Shell.RemoteRoundTrip` | internal/cli/cmd_orca_remote.go:325-342 | token recognition by sections 2.2.1, 2.2.2 and 2.3 of the Shell Command Language, IEEE Std 1003.1, inverts the quoting of any list |
| `Shell.RemoteInjective` | internal/cli/cmd_orca_remote.go:325-342 | different commands are different lines |
| `Env.MergeEnv` | cmd/nexus-agent/control.go:380-399 | for every iteration order, first-match lookup gives the override if there is one and the base binding otherwise, and no name gets bound twice |
| `Env.OverridesIff` | cmd/nexus-agent/control.go:380-399 | one override does what it says, for every base and name, exactly if its key has no '=' |
| `Env.OrderMatters` | cmd/nexus-agent/control.go:380-399 | with such a key two iteration orders give two environments |
| `Env.OnceIsEnough` | cmd/nexus-agent/control.go:373-399 | where no name is bound twice, first-match and last-match lookup agree |
| `Env.TermWins` | cmd/nexus-agent/control.go:79-83 | a session with a terminal is given the terminal's TERM over all layers and the rest as before, although TERM is then bound twice exactly if some layer bound it |
| `Env.EnvToMap` | cmd/nexus-agent/control.go:358-371 | the map holds the first value of each name |
| `Env.AddPairs` | cmd/nexus-agent/control.go:301-308 | dropping exact duplicates leaves every lookup as it was |
| `Env.BootSpecEnv` | cmd/nexus-agent/control.go:290-314 | no duplicates, and lookups as in the image's entries followed by each task's |
| `Env.ReadHostUID` | cmd/nexus-agent/control.go:268-281 | the last line that binds a non-empty name wins |
| `Env.ReadEtcEnvironment` | cmd/nexus-agent/control.go:234-252 | the first binding line wins, trimmed and unquoted, comments skipped |
| `Env.CommentBindsNothing` | cmd/nexus-agent/control.go:234-252 | a comment, or a line without '=', binds nothing |
| `Env.PlainLineBinds` | cmd/nexus-agent/control.go:234-252 | a plain assignment binds its name to its unquoted value |
| `Env.UnquoteEnvValue` | cmd/nexus-agent/control.go:256-264 | a matching pair of quotes is stripped exactly when there is one, and one pair only |
| `Env.GuestBaselineEnv` | cmd/nexus-agent/control.go:327-353 | host UID over /etc/environment over the built-in defaults |
| `Env.BuiltInValues` | cmd/nexus-agent/control.go:327-353 | the built-in defaults are HOME, PATH, and TMPDIR with a scratch disk, and nothing else |
| `Env.ExecEnv` | cmd/nexus-agent/control.go:47-50 | request over image over host UID over /etc/environment over defaults, for every iteration order; no name is bound twice, so the first entry of a name is also the last, which is what the process is given |
| `Flags.SpelledFlag` | internal/cli/cmd_sandbox.go:439-640 | every flag's spelling is recognised as that flag |
| `Flags.OthersAre` | internal/cli/cmd_sandbox.go:439-649 | what is no flag's spelling is an unknown flag if it starts with a dash and goes on, else a word |
| `Flags.ShortForm` | internal/cli/cmd_sandbox.go:439-640 | -f is read as --dockerfile |
| `CreateArgs.ParseSandboxCreateArgs` | internal/cli/cmd_sandbox.go:434-667 | the index loop computes the recursive meaning of the list, usage errors included |
| `CreateArgs.ParsePrinted` | internal/cli/cmd_sandbox.go:434-649 | any list of options and words is parsed as it was printed, even if values look like flags |
| `CreateFields.AcceptedIff` | internal/cli/cmd_sandbox.go:434-667 | a list is accepted if and only if every value is one its flag can take, no ceiling is below what is asked for and a closed egress has a repository |
| `CreateFields.IsRefused` | internal/cli/cmd_sandbox.go:434-649 | after whatever list, a flag without its value and an unknown flag are refused |
| `CreateFields.TextFlags` | internal/cli/cmd_sandbox.go:439-640 | each text flag replaces its own field and no other |
| `CreateFields.ListFlags` | internal/cli/cmd_sandbox.go:439-649 | each repeatable flag, and each word, adds to the end of its own list |
| `CreateFields.NumberFlags` | internal/cli/cmd_sandbox.go:439-640 | each number flag replaces its own field; the builder's memory is 0 or at least 1024 |
| `CreateFields.SwitchFlags` | internal/cli/cmd_sandbox.go:439-640 | each switch sets its own field |
| `CreateFields.LabelFlag` | internal/cli/cmd_sandbox.go:439-640 | a label is set under its key, up to the first '=' |
| `CreateFields.OtherFlags` | internal/cli/cmd_sandbox.go:439-640 | egress mode, policies and capture limit |
| `CreateArgs.WorktreeSandboxCreateArgs` | internal/cli/cmd_herdr_plugin.go:3944-4050 | the arguments, group by group |
| `CreateArgs.CreateRoundTrip` | internal/cli/cmd_herdr_plugin.go:3944-4050 | the parser recovers handle, image source, mounts in order, volumes, secrets, repository, policies and nesting, and accepts exactly for a known agent, an owner/name repository and enforceable policies; with a codec that inverts the policies these are the requested ones |
| `CreateArgs.WorktreeRoundTrip` | internal/cli/cmd_herdr_plugin.go:4530-4552 | the same for the handle of any repository and branch |
| `CreateArgs.VolumesParse` | internal/cli/cmd_herdr_plugin.go:3965-4046 | every generated volume spec parses to a writable disk of the intended name, path and size |
| `Names.HandleSlug` | internal/cli/cmd_herdr_plugin.go:4171-4200 | a non-empty stem of the volume grammar, no doubled hyphen, tidy ends |
| `Names.SlugIsIdempotent` | internal/cli/cmd_herdr_plugin.go:4171-4200 | a legal stem is its own slug |
| `Names.CollapseKeepsRuns` | internal/cli/cmd_herdr_plugin.go:4171-4190 | a run of letters, digits, dots and underscores is kept in order, lower-cased |
| `Names.CollapseJoinsRuns` | internal/cli/cmd_herdr_plugin.go:4171-4190 | a run of anything else is one hyphen, and none at the front or after a hyphen |
| `Names.TrimKeepsTheMiddle` | internal/cli/cmd_herdr_plugin.go:4190-4200 | only unwanted characters are cut off, and only at the ends |
| `Names.BlankSlug` | internal/cli/cmd_herdr_plugin.go:4190-4200 | a handle without any stem character gets the fixed stem |
| `Names.WorktreeSandboxHandle` | internal/cli/cmd_herdr_plugin.go:4530-4552 | the handle of a repository and branch: two well-formed parts at its only slash, never flag-like |
| `Names.HandleIsUsable` | internal/core/domain/sandbox.go:414-420 | it parses into two non-empty parts at its only slash and never looks like a flag |
| `Names.SquashKeepsRuns` | internal/cli/cmd_herdr_plugin.go:4530-4552 | a run of legal characters is kept as it is, case and hyphens included |
| `Names.SquashJoinsRuns` | internal/cli/cmd_herdr_plugin.go:4530-4552 | a run of others is one hyphen, and none at the front or after a hyphen |
| `Names.SanitizedIsIdempotent` | internal/cli/cmd_herdr_plugin.go:4530-4552 | half of a handle is its own sanitised form |
| `Names.BlankPart` | internal/cli/cmd_herdr_plugin.go:4530-4552 | a name without any legal character becomes the fallback |
| `Volumes.ParseMountNamed` | internal/cli/cmd_sandbox.go:2303-2350 | the option loop computes the meaning of the option list, errors included |
| `Volumes.ParseGiB` | internal/cli/cmd_sandbox.go:2425-2457 | a size in GiB is read back exactly if and only if it is below 2^33, where the shift overflows |
| `Volumes.ParseUnits` | internal/cli/cmd_sandbox.go:2425-2457 | so is a whole number of g, m or k units, in either case, if and only if it fits 64 bits |
| `Volumes.ParseBytes` | internal/cli/cmd_sandbox.go:2425-2457 | a plain number counts bytes |
| `Volumes.OptionSets` | internal/cli/cmd_sandbox.go:2324-2345 | each option sets its own field and leaves the rest |
| `Volumes.OptionsMean` | internal/cli/cmd_sandbox.go:2324-2345 | a list is accepted if and only if each option is; the volume is read-only, or a directory, if and only if some option says so |
| `Volumes.SpecIff` | internal/cli/cmd_sandbox.go:2303-2350 | a spec is accepted if and only if it has a name, a path without .git component and known options; without options it is a writable disk |
| `Volumes.NoGitComponent` | internal/cli/cmd_sandbox.go:2416-2423 | a path without '.' or without 'g' has no .git component |
| `Volumes.SizedRoundTrip` | internal/cli/cmd_sandbox.go:2303-2350 | a printed spec parses to that name, path and size |
| `Brief.InputBoxRegion` | internal/cli/cmd_herdr_plugin.go:3037-3070 | the box region is an exact suffix of the viewport at a line start, so the transcript is its complement; none is found exactly when there is no box |
| `Brief.ChipIsOnOneSide` | internal/cli/cmd_herdr_plugin.go:3161-3195 | a chip on screen is in the transcript or in the box, never across the cut |
| `Brief.InteriorHasContent` | internal/cli/cmd_herdr_plugin.go:3084-3113 | true exactly if a prompt line between the last two rules holds text |
| `Brief.GlyphsArePrompts` | internal/cli/cmd_herdr_plugin.go:3084-3113 | both prompt glyphs are recognised behind any blanks, and what follows is what is typed |
| `Brief.EitherIsWork` | internal/cli/cmd_herdr_plugin.go:3161-3195 | either sign of work counts, wherever it stands |
| `Brief.Classify` | internal/cli/cmd_herdr_plugin.go:3161-3195 | submitted if and only if all reads worked, a box without chip is on screen, no text is between the last two rules, and there is evidence; stranded if and only if there is a box with either |
| `BriefBox.RuledBoxIsRead` | internal/cli/cmd_herdr_plugin.go:3084-3113 | in a rule-delimited box the code sees text, on whatever line, exactly when some of it is on a prompt line |
| `BriefBox.RuledIsTrueIff` | internal/cli/cmd_herdr_plugin.go:3161-3195 | a rule-delimited box is judged stranded just when it holds a chip or text, exactly for boxes that hold a chip, hold nothing, or show some of their text on a prompt line |
| `BriefBox.SubmittedIsTrueIff` | internal/cli/cmd_herdr_plugin.go:3161-3195 | a rule-delimited box judged submitted is empty exactly when every line with text in it is a prompt line |
| `BriefBox.CorneredIsTrueIff` | internal/cli/cmd_herdr_plugin.go:3161-3195 | a cornered box is judged by its chips and by the last two rules of the viewport; where those enclose a filled prompt the verdict is true exactly if the box holds something, elsewhere exactly if it has a chip or no text |
| `BriefBox.CornerIsBlind` | internal/cli/cmd_herdr_plugin.go:3161-3195 | a cornered box alone on screen is judged submitted on any sign of work, whatever is typed in it, so wrongly exactly when something is |
| `BriefBox.BelowThePrompt` | internal/cli/cmd_herdr_plugin.go:3084-3113 | a rule-delimited box with any text on the line below its empty prompt is judged submitted on any sign of work, exactly if that line is no prompt line |
| `BriefBox.TextSlipsThrough` | internal/cli/cmd_herdr_plugin.go:3161-3195 | two such looks |
| `BriefBox.EmptyCornerReadsStranded` | internal/cli/cmd_herdr_plugin.go:3077-3083 | an empty cornered box below a prompt between two rules is judged stranded |
| `Brief.Deliver` | internal/cli/cmd_herdr_plugin.go:3229-3281 | one paste, at most three Enters, success exactly when the last look shows a submitted brief; no round without its Enter sent and its context alive; short of three rounds only if some call failed or the context ended; nothing after a failed paste |
| `Tmpfs.SizeBytes` | cmd/nexus-agent/resize_tmp_linux.go:196-211 | whole MiB between 256 and 512, for every total, wrap-around included |
| `Tmpfs.SizeIsHalf` | cmd/nexus-agent/resize_tmp_linux.go:196-211 | below the wrap-around it is half the memory, kept between 256 and 512 MiB, in whole MiB |
| `Tmpfs.MonotoneIff` | cmd/nexus-agent/resize_tmp_linux.go:196-211 | more memory never means a smaller /tmp, up to a total, if and only if the percentage does not wrap round below it |
| `Tmpfs.WrapsToFloor` | cmd/nexus-agent/resize_tmp_linux.go:196-211 | the first total that wraps gets the floor, where 1 GiB gets the cap |
| `Tmpfs.Tmp.ResizeOnce` | cmd/nexus-agent/resize_tmp_linux.go:167-189 | one tick: grow past the hysteresis band, or leave the cap alone |
| `Tmpfs.Tmp.Resizer` | cmd/nexus-agent/resize_tmp_linux.go:136-162 | the ticker loop over any readings |
| `Tmpfs.ShrinksIff` | cmd/nexus-agent/resize_tmp_linux.go:167-189 | a tick shrinks /tmp exactly when the remount works, memory asks for less than the cap, and the cap is unreadable or so large that adding the margin wraps round below that |
| `Tmpfs.RunIsBounded` | cmd/nexus-agent/resize_tmp_linux.go:136-189 | over any readings with a readable cap: never shrinks, never passes max(initial, 512 MiB), at most four remounts succeed |
| `Tmpfs.FourIsTight` | cmd/nexus-agent/resize_tmp_linux.go:83-110 | four remounts do happen |
| `Tmpfs.Settles` | cmd/nexus-agent/resize_tmp_linux.go:167-189 | the same reading twice remounts at most once |

## Left out

- VM boot, the hypervisor driver, the supervisor, stores other than the binding file: only their documented results appear, as inputs.
- gRPC, vsock, SSH, JSON decoding, subprocess calls and clocks: they appear as parameters, listings and failures.
- Agents that are not PID 1 and reap with cmd.Wait: the reap loop is the harder case.
- ReaperProof.ExactlyOnce: assumes fresh session IDs and no PID reissued while an entry for it is retained; `ReaperReuse.ReuseLosesCode` shows the latter is needed.
- ReaperLive.LocksAreReleased: says what the threads in the way can do by themselves; a fair scheduler is not modelled.
- ReaperDelivery.CodeArrives: likewise, counts the steps of the threads concerned while no new request or death comes in.
- Ring.Ring.Write: the 64-bit total is unbounded here, so its wrap-around is not modelled.
- SessionTable.Table.MarkExited: sessions are values held in both indices, so the sharing of one object is modelled by updating both.
- Swap.Machine.PerformSwap: staged, install and backup paths are distinct.
- Prune.SpacePrune: no other process writes the bindings during the run; flag parsing and the printed report are not modelled.
- CreateOnce.AtMostOneCreate: assumes that no call on the handle dies over a pending create, which `CreateRace.CreatedTwice` shows is needed; configuration loading, egress policy and image selection before the create are not modelled.
- Boot.BootRoundTrip: strings are sequences of characters, so the hostname counts a multi-byte character once; mounts whose fields hold white space or a double quote cannot be carried by the command line, and bytes inside a multi-byte character are not looked at; the kernel's limits on the length of its command line and the number of init's arguments are not modelled.
- Disks.ScratchIsNeverMounted: at most 55198 disks, beyond which device letters are no longer characters.
- Env.ExecEnv: a request key that holds '=' is exempt, as `Env.OverridesIff` says it must be.
- CreateArgs.CreateRoundTrip: number and byte-size parsing, the agent registry and the JSON codec are abstract, so that the codec inverts a policy is a condition; the agent name is given.
- Injectivity of slugs and handles: the code does not provide it.
- The builder role, cache disks, CPU and memory hotplug, log tailing, focus watch, doctor, image and auth commands.
