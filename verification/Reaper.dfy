/**
  The process protocol of the in-guest agent: session spawners, one-shot helpers, the PID-1
  reap loop and the post-exit sweeps, interleaved step by step.

  Every lock operation and every critical section is one atomic step.  A session object or a
  one-shot channel is named by the `JobId` of the child it was created for (session IDs are
  assumed fresh); PIDs are what the kernel hands out and may be handed out again.
 */
module Reaper {
  import opened Options

  type Pid = nat
  type JobId = nat

  /** Orphans are processes the agent inherits as PID 1; nothing ever registers them. */
  datatype Kind = SessionJob | OneShotJob | OrphanJob

  /** The child of a job, up to the moment its code was reported or thrown away. */
  datatype Life = Unborn | Running | Zombie(code: int) | InHand(code: int) | Gone(code: int)

  /** Where `spawn` / `spawnOneShot` stands for a job. */
  datatype SpawnPhase =
    | NotStarted | Locked | Forked | Adding | Added | Sweeping | Ready | Finished | Failed | Adopted

  /** Where the goroutine reading the job's exit channel stands. */
  datatype WaitPhase = Blocked | Received(code: int) | Exited | SweepingAfterExit | Returned

  /** `buffer` is the exit channel (capacity 1); `sent` is everything ever sent on it. */
  datatype Job = Job(
    kind: Kind, pid: Pid, life: Life, spawn: SpawnPhase, wait: WaitPhase, buffer: seq<int>, sent: seq<int>)

  datatype Thread = Spawner(job: JobId) | Waiter(job: JobId) | ReapLoop

  datatype Owner = Free | HeldBy(thread: Thread)

  /** The reap loop; `victim` is the job whose child the last Wait4 collected. */
  datatype Phase =
    | Idle
    | Woken
    | Draining
    | Collected(victim: JobId)
    | Peeking(victim: JobId)
    | Routed(victim: JobId, target: JobId)
    | Unrouted(victim: JobId)
    | Taking(victim: JobId)
    | Handing(victim: JobId, target: JobId)

  /**
    `procs` says which job's child holds a PID, `byID` holds the sessions the ID index maps to,
    `clients` are RPC handlers reading the table,
    and `atWake` is history: the zombies present when the current or last wakeup began.
   */
  datatype State = State(
    procs: map<Pid, JobId>,
    byID: set<JobId>,
    byPID: map<Pid, JobId>,
    oneShot: map<Pid, JobId>,
    jobs: map<JobId, Job>,
    spawnMu: Owner,
    mu: Owner,
    clients: set<nat>,
    reaper: Phase,
    sigPending: bool,
    atWake: set<JobId>)

  predicate Init(s: State)
  {
    s == State(map[], {}, map[], map[], map[], Free, Free, {}, Idle, false, {})
  }

  // ----- the spawner: spawn, spawnOneShot, add -----

  predicate MuFree(s: State)
  {
    s.mu == Free && s.clients == {} && !s.reaper.Peeking?
  }

  predicate At(s: State, j: JobId, p: SpawnPhase)
  {
    j in s.jobs && s.jobs[j].spawn == p
  }

  /** Job `j` becomes `job`; no other job changes. */
  predicate Update(s: State, s': State, j: JobId, job: Job)
  {
    && s'.jobs.Keys == s.jobs.Keys + {j}
    && s'.jobs[j] == job
    && forall k | k in s.jobs && k != j :: s'.jobs[k] == s.jobs[k]
  }

  predicate NewJob(s: State, s': State, j: JobId, kind: Kind)
  {
    && j !in s.jobs && kind != OrphanJob
    && Update(s, s', j, Job(kind, 0, Unborn, NotStarted, Blocked, [], []))
    && s' == s.(jobs := s'.jobs)
  }

  predicate LockSpawn(s: State, s': State, j: JobId)
  {
    && At(s, j, NotStarted) && s.spawnMu == Free
    && Update(s, s', j, s.jobs[j].(spawn := Locked))
    && s' == s.(jobs := s'.jobs, spawnMu := HeldBy(Spawner(j)))
  }

  predicate ForkFails(s: State, s': State, j: JobId)
  {
    && At(s, j, Locked)
    && Update(s, s', j, s.jobs[j].(spawn := Failed))
    && s' == s.(jobs := s'.jobs, spawnMu := Free)
  }

  /** The kernel never hands out a PID in use, a zombie's included. */
  predicate Fork(s: State, s': State, j: JobId, pid: Pid)
  {
    && At(s, j, Locked) && pid !in s.procs
    && Update(s, s', j, s.jobs[j].(spawn := Forked, pid := pid, life := Running))
    && s' == s.(jobs := s'.jobs, procs := s.procs[pid := j])
  }

  predicate LockAdd(s: State, s': State, j: JobId)
  {
    && At(s, j, Forked) && MuFree(s)
    && Update(s, s', j, s.jobs[j].(spawn := Adding))
    && s' == s.(jobs := s'.jobs, mu := HeldBy(Spawner(j)))
  }

  predicate AddSession(s: State, s': State, j: JobId)
  {
    && At(s, j, Adding) && s.jobs[j].kind == SessionJob
    && Update(s, s', j, s.jobs[j].(spawn := Added))
    && s' == s.(jobs := s'.jobs, mu := Free, byID := s.byID + {j}, byPID := s.byPID[s.jobs[j].pid := j])
  }

  predicate AddOneShot(s: State, s': State, j: JobId)
  {
    && At(s, j, Adding) && s.jobs[j].kind == OneShotJob
    && Update(s, s', j, s.jobs[j].(spawn := Ready))
    && s' == s.(jobs := s'.jobs, mu := Free, oneShot := s.oneShot[s.jobs[j].pid := j])
  }

  predicate LockSweep(s: State, s': State, j: JobId)
  {
    && At(s, j, Added) && MuFree(s)
    && Update(s, s', j, s.jobs[j].(spawn := Sweeping))
    && s' == s.(jobs := s'.jobs, mu := HeldBy(Spawner(j)))
  }

  predicate HasExited(job: Job)
  {
    job.wait == Exited || job.wait == SweepingAfterExit || job.wait == Returned
  }

  /** A sweep evicts some of the indexed sessions that have exited, by ID and by PID. */
  predicate MayEvict(s: State, evicted: set<JobId>)
  {
    forall k | k in evicted :: k in s.byID && k in s.jobs && HasExited(s.jobs[k])
  }

  function EvictedPids(s: State, evicted: set<JobId>): set<Pid>
  {
    set k | k in evicted && k in s.jobs :: s.jobs[k].pid
  }

  predicate Sweep(s: State, s': State, j: JobId, evicted: set<JobId>)
  {
    && At(s, j, Sweeping) && MayEvict(s, evicted)
    && Update(s, s', j, s.jobs[j].(spawn := Ready))
    && s' == s.(jobs := s'.jobs, mu := Free, byID := s.byID - evicted, byPID := s.byPID - EvictedPids(s, evicted))
  }

  predicate UnlockSpawn(s: State, s': State, j: JobId)
  {
    && At(s, j, Ready)
    && Update(s, s', j, s.jobs[j].(spawn := Finished))
    && s' == s.(jobs := s'.jobs, spawnMu := Free)
  }

  // ----- the waiter: the goroutine that reads the exit channel -----

  predicate Receive(s: State, s': State, j: JobId)
  {
    && At(s, j, Finished) && s.jobs[j].wait == Blocked && s.jobs[j].buffer != []
    && Update(s, s', j, s.jobs[j].(wait := Received(s.jobs[j].buffer[0]), buffer := s.jobs[j].buffer[1..]))
    && s' == s.(jobs := s'.jobs)
  }

  predicate SetExited(s: State, s': State, j: JobId)
  {
    && j in s.jobs && s.jobs[j].wait.Received? && s.jobs[j].kind == SessionJob
    && Update(s, s', j, s.jobs[j].(wait := Exited))
    && s' == s.(jobs := s'.jobs)
  }

  predicate LockExitSweep(s: State, s': State, j: JobId)
  {
    && j in s.jobs && s.jobs[j].wait == Exited && MuFree(s)
    && Update(s, s', j, s.jobs[j].(wait := SweepingAfterExit))
    && s' == s.(jobs := s'.jobs, mu := HeldBy(Waiter(j)))
  }

  predicate ExitSweep(s: State, s': State, j: JobId, evicted: set<JobId>)
  {
    && j in s.jobs && s.jobs[j].wait == SweepingAfterExit && MayEvict(s, evicted)
    && Update(s, s', j, s.jobs[j].(wait := Returned))
    && s' == s.(jobs := s'.jobs, mu := Free, byID := s.byID - evicted, byPID := s.byPID - EvictedPids(s, evicted))
  }

  /** get and list, called by RPC handlers. */
  predicate ClientRead(s: State, s': State, n: nat)
  {
    && s.mu == Free && n !in s.clients
    && s' == s.(clients := s.clients + {n})
  }

  predicate ClientDone(s: State, s': State, n: nat)
  {
    && n in s.clients
    && s' == s.(clients := s.clients - {n})
  }

  // ----- the kernel -----

  predicate Adopt(s: State, s': State, j: JobId, pid: Pid)
  {
    && j !in s.jobs && pid !in s.procs
    && Update(s, s', j, Job(OrphanJob, pid, Running, Adopted, Blocked, [], []))
    && s' == s.(jobs := s'.jobs, procs := s.procs[pid := j])
  }

  /** `signalled` is false when the SIGCHLD is dropped; a pending one is coalesced with. */
  predicate Die(s: State, s': State, j: JobId, code: int, signalled: bool)
  {
    && j in s.jobs && s.jobs[j].life == Running
    && Update(s, s', j, s.jobs[j].(life := Zombie(code)))
    && s' == s.(jobs := s'.jobs, sigPending := s.sigPending || signalled)
  }

  // ----- the reap loop: reapLoop, drainChildren, notifyExit -----

  function Zombies(s: State): set<JobId>
  {
    set j | j in s.jobs && s.jobs[j].life.Zombie?
  }

  /** Woken by a pending signal or by the backstop ticker. */
  predicate Wake(s: State, s': State, bySignal: bool)
  {
    && s.reaper == Idle && (bySignal ==> s.sigPending)
    && s' == s.(reaper := Woken, sigPending := s.sigPending && !bySignal, atWake := Zombies(s))
  }

  predicate LockDrain(s: State, s': State)
  {
    && s.reaper == Woken && s.spawnMu == Free
    && s' == s.(reaper := Draining, spawnMu := HeldBy(ReapLoop))
  }

  predicate Wait4(s: State, s': State, j: JobId)
  {
    && s.reaper == Draining && j in s.jobs && s.jobs[j].life.Zombie?
    && Update(s, s', j, s.jobs[j].(life := InHand(s.jobs[j].life.code)))
    && s' == s.(jobs := s'.jobs, procs := s.procs - {s.jobs[j].pid}, reaper := Collected(j))
  }

  /** Wait4 returns 0: no zombie is left. */
  predicate DrainEnd(s: State, s': State)
  {
    && s.reaper == Draining && Zombies(s) == {}
    && s' == s.(reaper := Idle, spawnMu := Free)
  }

  predicate PeekLock(s: State, s': State)
  {
    && s.reaper.Collected? && s.mu == Free
    && s' == s.(reaper := Peeking(s.reaper.victim))
  }

  predicate Peek(s: State, s': State)
  {
    && s.reaper.Peeking? && s.reaper.victim in s.jobs
    && var v := s.reaper.victim;
       var pid := s.jobs[v].pid;
       s' == s.(reaper := if pid in s.byPID then Routed(v, s.byPID[pid]) else Unrouted(v))
  }

  predicate Carrying(p: Phase)
  {
    !p.Idle? && !p.Woken? && !p.Draining?
  }

  predicate CanSettle(s: State)
  {
    && Carrying(s.reaper) && s.reaper.victim in s.jobs && s.jobs[s.reaper.victim].life.InHand?
  }

  /** The victim's code leaves the reap loop: sent to `target`, or dropped when `target` is None. */
  predicate Settle(s: State, s': State, target: Option<JobId>)
    requires CanSettle(s)
  {
    var v := s.reaper.victim;
    var code := s.jobs[v].life.code;
    && s'.jobs.Keys == s.jobs.Keys
    && (forall k | k in s.jobs ::
          var sending := Some(k) == target;
          s'.jobs[k] == s.jobs[k].(
            life := if k == v then Gone(code) else s.jobs[k].life,
            buffer := if sending then s.jobs[k].buffer + [code] else s.jobs[k].buffer,
            sent := if sending then s.jobs[k].sent + [code] else s.jobs[k].sent))
  }

  /** Deliver to a session: dropped when its channel (capacity 1) is full. */
  predicate Send(s: State, s': State)
  {
    && s.reaper.Routed? && s.reaper.target in s.jobs && CanSettle(s)
    && Settle(s, s', if s.jobs[s.reaper.target].buffer == [] then Some(s.reaper.target) else None)
    && s' == s.(jobs := s'.jobs, reaper := Draining)
  }

  predicate TakeLock(s: State, s': State)
  {
    && s.reaper.Unrouted? && MuFree(s)
    && s' == s.(reaper := Taking(s.reaper.victim), mu := HeldBy(ReapLoop))
  }

  /** Remove the one-shot entry of the collected PID. */
  predicate Take(s: State, s': State)
  {
    && s.reaper.Taking? && CanSettle(s) && s.jobs[s.reaper.victim].pid in s.oneShot
    && var v := s.reaper.victim;
       var pid := s.jobs[v].pid;
       s' == s.(mu := Free, oneShot := s.oneShot - {pid}, reaper := Handing(v, s.oneShot[pid]))
  }

  /** A PID in neither index is taken for an orphan's and its code is dropped. */
  predicate Discard(s: State, s': State)
  {
    && s.reaper.Taking? && CanSettle(s) && s.jobs[s.reaper.victim].pid !in s.oneShot
    && Settle(s, s', None)
    && s' == s.(jobs := s'.jobs, mu := Free, reaper := Draining)
  }

  /** Deliver to a one-shot: blocks while its channel is full. */
  predicate Hand(s: State, s': State)
  {
    && s.reaper.Handing? && s.reaper.target in s.jobs && CanSettle(s)
    && s.jobs[s.reaper.target].buffer == []
    && Settle(s, s', Some(s.reaper.target))
    && s' == s.(jobs := s'.jobs, reaper := Draining)
  }

  // ----- the invariant -----

  predicate HoldsSpawnMu(p: SpawnPhase)
  {
    p == Locked || p == Forked || p == Adding || p == Added || p == Sweeping || p == Ready
  }

  predicate Registered(p: SpawnPhase)
  {
    p == Added || p == Sweeping || p == Ready || p == Finished
  }

  predicate HasChild(p: SpawnPhase)
  {
    Registered(p) || p == Forked || p == Adding || p == Adopted
  }

  predicate HoldsPid(l: Life)
  {
    l == Running || l.Zombie?
  }

  /** Exactly the threads inside a critical section hold its lock. */
  predicate SpawnMuOk(s: State)
  {
    && (forall j | j in s.jobs :: HoldsSpawnMu(s.jobs[j].spawn) <==> s.spawnMu == HeldBy(Spawner(j)))
    && (s.spawnMu.HeldBy? ==>
          s.spawnMu.thread.ReapLoop? || (s.spawnMu.thread.Spawner? && s.spawnMu.thread.job in s.jobs))
    && (s.spawnMu == HeldBy(ReapLoop) <==> !s.reaper.Idle? && !s.reaper.Woken?)
  }

  predicate MuOk(s: State)
  {
    && (forall j | j in s.jobs ::
          && ((s.jobs[j].spawn == Adding || s.jobs[j].spawn == Sweeping) <==> s.mu == HeldBy(Spawner(j)))
          && (s.jobs[j].wait == SweepingAfterExit <==> s.mu == HeldBy(Waiter(j))))
    && (s.mu.HeldBy? ==>
          && s.clients == {} && !s.reaper.Peeking?
          && (s.mu.thread.ReapLoop?
              || ((s.mu.thread.Spawner? || s.mu.thread.Waiter?) && s.mu.thread.job in s.jobs)))
    && (s.mu == HeldBy(ReapLoop) <==> s.reaper.Taking?)
  }

  predicate Locks(s: State)
  {
    SpawnMuOk(s) && MuOk(s)
  }

  /** The codes sent on a job's channel: none while its child is not reported, then its own code. */
  predicate JobOk(job: Job)
  {
    && (job.life == Unborn <==> !HasChild(job.spawn))
    && (job.spawn == Adopted <==> job.kind == OrphanJob)
    && (job.life.InHand? || job.life.Gone? ==> Registered(job.spawn) || job.kind == OrphanJob)
    && job.sent == (if job.life.Gone? && job.kind != OrphanJob then [job.life.code] else [])
    && (job.wait == Blocked ==> job.buffer == job.sent)
    && (job.wait != Blocked ==> job.buffer == [] && job.sent != [])
    && (job.wait.Received? ==> job.sent == [job.wait.code])
    && (HasExited(job) ==> job.kind == SessionJob)
  }

  predicate Jobs(s: State)
  {
    forall j | j in s.jobs :: JobOk(s.jobs[j])
  }

  /** PIDs in use, and the one child that has been collected but not yet reported. */
  predicate Kernel(s: State)
  {
    && (forall p | p in s.procs ::
          s.procs[p] in s.jobs && s.jobs[s.procs[p]].pid == p && HoldsPid(s.jobs[s.procs[p]].life))
    && (forall j | j in s.jobs && HoldsPid(s.jobs[j].life) :: s.jobs[j].pid in s.procs && s.procs[s.jobs[j].pid] == j)
    && (forall j | j in s.jobs :: s.jobs[j].life.InHand? <==> Carrying(s.reaper) && s.reaper.victim == j)
    && (Carrying(s.reaper) ==> s.reaper.victim in s.jobs)
  }

  /** The session index names registered sessions, all of the running ones among them. */
  predicate SessionIndex(s: State)
  {
    && (forall p | p in s.byPID :: s.byPID[p] in s.byID && s.byPID[p] in s.jobs && s.jobs[s.byPID[p]].pid == p)
    && (forall j | j in s.byID ::
          && j in s.jobs && s.jobs[j].kind == SessionJob && Registered(s.jobs[j].spawn)
          && s.jobs[j].pid in s.byPID && s.byPID[s.jobs[j].pid] == j)
    && (forall j | j in s.jobs && Registered(s.jobs[j].spawn) && s.jobs[j].kind == SessionJob ::
          HasExited(s.jobs[j]) || j in s.byID)
  }

  /** The one-shot index names exactly the registered one-shots whose child is not yet reported. */
  predicate OneShotIndex(s: State)
  {
    && (forall p | p in s.oneShot ::
          && s.oneShot[p] in s.jobs && s.jobs[s.oneShot[p]].pid == p
          && s.jobs[s.oneShot[p]].kind == OneShotJob && Registered(s.jobs[s.oneShot[p]].spawn)
          && !s.jobs[s.oneShot[p]].life.Gone? && !(s.reaper.Handing? && s.reaper.victim == s.oneShot[p]))
    && (forall j | j in s.jobs && Registered(s.jobs[j].spawn) && s.jobs[j].kind == OneShotJob ::
          || s.jobs[j].life.Gone? || (s.reaper.Handing? && s.reaper.victim == j)
          || (s.jobs[j].pid in s.oneShot && s.oneShot[s.jobs[j].pid] == j))
  }

  /** No PID in use, and not the PID being reported, is indexed for somebody else. */
  predicate NoStaleEntry(s: State)
  {
    && (forall p | p in s.procs && p in s.byPID :: s.byPID[p] == s.procs[p])
    && (forall p | p in s.procs && p in s.oneShot :: s.oneShot[p] == s.procs[p])
    && (Carrying(s.reaper) && s.reaper.victim in s.jobs ==>
          && (s.jobs[s.reaper.victim].pid in s.byPID ==> s.byPID[s.jobs[s.reaper.victim].pid] == s.reaper.victim)
          && (s.jobs[s.reaper.victim].pid in s.oneShot ==> s.oneShot[s.jobs[s.reaper.victim].pid] == s.reaper.victim))
  }

  /** Whatever the reap loop has routed, it has routed to the victim. */
  predicate Routing(s: State)
  {
    && (s.reaper.Routed? || s.reaper.Handing? ==> s.reaper.target == s.reaper.victim)
    && (s.reaper.Routed? && s.reaper.victim in s.jobs ==> s.jobs[s.reaper.victim].kind == SessionJob)
    && (s.reaper.Handing? && s.reaper.victim in s.jobs ==> s.jobs[s.reaper.victim].kind == OneShotJob)
    && ((s.reaper.Unrouted? || s.reaper.Taking?) && s.reaper.victim in s.jobs ==>
          s.jobs[s.reaper.victim].kind != SessionJob)
  }

  /** Between drains every zombie of the last wakeup has been collected and reported. */
  predicate Wakeups(s: State)
  {
    forall j | j in s.atWake ::
      && j in s.jobs && s.jobs[j].life != Unborn && s.jobs[j].life != Running
      && (s.reaper == Idle ==> s.jobs[j].life.Gone?)
  }

  predicate Inv(s: State)
  {
    && Locks(s)
    && Jobs(s)
    && Kernel(s)
    && SessionIndex(s)
    && OneShotIndex(s)
    && NoStaleEntry(s)
    && Routing(s)
    && Wakeups(s)
  }

  // ----- runs -----

  datatype Step =
    | NewJobStep(j: JobId, kind: Kind)
    | LockSpawnStep(j: JobId)
    | ForkFailsStep(j: JobId)
    | ForkStep(j: JobId, pid: Pid)
    | LockAddStep(j: JobId)
    | AddSessionStep(j: JobId)
    | AddOneShotStep(j: JobId)
    | LockSweepStep(j: JobId)
    | SweepStep(j: JobId, evicted: set<JobId>)
    | UnlockSpawnStep(j: JobId)
    | ReceiveStep(j: JobId)
    | SetExitedStep(j: JobId)
    | LockExitSweepStep(j: JobId)
    | ExitSweepStep(j: JobId, evicted: set<JobId>)
    | ClientReadStep(n: nat)
    | ClientDoneStep(n: nat)
    | AdoptStep(j: JobId, pid: Pid)
    | DieStep(j: JobId, code: int, signalled: bool)
    | WakeStep(bySignal: bool)
    | LockDrainStep
    | Wait4Step(j: JobId)
    | DrainEndStep
    | PeekLockStep
    | PeekStep
    | SendStep
    | TakeLockStep
    | TakeStep
    | DiscardStep
    | HandStep

  /*
    One step, thread by thread.  `strict` is the hypothesis on the kernel: no PID is reissued
    while an index entry for it is retained.  Forks need it only of the session index; an orphan
    can be adopted at any time, so for it the one-shot index is included.
   */

  /** A request arrives and takes spawnMu. */
  predicate EnterNext(s: State, s': State, step: Step)
  {
    match step
    case NewJobStep(j, kind) => NewJob(s, s', j, kind)
    case LockSpawnStep(j) => LockSpawn(s, s', j)
    case ForkFailsStep(j) => ForkFails(s, s', j)
    case _ => false
  }

  /** Spawn and spawnOneShot, outside the table lock. */
  predicate StartNext(s: State, s': State, step: Step, strict: bool)
  {
    match step
    case ForkStep(j, pid) => Fork(s, s', j, pid) && (strict ==> pid !in s.byPID)
    case LockAddStep(j) => LockAdd(s, s', j)
    case UnlockSpawnStep(j) => UnlockSpawn(s, s', j)
    case _ => false
  }

  /** Add, spawnOneShot's registration and the sweep that follows. */
  predicate AddNext(s: State, s': State, step: Step)
  {
    match step
    case AddSessionStep(j) => AddSession(s, s', j)
    case AddOneShotStep(j) => AddOneShot(s, s', j)
    case LockSweepStep(j) => LockSweep(s, s', j)
    case SweepStep(j, evicted) => Sweep(s, s', j, evicted)
    case _ => false
  }

  /** The goroutine behind a session or a one-shot, and RPC readers. */
  predicate WaitNext(s: State, s': State, step: Step)
  {
    match step
    case ReceiveStep(j) => Receive(s, s', j)
    case SetExitedStep(j) => SetExited(s, s', j)
    case LockExitSweepStep(j) => LockExitSweep(s, s', j)
    case ExitSweepStep(j, evicted) => ExitSweep(s, s', j, evicted)
    case ClientReadStep(n) => ClientRead(s, s', n)
    case ClientDoneStep(n) => ClientDone(s, s', n)
    case _ => false
  }

  /** The kernel, reapLoop and drainChildren. */
  predicate CollectNext(s: State, s': State, step: Step, strict: bool)
  {
    match step
    case AdoptStep(j, pid) => Adopt(s, s', j, pid) && (strict ==> pid !in s.byPID && pid !in s.oneShot)
    case DieStep(j, code, signalled) => Die(s, s', j, code, signalled)
    case WakeStep(bySignal) => Wake(s, s', bySignal)
    case LockDrainStep => LockDrain(s, s')
    case Wait4Step(j) => Wait4(s, s', j)
    case DrainEndStep => DrainEnd(s, s')
    case _ => false
  }

  /** NotifyExit. */
  predicate NotifyNext(s: State, s': State, step: Step)
  {
    match step
    case PeekLockStep => PeekLock(s, s')
    case PeekStep => Peek(s, s')
    case SendStep => Send(s, s')
    case TakeLockStep => TakeLock(s, s')
    case TakeStep => Take(s, s')
    case DiscardStep => Discard(s, s')
    case HandStep => Hand(s, s')
    case _ => false
  }

  predicate Next(s: State, s': State, step: Step, strict: bool)
  {
    || EnterNext(s, s', step)
    || StartNext(s, s', step, strict)
    || AddNext(s, s', step)
    || WaitNext(s, s', step)
    || CollectNext(s, s', step, strict)
    || NotifyNext(s, s', step)
  }

  ghost predicate CanTake(s: State, step: Step)
  {
    exists s' :: Next(s, s', step, true)
  }

  /** A run: every state follows from the one before by one step. */
  ghost predicate IsRun(run: seq<State>, steps: seq<Step>, strict: bool)
  {
    && |run| == |steps| + 1
    && Init(run[0])
    && forall i: nat | i < |steps| :: StepAt(run, steps, i, strict)
  }

  ghost predicate StepAt(run: seq<State>, steps: seq<Step>, i: nat, strict: bool)
    requires i < |steps| && |run| == |steps| + 1
  {
    Next(run[i], run[i + 1], steps[i], strict)
  }
}
