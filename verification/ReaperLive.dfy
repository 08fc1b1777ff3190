/**
  Liveness of the agent's locks: whoever stands in the way can take a step, and every such step
  brings the release of both locks closer.
 */
module ReaperLive {
  import opened Options
  import opened Reaper
  import opened ReaperProof

  // ----- who stands in the way -----

  /** A step of whoever holds `mu`, or of one of those who read under it. */
  predicate OfMuHolder(s: State, step: Step)
  {
    match s.mu
    case Free => (s.reaper.Peeking? && step.PeekStep?) || (step.ClientDoneStep? && step.n in s.clients)
    case HeldBy(Spawner(j)) => (step.AddSessionStep? || step.AddOneShotStep? || step.SweepStep?) && step.j == j
    case HeldBy(Waiter(j)) => step.ExitSweepStep? && step.j == j
    case HeldBy(ReapLoop) => step.TakeStep? || step.DiscardStep?
  }

  predicate OfSpawner(step: Step, j: JobId)
  {
    && (|| step.ForkFailsStep? || step.ForkStep? || step.LockAddStep? || step.AddSessionStep? || step.AddOneShotStep?
        || step.LockSweepStep? || step.SweepStep? || step.UnlockSpawnStep?)
    && step.j == j
  }

  predicate OfNotifier(step: Step)
  {
    || step.PeekLockStep? || step.PeekStep? || step.SendStep? || step.TakeLockStep? || step.TakeStep?
    || step.DiscardStep? || step.HandStep?
  }

  /** A step of whoever holds spawnMu. */
  predicate OfSpawnHolder(s: State, step: Step)
  {
    match s.spawnMu
    case Free => false
    case HeldBy(Spawner(j)) => OfSpawner(step, j)
    case HeldBy(Waiter(_)) => false
    case HeldBy(ReapLoop) => OfNotifier(step) || step.Wait4Step? || step.DrainEndStep?
  }

  /** No lock is held, nobody reads, and the reap loop sleeps. */
  predicate AtRest(s: State)
  {
    MuFree(s) && s.spawnMu == Free && s.reaper == Idle
  }

  /** A step of the thread in the way: of `mu` first, then of spawnMu, then of the woken reap loop. */
  predicate OfBlocker(s: State, step: Step)
  {
    if !MuFree(s) then OfMuHolder(s, step)
    else if s.spawnMu != Free then OfSpawnHolder(s, step)
    else step.LockDrainStep?
  }

  // ----- the blocker can move -----

  lemma AdderMovesOn(s: State, j: JobId) returns (s': State, step: Step)
    requires Jobs(s) && j in s.jobs && (s.jobs[j].spawn == Adding || s.jobs[j].spawn == Sweeping)
    ensures AddNext(s, s', step) && (step.AddSessionStep? || step.AddOneShotStep? || step.SweepStep?) && step.j == j
  {
    var job := s.jobs[j];
    if job.spawn == Sweeping {
      step := SweepStep(j, {});
      s' := s.(jobs := s.jobs[j := job.(spawn := Ready)], mu := Free,
               byID := s.byID - {}, byPID := s.byPID - EvictedPids(s, {}));
    } else if job.kind == SessionJob {
      step := AddSessionStep(j);
      s' := s.(jobs := s.jobs[j := job.(spawn := Added)], mu := Free,
               byID := s.byID + {j}, byPID := s.byPID[job.pid := j]);
    } else {
      step := AddOneShotStep(j);
      s' := s.(jobs := s.jobs[j := job.(spawn := Ready)], mu := Free, oneShot := s.oneShot[job.pid := j]);
    }
  }

  lemma SweeperMovesOn(s: State, j: JobId) returns (s': State)
    requires j in s.jobs && s.jobs[j].wait == SweepingAfterExit
    ensures WaitNext(s, s', ExitSweepStep(j, {}))
  {
    s' := s.(jobs := s.jobs[j := s.jobs[j].(wait := Returned)], mu := Free,
             byID := s.byID - {}, byPID := s.byPID - EvictedPids(s, {}));
  }

  function Settled(s: State, target: Option<JobId>): map<JobId, Job>
    requires CanSettle(s)
  {
    var code := s.jobs[s.reaper.victim].life.code;
    map k | k in s.jobs ::
      s.jobs[k].(
        life := if k == s.reaper.victim then Gone(code) else s.jobs[k].life,
        buffer := if Some(k) == target then s.jobs[k].buffer + [code] else s.jobs[k].buffer,
        sent := if Some(k) == target then s.jobs[k].sent + [code] else s.jobs[k].sent)
  }

  /** Inside drainChildren, Wait4 always answers. */
  lemma CollectorMovesOn(s: State) returns (s': State, step: Step)
    requires Kernel(s) && s.reaper.Draining?
    ensures CollectNext(s, s', step, true) && (step.DrainEndStep? || step.Wait4Step?)
  {
    if Zombies(s) == {} {
      step := DrainEndStep;
      s' := s.(reaper := Idle, spawnMu := Free);
    } else {
      var j :| j in Zombies(s);
      step := Wait4Step(j);
      s' := s.(jobs := s.jobs[j := s.jobs[j].(life := InHand(s.jobs[j].life.code))],
               procs := s.procs - {s.jobs[j].pid}, reaper := Collected(j));
    }
  }

  /** Inside notifyExit, past the lock: no channel it sends on is full. */
  lemma SenderMovesOn(s: State) returns (s': State, step: Step)
    requires Jobs(s) && Kernel(s) && Routing(s) && (s.reaper.Routed? || s.reaper.Handing?)
    ensures NotifyNext(s, s', step)
  {
    step := if s.reaper.Routed? then SendStep else HandStep;
    s' := s.(jobs := Settled(s, Some(s.reaper.victim)), reaper := Draining);
  }

  lemma NotifierMovesOn(s: State) returns (s': State, step: Step)
    requires Kernel(s) && (s.reaper.Peeking? || s.reaper.Taking?)
    ensures NotifyNext(s, s', step)
    ensures if s.reaper.Peeking? then step.PeekStep? else step.TakeStep? || step.DiscardStep?
  {
    var v := s.reaper.victim;
    var pid := s.jobs[v].pid;
    if s.reaper.Peeking? {
      step := PeekStep;
      s' := s.(reaper := if pid in s.byPID then Routed(v, s.byPID[pid]) else Unrouted(v));
    } else if pid in s.oneShot {
      step := TakeStep;
      s' := s.(mu := Free, oneShot := s.oneShot - {pid}, reaper := Handing(v, s.oneShot[pid]));
    } else {
      step := DiscardStep;
      s' := s.(jobs := Settled(s, None), mu := Free, reaper := Draining);
    }
  }

  /** Whoever stands in the way of `mu` can move on without any other lock. */
  lemma MuHolderMovesOn(s: State) returns (s': State, step: Step)
    requires Jobs(s) && Kernel(s) && MuOk(s) && !MuFree(s)
    ensures Next(s, s', step, true) && OfMuHolder(s, step)
  {
    if s.reaper.Peeking? || s.reaper.Taking? {
      s', step := NotifierMovesOn(s);
    } else if s.mu == Free {
      var n :| n in s.clients;
      step := ClientDoneStep(n);
      s' := s.(clients := s.clients - {n});
      assert WaitNext(s, s', step);
    } else if s.mu.thread.Waiter? {
      step := ExitSweepStep(s.mu.thread.job, {});
      s' := SweeperMovesOn(s, s.mu.thread.job);
    } else {
      s', step := AdderMovesOn(s, s.mu.thread.job);
    }
  }

  /** A spawner that holds spawnMu and not `mu`, with `mu` free, moves on. */
  lemma SpawnerMovesOn(s: State, j: JobId) returns (s': State, step: Step)
    requires j in s.jobs && HoldsSpawnMu(s.jobs[j].spawn) && s.jobs[j].spawn != Adding && s.jobs[j].spawn != Sweeping
             && MuFree(s)
    ensures (StartNext(s, s', step, true) || AddNext(s, s', step) || EnterNext(s, s', step)) && OfSpawner(step, j)
  {
    var job := s.jobs[j];
    match job.spawn
    case Locked =>
      step := ForkFailsStep(j);
      s' := s.(jobs := s.jobs[j := job.(spawn := Failed)], spawnMu := Free);
    case Forked =>
      step := LockAddStep(j);
      s' := s.(jobs := s.jobs[j := job.(spawn := Adding)], mu := HeldBy(Spawner(j)));
    case Added =>
      step := LockSweepStep(j);
      s' := s.(jobs := s.jobs[j := job.(spawn := Sweeping)], mu := HeldBy(Spawner(j)));
    case Ready =>
      step := UnlockSpawnStep(j);
      s' := s.(jobs := s.jobs[j := job.(spawn := Finished)], spawnMu := Free);
  }

  /** A reap loop that holds spawnMu, with `mu` free, moves on. */
  lemma ReaperMovesOn(s: State) returns (s': State, step: Step)
    requires Jobs(s) && Kernel(s) && Routing(s) && !s.reaper.Idle? && !s.reaper.Woken? && !s.reaper.Taking? && MuFree(s)
    ensures (NotifyNext(s, s', step) && OfNotifier(step))
         || (CollectNext(s, s', step, true) && (step.DrainEndStep? || step.Wait4Step?))
  {
    match s.reaper
    case Draining =>
      s', step := CollectorMovesOn(s);
    case Collected(v) =>
      step := PeekLockStep;
      s' := s.(reaper := Peeking(v));
    case Unrouted(v) =>
      step := TakeLockStep;
      s' := s.(reaper := Taking(v), mu := HeldBy(ReapLoop));
    case _ =>
      s', step := SenderMovesOn(s);
  }

  lemma SpawnHolderMovesOn(s: State) returns (s': State, step: Step)
    requires Jobs(s) && Kernel(s) && Routing(s) && SpawnMuOk(s) && MuOk(s) && MuFree(s) && s.spawnMu != Free
    ensures Next(s, s', step, true) && OfSpawnHolder(s, step)
  {
    if s.spawnMu.thread.ReapLoop? {
      s', step := ReaperMovesOn(s);
    } else {
      s', step := SpawnerMovesOn(s, s.spawnMu.thread.job);
    }
  }

  ghost predicate BlockerCanMove(s: State)
  {
    exists s', step :: Next(s, s', step, true) && OfBlocker(s, step)
  }

  lemma BlockerMovesOn(s: State)
    requires Inv(s) && !AtRest(s)
    ensures BlockerCanMove(s)
  {
    var s', step := s, LockDrainStep;
    if !MuFree(s) {
      s', step := MuHolderMovesOn(s);
    } else if s.spawnMu != Free {
      s', step := SpawnHolderMovesOn(s);
    } else {
      s' := s.(reaper := Draining, spawnMu := HeldBy(ReapLoop));
      assert CollectNext(s, s', step, true);
    }
    assert Next(s, s', step, true) && OfBlocker(s, step);
  }

  /**
    No deadlock: in every state of every run that is not at rest, the very thread in the way can
    take a step: the holder of `mu` or one of its readers; else the holder of spawnMu; else the
    woken reap loop.
   */
  lemma NoDeadlock(run: seq<State>, steps: seq<Step>, i: nat)
    requires IsRun(run, steps, true) && i < |run| && !AtRest(run[i])
    ensures BlockerCanMove(run[i])
  {
    RunKeepsInv(run, steps, i);
    BlockerMovesOn(run[i]);
  }

  // ----- and each of its steps brings the release closer -----

  function SpawnRank(p: SpawnPhase): nat
  {
    match p
    case Locked => 6
    case Forked => 5
    case Adding => 4
    case Added => 3
    case Sweeping => 2
    case Ready => 1
    case _ => 0
  }

  function ReapRank(p: Phase): nat
  {
    match p
    case Idle => 0
    case Draining => 1
    case Woken => 2
    case Handing(_, _) => 4
    case Taking(_) => 5
    case Routed(_, _) => 6
    case Unrouted(_) => 6
    case Peeking(_) => 7
    case Collected(_) => 8
  }

  /** What the spawner that holds spawnMu still has to do. */
  function SpawnerWork(s: State): nat
  {
    if s.spawnMu.HeldBy? && s.spawnMu.thread.Spawner? && s.spawnMu.thread.job in s.jobs
    then SpawnRank(s.jobs[s.spawnMu.thread.job].spawn) else 0
  }

  /** What the reap loop still has to do: a round per zombie, and the rest of this one. */
  function ReaperWork(s: State): nat
  {
    if s.reaper.Idle? then 0 else 8 * |Zombies(s)| + ReapRank(s.reaper)
  }

  function MuWork(s: State): nat
  {
    (if s.mu.HeldBy? then 1 else 0) + |s.clients| + (if s.reaper.Peeking? then 1 else 0)
  }

  function Work(s: State): nat
  {
    2 * (SpawnerWork(s) + ReaperWork(s)) + MuWork(s)
  }

  /** The same jobs are zombies. */
  predicate SameZombies(s: State, s': State)
  {
    && s.jobs.Keys <= s'.jobs.Keys
    && (forall k | k in s'.jobs :: s'.jobs[k].life.Zombie? <==> k in s.jobs && s.jobs[k].life.Zombie?)
  }

  lemma ZombiesStay(s: State, s': State)
    requires SameZombies(s, s')
    ensures Zombies(s') == Zombies(s)
  {
  }

  lemma StarterSpends(s: State, s': State, step: Step, j: JobId)
    requires j in s.jobs && JobOk(s.jobs[j]) && s.spawnMu == HeldBy(Spawner(j)) && StartNext(s, s', step, true)
             && step.j == j
    ensures SpawnerWork(s') < SpawnerWork(s) && ReaperWork(s') == ReaperWork(s) && MuWork(s') <= MuWork(s) + 1
  {
    assert SameZombies(s, s');
    ZombiesStay(s, s');
  }

  lemma FailureSpends(s: State, s': State, j: JobId)
    requires j in s.jobs && s.spawnMu == HeldBy(Spawner(j)) && ForkFails(s, s', j)
    ensures SpawnerWork(s') < SpawnerWork(s) && ReaperWork(s') == ReaperWork(s) && MuWork(s') == MuWork(s)
  {
    assert SameZombies(s, s');
    ZombiesStay(s, s');
  }

  lemma AdderKeepsZombies(s: State, s': State, step: Step)
    requires AddNext(s, s', step)
    ensures |Zombies(s')| == |Zombies(s)| && s'.reaper == s.reaper && s'.clients == s.clients
  {
    assert SameZombies(s, s');
    ZombiesStay(s, s');
  }

  lemma AdderSpends(s: State, s': State, step: Step, j: JobId)
    requires j in s.jobs && s.spawnMu == HeldBy(Spawner(j)) && AddNext(s, s', step) && step.j == j
    ensures SpawnerWork(s') < SpawnerWork(s) && ReaperWork(s') == ReaperWork(s)
    ensures MuWork(s') <= MuWork(s) + 1 && (s.mu.HeldBy? ==> MuWork(s') < MuWork(s))
  {
    AdderKeepsZombies(s, s', step);
  }

  lemma NotifierKeepsZombies(s: State, s': State, step: Step)
    requires NotifyNext(s, s', step)
    ensures |Zombies(s')| == |Zombies(s)| && s'.clients == s.clients && s'.spawnMu == s.spawnMu
  {
    assert SameZombies(s, s');
    ZombiesStay(s, s');
  }

  lemma NotifierSpends(s: State, s': State, step: Step)
    requires s.spawnMu == HeldBy(ReapLoop) && NotifyNext(s, s', step)
    ensures SpawnerWork(s') == SpawnerWork(s) && ReaperWork(s') < ReaperWork(s) && MuWork(s') <= MuWork(s) + 1
    ensures step.PeekStep? || ((step.TakeStep? || step.DiscardStep?) && s.mu.HeldBy?) ==> MuWork(s') < MuWork(s)
  {
    NotifierKeepsZombies(s, s', step);
  }

  lemma CollectorSpends(s: State, s': State, step: Step)
    requires CollectNext(s, s', step, true) && (step.Wait4Step? || step.DrainEndStep? || step.LockDrainStep?)
    requires step.LockDrainStep? || s.spawnMu == HeldBy(ReapLoop)
    ensures SpawnerWork(s') == SpawnerWork(s) && ReaperWork(s') < ReaperWork(s) && MuWork(s') == MuWork(s)
  {
    if step.Wait4Step? {
      assert Zombies(s') == Zombies(s) - {step.j};
    }
  }

  /** Readers and those who wait for a code have no work but that of `mu`. */
  lemma WaiterKeepsZombies(s: State, s': State, step: Step)
    requires WaitNext(s, s', step)
    ensures |Zombies(s')| == |Zombies(s)| && s'.reaper == s.reaper
  {
    assert SameZombies(s, s');
    ZombiesStay(s, s');
  }

  lemma WaiterKeepsWork(s: State, s': State, step: Step)
    requires WaitNext(s, s', step)
    ensures SpawnerWork(s') == SpawnerWork(s) && ReaperWork(s') == ReaperWork(s)
  {
    WaiterKeepsZombies(s, s', step);
  }

  lemma ReaderSpends(s: State, s': State, step: Step)
    requires WaitNext(s, s', step) && (step.ClientDoneStep? || (step.ExitSweepStep? && s.mu.HeldBy?))
    ensures SpawnerWork(s') == SpawnerWork(s) && ReaperWork(s') == ReaperWork(s) && MuWork(s') < MuWork(s)
  {
    WaiterKeepsWork(s, s', step);
  }

  lemma MuHolderSpends(s: State, s': State, step: Step)
    requires SpawnMuOk(s) && MuOk(s) && !MuFree(s) && Next(s, s', step, true) && OfMuHolder(s, step)
    ensures Work(s') < Work(s)
  {
    if step.ClientDoneStep? || step.ExitSweepStep? {
      ReaderSpends(s, s', step);
    } else if step.PeekStep? || step.TakeStep? || step.DiscardStep? {
      NotifierSpends(s, s', step);
    } else {
      AdderSpends(s, s', step, s.mu.thread.job);
    }
  }

  lemma SpawnerSpends(s: State, s': State, step: Step, j: JobId)
    requires Jobs(s) && j in s.jobs && s.spawnMu == HeldBy(Spawner(j)) && Next(s, s', step, true) && OfSpawner(step, j)
    ensures Work(s') < Work(s)
  {
    if step.ForkFailsStep? {
      FailureSpends(s, s', j);
    } else if step.ForkStep? || step.LockAddStep? || step.UnlockSpawnStep? {
      StarterSpends(s, s', step, j);
    } else {
      AdderSpends(s, s', step, j);
    }
  }

  lemma ReaperSpends(s: State, s': State, step: Step)
    requires s.spawnMu == HeldBy(ReapLoop) && Next(s, s', step, true) && OfSpawnHolder(s, step)
    ensures Work(s') < Work(s)
  {
    if OfNotifier(step) {
      NotifierSpends(s, s', step);
    } else {
      CollectorSpends(s, s', step);
    }
  }

  lemma BlockerSpends(s: State, s': State, step: Step)
    requires Inv(s) && Next(s, s', step, true) && OfBlocker(s, step)
    ensures Work(s') < Work(s)
  {
    if !MuFree(s) {
      MuHolderSpends(s, s', step);
    } else if s.spawnMu == Free {
      CollectorSpends(s, s', step);
    } else if s.spawnMu.thread.Spawner? {
      SpawnerSpends(s, s', step, s.spawnMu.thread.job);
    } else {
      ReaperSpends(s, s', step);
    }
  }

  predicate NoMoreWork(s: State, s': State)
  {
    Work(s') <= Work(s)
  }

  lemma WaitersAddNoWork(s: State, s': State, step: Step)
    requires WaitNext(s, s', step) && !step.ClientReadStep? && !step.LockExitSweepStep?
    ensures NoMoreWork(s, s')
  {
    WaiterKeepsWork(s, s', step);
  }

  lemma NewcomersAddNoWork(s: State, s': State, step: Step)
    requires (EnterNext(s, s', step) && step.NewJobStep?) || (CollectNext(s, s', step, true) && step.AdoptStep?)
    ensures NoMoreWork(s, s')
  {
    assert SameZombies(s, s');
    ZombiesStay(s, s');
  }

  lemma SpawnersAddNoWork(s: State, s': State, step: Step)
    requires SpawnMuOk(s) && Jobs(s)
    requires StartNext(s, s', step, true) || AddNext(s, s', step) || (EnterNext(s, s', step) && step.ForkFailsStep?)
    ensures NoMoreWork(s, s')
  {
    if StartNext(s, s', step, true) {
      StarterSpends(s, s', step, step.j);
    } else if AddNext(s, s', step) {
      AdderSpends(s, s', step, step.j);
    } else {
      FailureSpends(s, s', step.j);
    }
  }

  lemma ReaperAddsNoWork(s: State, s': State, step: Step)
    requires SpawnMuOk(s)
    requires NotifyNext(s, s', step)
          || (CollectNext(s, s', step, true) && (step.Wait4Step? || step.DrainEndStep? || step.LockDrainStep?))
    ensures NoMoreWork(s, s')
  {
    if NotifyNext(s, s', step) {
      NotifierSpends(s, s', step);
    } else {
      CollectorSpends(s, s', step);
    }
  }

  lemma ReadersAdd(s: State, s': State, step: Step)
    requires WaitNext(s, s', step) && (step.ClientReadStep? || step.LockExitSweepStep?)
    ensures Work(s') == Work(s) + 1
  {
    WaiterKeepsWork(s, s', step);
  }

  lemma RequestsAdd(s: State, s': State, j: JobId)
    requires LockSpawn(s, s', j)
    ensures Work(s') == Work(s) + 12
  {
    assert SameZombies(s, s');
    ZombiesStay(s, s');
  }

  lemma DeathsAdd(s: State, s': State, j: JobId, code: int, signalled: bool)
    requires Die(s, s', j, code, signalled)
    ensures Work(s') == Work(s) + if s.reaper.Idle? then 0 else 16
  {
    assert j !in Zombies(s) && Zombies(s') == Zombies(s) + {j};
  }

  lemma WakeupsAdd(s: State, s': State, bySignal: bool)
    requires Wake(s, s', bySignal)
    ensures Work(s') == Work(s) + 16 * |Zombies(s)| + 4
  {
    assert SameZombies(s, s');
    ZombiesStay(s, s');
  }

  /** What puts a release off: a wakeup, a request for either lock, or a death while the loop is awake. */
  predicate Delays(s: State, step: Step)
  {
    || step.WakeStep? || step.LockSpawnStep? || step.ClientReadStep? || step.LockExitSweepStep?
    || (step.DieStep? && !s.reaper.Idle?)
  }

  /** The bound grows by exactly these steps; no other step of any thread raises it. */
  lemma WorkGrowsIff(s: State, s': State, step: Step)
    requires SpawnMuOk(s) && Jobs(s) && Next(s, s', step, true)
    ensures Work(s') > Work(s) <==> Delays(s, step)
  {
    if step.ClientReadStep? || step.LockExitSweepStep? {
      ReadersAdd(s, s', step);
    } else if WaitNext(s, s', step) {
      WaitersAddNoWork(s, s', step);
    } else if step.LockSpawnStep? {
      RequestsAdd(s, s', step.j);
    } else if step.NewJobStep? || step.AdoptStep? {
      NewcomersAddNoWork(s, s', step);
    } else if StartNext(s, s', step, true) || AddNext(s, s', step) || step.ForkFailsStep? {
      SpawnersAddNoWork(s, s', step);
    } else if step.DieStep? {
      DeathsAdd(s, s', step.j, step.code, step.signalled);
    } else if step.WakeStep? {
      WakeupsAdd(s, s', step.bySignal);
    } else {
      ReaperAddsNoWork(s, s', step);
    }
  }

  /** Whatever the threads in the way choose to do, the agent is at rest after at most `n` of their steps. */
  ghost predicate Drains(s: State, n: nat)
    decreases n
  {
    AtRest(s) || (n > 0 && BlockerCanMove(s)
                  && forall s', step :: Next(s, s', step, true) && OfBlocker(s, step) ==> Drains(s', n - 1))
  }

  lemma {:induction false} DrainsInTime(s: State, n: nat)
    requires Inv(s) && Work(s) <= n
    ensures Drains(s, n)
    decreases n
  {
    if !AtRest(s) {
      BlockerMovesOn(s);
      forall s', step | Next(s, s', step, true) && OfBlocker(s, step)
        ensures n > 0 && Drains(s', n - 1)
      {
        BlockerSpends(s, s', step);
        StepKeepsInv(s, s', step);
        DrainsInTime(s', n - 1);
      }
    }
  }

  /** Every held lock is released: from every state of every run, within `Work` steps of those in the way. */
  lemma LocksAreReleased(run: seq<State>, steps: seq<Step>, i: nat)
    requires IsRun(run, steps, true) && i < |run|
    ensures Drains(run[i], Work(run[i]))
  {
    RunKeepsInv(run, steps, i);
    DrainsInTime(run[i], Work(run[i]));
  }
}
