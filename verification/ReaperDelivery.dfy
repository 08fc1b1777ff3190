/**
  A code that is owed arrives: from every state in which a child has died, the agent's own steps,
  whichever its threads take, bring the code to the goroutine that waits for it.
 */
module ReaperDelivery {
  import opened Options
  import Paths
  import opened Reaper
  import opened ReaperLive
  import opened ReaperProof

  // ----- when a reader can move -----

  /** The reader of a job whose spawn has returned can move exactly when its channel holds a code, and gets that. */
  lemma ReaderMovesIff(s: State, j: JobId)
    requires At(s, j, Finished) && s.jobs[j].wait == Blocked
    ensures CanTake(s, ReceiveStep(j)) <==> s.jobs[j].buffer != []
    ensures forall s' | Next(s, s', ReceiveStep(j), true) ::
              j in s'.jobs && s.jobs[j].buffer != [] && s'.jobs[j].wait == Received(s.jobs[j].buffer[0])
  {
    if s.jobs[j].buffer != [] {
      var job := s.jobs[j].(wait := Received(s.jobs[j].buffer[0]), buffer := s.jobs[j].buffer[1..]);
      assert Next(s, s.(jobs := s.jobs[j := job]), ReceiveStep(j), true);
    }
  }

  /** Once it has a code, a session's reader marks the exit at once. */
  lemma MarksExitIff(s: State, j: JobId)
    requires j in s.jobs
    ensures CanTake(s, SetExitedStep(j)) <==> s.jobs[j].wait.Received? && s.jobs[j].kind == SessionJob
    ensures forall s' | Next(s, s', SetExitedStep(j), true) :: j in s'.jobs && s'.jobs[j].wait == Exited
  {
    if s.jobs[j].wait.Received? && s.jobs[j].kind == SessionJob {
      assert Next(s, s.(jobs := s.jobs[j := s.jobs[j].(wait := Exited)]), SetExitedStep(j), true);
    }
  }

  /** Then it takes `mu` exactly when that is free. */
  lemma SweepsAfterExitIff(s: State, j: JobId)
    requires j in s.jobs
    ensures CanTake(s, LockExitSweepStep(j)) <==> s.jobs[j].wait == Exited && MuFree(s)
    ensures forall s' | Next(s, s', LockExitSweepStep(j), true) :: j in s'.jobs && s'.jobs[j].wait == SweepingAfterExit
  {
    if s.jobs[j].wait == Exited && MuFree(s) {
      var s' := s.(jobs := s.jobs[j := s.jobs[j].(wait := SweepingAfterExit)], mu := HeldBy(Waiter(j)));
      assert Next(s, s', LockExitSweepStep(j), true);
    }
  }

  // ----- a code that is owed -----

  /** The child of a session or one-shot has died with `code`, and nobody has received it. */
  predicate Owed(s: State, j: JobId, code: int)
  {
    && j in s.jobs && s.jobs[j].kind != OrphanJob && s.jobs[j].wait == Blocked
    && s.jobs[j].life in {Zombie(code), InHand(code), Gone(code)}
  }

  predicate Arrived(s: State, j: JobId, code: int)
  {
    j in s.jobs && s.jobs[j].wait == Received(code)
  }

  /** A step of a thread in the way. */
  ghost predicate Blocks(s: State, s': State)
  {
    exists step :: Next(s, s', step, true) && OfBlocker(s, step)
  }

  /** At rest, the ticker wakes the loop while the child is not reported, and then the reader reads. */
  ghost predicate TicksOrReads(s: State, s': State, j: JobId)
  {
    && j in s.jobs
    && Next(s, s', if s.jobs[j].life.Gone? then ReceiveStep(j) else WakeStep(false), true)
  }

  /**
    The agent left to itself: those in the way move until it is at rest, whichever steps they choose; then
    the ticker ticks or the reader reads.
   */
  ghost predicate Arrives(s: State, j: JobId, code: int, n: nat)
  {
    Paths.Comes(Blocks, x => !AtRest(x), (x, y) => TicksOrReads(x, y, j), x => Arrived(x, j, code), s, n)
  }

  /** What one more drain takes, if this child needs one. */
  function DrainShare(s: State, j: JobId): nat
  {
    if s.reaper.Idle? && j in s.jobs && !s.jobs[j].life.Gone? then 16 * |Zombies(s)| + 5 else 0
  }

  /** How many steps are left: what is in the way, one more drain, and the read. */
  function Distance(s: State, j: JobId): nat
  {
    Work(s) + 1 + DrainShare(s, j)
  }

  predicate Waits(s: State, s': State, j: JobId)
  {
    j in s.jobs && j in s'.jobs && s'.jobs[j].wait == s.jobs[j].wait
  }

  lemma AddersLeaveWaiting(s: State, s': State, step: Step, j: JobId)
    requires EnterNext(s, s', step) || StartNext(s, s', step, true) || AddNext(s, s', step)
    requires j in s.jobs
    ensures Waits(s, s', j)
  {
  }

  lemma ReaperLeavesWaiting(s: State, s': State, step: Step, j: JobId)
    requires CollectNext(s, s', step, true) || NotifyNext(s, s', step)
    requires j in s.jobs
    ensures Waits(s, s', j)
  {
  }

  lemma WaitersLeaveWaiting(s: State, s': State, step: Step, j: JobId)
    requires WaitNext(s, s', step) && (step.ExitSweepStep? || step.ClientDoneStep?)
    requires j in s.jobs && s.jobs[j].wait != SweepingAfterExit
    ensures Waits(s, s', j)
  {
  }

  lemma BlockerLeavesWaiting(s: State, s': State, step: Step, j: JobId)
    requires Next(s, s', step, true) && OfBlocker(s, step) && j in s.jobs && s.jobs[j].wait != SweepingAfterExit
    ensures Waits(s, s', j)
  {
    if WaitNext(s, s', step) {
      WaitersLeaveWaiting(s, s', step, j);
    } else if CollectNext(s, s', step, true) || NotifyNext(s, s', step) {
      ReaperLeavesWaiting(s, s', step, j);
    } else {
      AddersLeaveWaiting(s, s', step, j);
    }
  }

  lemma BlockerKeepsOwed(s: State, s': State, step: Step, j: JobId, code: int)
    requires Jobs(s) && Kernel(s) && Owed(s, j, code) && Next(s, s', step, true) && OfBlocker(s, step)
    ensures Owed(s', j, code) && Aged(s, s')
  {
    BlockerLeavesWaiting(s, s', step, j);
    StepAgesJobs(s, s', step);
    StillDead(s.jobs[j], s'.jobs[j], code);
  }

  lemma StillDead(a: Job, b: Job, code: int)
    requires a.life in {Zombie(code), InHand(code), Gone(code)} && Later(a, b)
    ensures b.life in {Zombie(code), InHand(code), Gone(code)} && b.kind == a.kind && (a.life.Gone? ==> b.life.Gone?)
  {
  }

  /** With the loop asleep, those in the way collect nobody and do not wake it. */
  lemma SleepersStay(s: State, s': State, step: Step)
    requires SpawnMuOk(s) && MuOk(s) && Jobs(s) && s.reaper.Idle? && Next(s, s', step, true) && OfBlocker(s, step)
    ensures s'.reaper.Idle? && |Zombies(s')| == |Zombies(s)|
  {
    if WaitNext(s, s', step) {
      WaiterKeepsZombies(s, s', step);
    } else if AddNext(s, s', step) {
      AdderKeepsZombies(s, s', step);
    } else {
      SpawnersStay(s, s', step);
    }
  }

  lemma SpawnersStay(s: State, s': State, step: Step)
    requires Jobs(s) && s.reaper.Idle? && (StartNext(s, s', step, true) || EnterNext(s, s', step))
    ensures s'.reaper.Idle? && |Zombies(s')| == |Zombies(s)|
  {
    assert s'.reaper == s.reaper;
    if EnterNext(s, s', step) {
      EnterKeepsZombies(s, s', step);
    } else {
      StartKeepsZombies(s, s', step);
    }
  }

  lemma EnterKeepsZombies(s: State, s': State, step: Step)
    requires EnterNext(s, s', step)
    ensures |Zombies(s')| == |Zombies(s)|
  {
    assert SameZombies(s, s');
    ZombiesStay(s, s');
  }

  lemma StartKeepsZombies(s: State, s': State, step: Step)
    requires Jobs(s) && StartNext(s, s', step, true)
    ensures |Zombies(s')| == |Zombies(s)|
  {
    assert SameZombies(s, s');
    ZombiesStay(s, s');
  }

  lemma ShareOf(s: State, s': State, j: JobId)
    requires j in s.jobs && j in s'.jobs && HasDied(s.jobs[j]) && Later(s.jobs[j], s'.jobs[j])
    requires s.reaper.Idle? ==> s'.reaper.Idle? && |Zombies(s')| == |Zombies(s)|
    requires !s.reaper.Idle? && s'.reaper.Idle? ==> !s'.jobs[j].life.Zombie? && !s'.jobs[j].life.InHand?
    ensures DrainShare(s', j) <= DrainShare(s, j)
  {
  }

  lemma DrainShareFalls(s: State, s': State, step: Step, j: JobId)
    requires SpawnMuOk(s) && MuOk(s) && Jobs(s) && Kernel(s') && j in s.jobs && j in s'.jobs
    requires HasDied(s.jobs[j]) && Later(s.jobs[j], s'.jobs[j]) && Next(s, s', step, true) && OfBlocker(s, step)
    ensures DrainShare(s', j) <= DrainShare(s, j)
  {
    if s.reaper.Idle? {
      SleepersStay(s, s', step);
    } else if s'.reaper.Idle? {
      FallsAsleep(s, s', step, j);
    }
    ShareOf(s, s', j);
  }

  predicate HasDied(job: Job)
  {
    job.life.Zombie? || job.life.InHand? || job.life.Gone?
  }

  lemma BlockerComesCloser(s: State, s': State, step: Step, j: JobId, code: int)
    requires Inv(s) && Owed(s, j, code) && Next(s, s', step, true) && OfBlocker(s, step)
    ensures Inv(s') && Owed(s', j, code) && Distance(s', j) < Distance(s, j)
  {
    BlockerSpends(s, s', step);
    BlockerKeepsOwed(s, s', step, j, code);
    StepKeepsInv(s, s', step);
    assert Later(s.jobs[j], s'.jobs[j]);
    DrainShareFalls(s, s', step, j);
  }

  /** The loop goes to sleep only with every dead child reported. */
  lemma FallsAsleep(s: State, s': State, step: Step, j: JobId)
    requires Next(s, s', step, true) && !s.reaper.Idle? && s'.reaper.Idle? && Kernel(s') && j in s'.jobs
    ensures !s'.jobs[j].life.Zombie? && !s'.jobs[j].life.InHand?
  {
    if !CollectNext(s, s', step, true) {
      OthersDoNotSleep(s, s', step);
    }
    assert j !in Zombies(s');
  }

  lemma OthersDoNotSleep(s: State, s': State, step: Step)
    requires EnterNext(s, s', step) || StartNext(s, s', step, true) || AddNext(s, s', step)
          || WaitNext(s, s', step) || NotifyNext(s, s', step)
    ensures s'.reaper.Idle? ==> s.reaper.Idle?
  {
    if NotifyNext(s, s', step) {
      NotifierIsAwake(s, s', step);
    } else {
      LoopIsLeft(s, s', step);
    }
  }

  lemma NotifierIsAwake(s: State, s': State, step: Step)
    requires NotifyNext(s, s', step)
    ensures !s'.reaper.Idle?
  {
  }

  lemma LoopIsLeft(s: State, s': State, step: Step)
    requires EnterNext(s, s', step) || StartNext(s, s', step, true) || AddNext(s, s', step) || WaitNext(s, s', step)
    ensures s'.reaper == s.reaper
  {
  }

  /** At rest, a child that has died is a zombie or reported, and its spawn has returned. */
  lemma RestMeans(s: State, j: JobId, code: int)
    requires Inv(s) && Owed(s, j, code) && AtRest(s)
    ensures At(s, j, Finished) && s.jobs[j].life in {Zombie(code), Gone(code)}
    ensures s.jobs[j].life.Gone? ==> s.jobs[j].buffer == [code]
  {
    assert JobOk(s.jobs[j]);
  }

  lemma TickComesCloser(s: State, j: JobId, code: int) returns (s': State)
    requires Inv(s) && Owed(s, j, code) && AtRest(s) && !s.jobs[j].life.Gone?
    ensures Next(s, s', WakeStep(false), true) && Inv(s') && Owed(s', j, code) && Distance(s', j) < Distance(s, j)
  {
    s' := Ticks(s);
    WakeupsAdd(s, s', false);
    StepKeepsInv(s, s', WakeStep(false));
  }

  lemma ReadArrives(s: State, j: JobId, code: int) returns (s': State)
    requires Inv(s) && Owed(s, j, code) && AtRest(s) && s.jobs[j].life.Gone?
    ensures Next(s, s', ReceiveStep(j), true) && Arrived(s', j, code)
  {
    RestMeans(s, j, code);
    ReaderMovesIff(s, j);
    s' :| Next(s, s', ReceiveStep(j), true);
  }

  lemma BlockersLead(s: State, s': State, j: JobId, code: int)
    requires Inv(s) && Owed(s, j, code) && Blocks(s, s')
    ensures Inv(s') && Owed(s', j, code) && Distance(s', j) < Distance(s, j)
  {
    var step :| Next(s, s', step, true) && OfBlocker(s, step);
    BlockerComesCloser(s, s', step, j, code);
  }

  lemma BlockersMove(s: State)
    requires Inv(s) && !AtRest(s)
    ensures exists s' :: Blocks(s, s')
  {
    BlockerMovesOn(s);
    var s', step :| Next(s, s', step, true) && OfBlocker(s, step);
    assert Blocks(s, s');
  }

  lemma RestLeads(s: State, j: JobId, code: int) returns (s': State)
    requires Inv(s) && Owed(s, j, code) && AtRest(s)
    ensures TicksOrReads(s, s', j)
    ensures Arrived(s', j, code) || (Inv(s') && Owed(s', j, code) && Distance(s', j) < Distance(s, j))
  {
    if s.jobs[j].life.Gone? {
      s' := ReadArrives(s, j, code);
    } else {
      s' := TickComesCloser(s, j, code);
    }
  }

  ghost predicate InvOwed(s: State, j: JobId, code: int)
  {
    Inv(s) && Owed(s, j, code)
  }

  lemma ArrivesInTime(s: State, j: JobId, code: int)
    requires InvOwed(s, j, code)
    ensures Arrives(s, j, code, Distance(s, j))
  {
    var inv, left := (x: State) => InvOwed(x, j, code), (x: State) => Distance(x, j);
    var busy, done := (x: State) => !AtRest(x), (x: State) => Arrived(x, j, code);
    var turn := (x, y) => TicksOrReads(x, y, j);
    forall x | inv(x) && !done(x) && busy(x)
      ensures exists y :: Blocks(x, y)
    {
      BlockersMove(x);
    }
    forall x, y | inv(x) && !done(x) && busy(x) && Blocks(x, y)
      ensures Paths.Closer(inv, left, done, x, y)
    {
      BlockersLead(x, y, j, code);
    }
    forall x | inv(x) && !done(x) && !busy(x)
      ensures exists y :: turn(x, y) && Paths.Closer(inv, left, done, x, y)
    {
      var y := RestLeads(x, j, code);
      assert turn(x, y) && Paths.Closer(inv, left, done, x, y);
    }
    Paths.ComesInTime(Blocks, busy, turn, done, inv, left, s, Distance(s, j));
  }

  /** The ticker wakes a sleeping loop, signal or no signal. */
  lemma Ticks(s: State) returns (s': State)
    requires s.reaper.Idle?
    ensures Next(s, s', WakeStep(false), true) && Wake(s, s', false) && s'.jobs == s.jobs && !s'.reaper.Idle?
  {
    s' := s.(reaper := Woken, atWake := Zombies(s));
    assert CollectNext(s, s', WakeStep(false), true);
  }

  /**
    Delivery: in every state of every run, the code of a dead session or one-shot that nobody has received
    is received within `Distance` of the agent's own steps, without a signal, request or death.
   */
  lemma CodeArrives(run: seq<State>, steps: seq<Step>, i: nat, j: JobId, code: int)
    requires IsRun(run, steps, true) && i < |run| && Owed(run[i], j, code)
    ensures Arrives(run[i], j, code, Distance(run[i], j))
  {
    RunKeepsInv(run, steps, i);
    ArrivesInTime(run[i], j, code);
  }

  // ----- and a session whose code has arrived is retired -----

  /** Exited, the reader waits for whoever holds `mu`. */
  predicate Queues(s: State, j: JobId)
  {
    j in s.jobs && !s.jobs[j].wait.Received? && !MuFree(s)
  }

  ghost predicate HolderMoves(s: State, s': State)
  {
    exists step :: Next(s, s', step, true) && OfMuHolder(s, step)
  }

  ghost predicate ReaderMoves(s: State, s': State, j: JobId)
  {
    j in s.jobs && Next(s, s', if s.jobs[j].wait.Received? then SetExitedStep(j) else LockExitSweepStep(j), true)
  }

  predicate Retired(s: State, j: JobId)
  {
    j in s.jobs && s.jobs[j].wait == Returned
  }

  ghost predicate Retires(s: State, j: JobId, n: nat)
  {
    Paths.Comes(HolderMoves, x => Queues(x, j), (x, y) => ReaderMoves(x, y, j), x => Retired(x, j), s, n)
  }

  predicate Retiring(s: State, j: JobId)
  {
    && j in s.jobs && s.jobs[j].kind == SessionJob
    && (s.jobs[j].wait.Received? || s.jobs[j].wait == Exited || s.jobs[j].wait == SweepingAfterExit)
  }

  function StepsLeft(s: State, j: JobId): nat
  {
    if j !in s.jobs then 0
    else
      Work(s) + match s.jobs[j].wait
                case Received(_) => 4
                case Exited => 3
                case SweepingAfterExit => 1
                case _ => 0
  }

  /** Whoever holds `mu` finishes; if it is this session's own sweep, the session is retired. */
  lemma HolderBringsCloser(s: State, s': State, step: Step, j: JobId)
    requires Inv(s) && Retiring(s, j) && !s.jobs[j].wait.Received? && !MuFree(s)
    requires Next(s, s', step, true) && OfMuHolder(s, step)
    ensures j in s'.jobs
    ensures s'.jobs[j].wait == Returned || (Inv(s') && Retiring(s', j) && StepsLeft(s', j) < StepsLeft(s, j))
  {
    if s.jobs[j].wait == Exited {
      StepKeepsInv(s, s', step);
      HolderLeavesExited(s, s', step, j);
    } else {
      OwnSweep(s, s', step, j);
    }
  }

  lemma HolderLeavesExited(s: State, s': State, step: Step, j: JobId)
    requires SpawnMuOk(s) && MuOk(s) && Jobs(s) && Kernel(s) && j in s.jobs && s.jobs[j].wait == Exited && !MuFree(s)
    requires Next(s, s', step, true) && OfMuHolder(s, step)
    ensures j in s'.jobs && s'.jobs[j].wait == Exited && s'.jobs[j].kind == s.jobs[j].kind
    ensures StepsLeft(s', j) < StepsLeft(s, j)
  {
    MuHolderSpends(s, s', step);
    BlockerLeavesWaiting(s, s', step, j);
    StepAgesJobs(s, s', step);
  }

  lemma OwnSweep(s: State, s': State, step: Step, j: JobId)
    requires MuOk(s) && j in s.jobs && s.jobs[j].wait == SweepingAfterExit
    requires Next(s, s', step, true) && OfMuHolder(s, step)
    ensures j in s'.jobs && s'.jobs[j].wait == Returned
  {
    assert s.mu == HeldBy(Waiter(j));
    assert WaitNext(s, s', step);
  }

  lemma MarkComesCloser(s: State, j: JobId) returns (s': State)
    requires Inv(s) && Retiring(s, j) && s.jobs[j].wait.Received?
    ensures Next(s, s', SetExitedStep(j), true) && Inv(s') && Retiring(s', j) && StepsLeft(s', j) < StepsLeft(s, j)
  {
    s' := Marks(s, j);
    StepKeepsInv(s, s', SetExitedStep(j));
  }

  lemma Marks(s: State, j: JobId) returns (s': State)
    requires Retiring(s, j) && s.jobs[j].wait.Received?
    ensures Next(s, s', SetExitedStep(j), true) && Retiring(s', j) && StepsLeft(s', j) < StepsLeft(s, j)
  {
    s' := s.(jobs := s.jobs[j := s.jobs[j].(wait := Exited)]);
    assert WaitNext(s, s', SetExitedStep(j));
    WaiterKeepsWork(s, s', SetExitedStep(j));
  }

  lemma LockComesCloser(s: State, j: JobId) returns (s': State)
    requires Inv(s) && Retiring(s, j) && !s.jobs[j].wait.Received? && MuFree(s)
    ensures Next(s, s', LockExitSweepStep(j), true) && Inv(s') && Retiring(s', j) && StepsLeft(s', j) < StepsLeft(s, j)
  {
    assert s.jobs[j].wait == Exited;
    s' := Locks(s, j);
    StepKeepsInv(s, s', LockExitSweepStep(j));
  }

  lemma Locks(s: State, j: JobId) returns (s': State)
    requires Retiring(s, j) && s.jobs[j].wait == Exited && MuFree(s)
    ensures Next(s, s', LockExitSweepStep(j), true) && Retiring(s', j) && StepsLeft(s', j) < StepsLeft(s, j)
  {
    s' := s.(jobs := s.jobs[j := s.jobs[j].(wait := SweepingAfterExit)], mu := HeldBy(Waiter(j)));
    assert WaitNext(s, s', LockExitSweepStep(j));
    ReadersAdd(s, s', LockExitSweepStep(j));
  }

  lemma HoldersLead(s: State, s': State, j: JobId)
    requires Inv(s) && Retiring(s, j) && Queues(s, j) && HolderMoves(s, s')
    ensures Retired(s', j) || (Inv(s') && Retiring(s', j) && StepsLeft(s', j) < StepsLeft(s, j))
  {
    var step :| Next(s, s', step, true) && OfMuHolder(s, step);
    HolderBringsCloser(s, s', step, j);
  }

  lemma HoldersMove(s: State, j: JobId)
    requires Inv(s) && Queues(s, j)
    ensures exists s' :: HolderMoves(s, s')
  {
    var s', step := MuHolderMovesOn(s);
    assert HolderMoves(s, s');
  }

  lemma ReaderLeads(s: State, j: JobId) returns (s': State)
    requires Inv(s) && Retiring(s, j) && !Queues(s, j)
    ensures ReaderMoves(s, s', j) && Inv(s') && Retiring(s', j) && StepsLeft(s', j) < StepsLeft(s, j)
  {
    if s.jobs[j].wait.Received? {
      s' := MarkComesCloser(s, j);
    } else {
      s' := LockComesCloser(s, j);
    }
  }

  ghost predicate InvRetiring(s: State, j: JobId)
  {
    Inv(s) && Retiring(s, j)
  }

  lemma RetiresInTime(s: State, j: JobId)
    requires InvRetiring(s, j)
    ensures Retires(s, j, StepsLeft(s, j))
  {
    var inv, left := (x: State) => InvRetiring(x, j), (x: State) => StepsLeft(x, j);
    var busy, done := (x: State) => Queues(x, j), (x: State) => Retired(x, j);
    var turn := (x, y) => ReaderMoves(x, y, j);
    forall x | inv(x) && !done(x) && busy(x)
      ensures exists y :: HolderMoves(x, y)
    {
      HoldersMove(x, j);
    }
    forall x, y | inv(x) && !done(x) && busy(x) && HolderMoves(x, y)
      ensures Paths.Closer(inv, left, done, x, y)
    {
      HoldersLead(x, y, j);
    }
    forall x | inv(x) && !done(x) && !busy(x)
      ensures exists y :: turn(x, y) && Paths.Closer(inv, left, done, x, y)
    {
      var y := ReaderLeads(x, j);
      assert turn(x, y) && Paths.Closer(inv, left, done, x, y);
    }
    Paths.ComesInTime(HolderMoves, busy, turn, done, inv, left, s, StepsLeft(s, j));
  }

  /** A session whose code has been received is marked exited and its table swept, within `StepsLeft` steps. */
  lemma SessionIsRetired(run: seq<State>, steps: seq<Step>, i: nat, j: JobId)
    requires IsRun(run, steps, true) && i < |run| && Retiring(run[i], j)
    ensures Retires(run[i], j, StepsLeft(run[i], j))
  {
    RunKeepsInv(run, steps, i);
    RetiresInTime(run[i], j);
  }
}
