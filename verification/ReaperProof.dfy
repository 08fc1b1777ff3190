/** The interleavings of the process protocol: invariant, exactly-once delivery, drains, deadlock. */
module ReaperProof {
  import opened Options
  import opened Reaper

  // ----- what a step leaves alone -----

  /** Nothing the session index looks at has changed. */
  predicate SameSessions(s: State, s': State)
  {
    && s'.byID == s.byID && s'.byPID == s.byPID
    && s.jobs.Keys <= s'.jobs.Keys
    && (forall k | k in s'.jobs && s'.jobs[k].kind == SessionJob ::
          if k in s.jobs then
            && s.jobs[k].kind == SessionJob
            && Registered(s'.jobs[k].spawn) == Registered(s.jobs[k].spawn)
            && (Registered(s.jobs[k].spawn) ==> s'.jobs[k].pid == s.jobs[k].pid)
            && (HasExited(s.jobs[k]) ==> HasExited(s'.jobs[k]))
          else !Registered(s'.jobs[k].spawn))
    && (forall k | k in s.jobs :: s'.jobs[k].kind == s.jobs[k].kind)
  }

  lemma SessionFrame(s: State, s': State)
    requires SessionIndex(s) && SameSessions(s, s')
    ensures SessionIndex(s')
  {
  }

  /** Nothing the one-shot index looks at has changed. */
  predicate SameOneShots(s: State, s': State)
  {
    && s'.oneShot == s.oneShot
    && s.jobs.Keys <= s'.jobs.Keys
    && (forall k | k in s'.jobs ::
          if k in s.jobs then
            && s'.jobs[k].kind == s.jobs[k].kind
            && (s.jobs[k].kind == OneShotJob ==> Registered(s'.jobs[k].spawn) == Registered(s.jobs[k].spawn))
            && (s.jobs[k].kind == OneShotJob && Registered(s.jobs[k].spawn) ==>
                  && s'.jobs[k].pid == s.jobs[k].pid
                  && s'.jobs[k].life.Gone? == s.jobs[k].life.Gone?
                  && (s'.reaper.Handing? && s'.reaper.victim == k <==> s.reaper.Handing? && s.reaper.victim == k))
          else !Registered(s'.jobs[k].spawn))
  }

  lemma OneShotFrame(s: State, s': State)
    requires OneShotIndex(s) && SameOneShots(s, s')
    ensures OneShotIndex(s')
  {
  }

  predicate SameHand(s: State, s': State)
  {
    && Carrying(s'.reaper) == Carrying(s.reaper)
    && (Carrying(s.reaper) ==> s'.reaper.victim == s.reaper.victim)
  }

  /** Nobody gained or lost a PID. */
  predicate SameChildren(s: State, s': State)
  {
    && s'.procs == s.procs
    && SameHand(s, s')
    && s.jobs.Keys <= s'.jobs.Keys
    && (forall k | k in s'.jobs ::
          if k in s.jobs then
            && HoldsPid(s'.jobs[k].life) == HoldsPid(s.jobs[k].life)
            && s'.jobs[k].life.InHand? == s.jobs[k].life.InHand?
            && s'.jobs[k].pid == s.jobs[k].pid
          else s'.jobs[k].life == Unborn)
  }

  lemma KernelFrame(s: State, s': State)
    requires Kernel(s) && SameChildren(s, s')
    ensures Kernel(s')
  {
  }

  /** No PID was handed out and no index entry was added. */
  predicate NothingAdded(s: State, s': State)
  {
    && (forall p | p in s'.procs :: p in s.procs && s'.procs[p] == s.procs[p])
    && (forall p | p in s'.byPID :: p in s.byPID && s'.byPID[p] == s.byPID[p])
    && (forall p | p in s'.oneShot :: p in s.oneShot && s'.oneShot[p] == s.oneShot[p])
    && (Carrying(s'.reaper) && s'.reaper.victim in s'.jobs ==>
          && Carrying(s.reaper) && s.reaper.victim == s'.reaper.victim && s.reaper.victim in s.jobs
          && s'.jobs[s.reaper.victim].pid == s.jobs[s.reaper.victim].pid)
  }

  lemma StaleFrame(s: State, s': State)
    requires NoStaleEntry(s) && NothingAdded(s, s')
    ensures NoStaleEntry(s')
  {
  }

  /** How far a child is on its way from alive to reported. */
  function Stage(l: Life): nat
  {
    match l
    case Unborn => 0
    case Running => 1
    case Zombie(_) => 2
    case InHand(_) => 3
    case Gone(_) => 4
  }

  predicate Later(a: Job, b: Job)
  {
    && Stage(a.life) <= Stage(b.life) && a.kind == b.kind
    && (Stage(a.life) >= 2 ==> b.life.code == a.life.code)
  }

  /** No child is resurrected and no code changes. */
  predicate Aged(s: State, s': State)
  {
    forall j | j in s.jobs :: j in s'.jobs && Later(s.jobs[j], s'.jobs[j])
  }

  // ----- each part of the invariant, thread by thread -----

  /** A PID in use is in neither index before its job is registered. */
  lemma NotIndexedYet(s: State, j: JobId)
    requires Jobs(s) && Kernel(s) && NoStaleEntry(s) && j in s.jobs && s.jobs[j].spawn == Adding
    ensures s.jobs[j].pid in s.procs && s.procs[s.jobs[j].pid] == j
    ensures SessionIndex(s) ==> s.jobs[j].pid !in s.byPID && j !in s.byID
    ensures OneShotIndex(s) ==> s.jobs[j].pid !in s.oneShot
  {
  }

  lemma AddsSession(s: State, s': State, j: JobId)
    requires SessionIndex(s) && AddSession(s, s', j)
    requires s.jobs[j].pid !in s.byPID && j !in s.byID
    ensures SessionIndex(s')
  {
  }

  lemma AddSessionKeepsSessionIndex(s: State, s': State, j: JobId)
    requires SessionIndex(s) && Jobs(s) && Kernel(s) && NoStaleEntry(s)
    requires AddSession(s, s', j)
    ensures SessionIndex(s')
  {
    NotIndexedYet(s, j);
    AddsSession(s, s', j);
  }

  lemma SweepKeepsSessionIndex(s: State, s': State, j: JobId, evicted: set<JobId>)
    requires SessionIndex(s)
    requires Sweep(s, s', j, evicted)
    ensures SessionIndex(s')
  {
  }

  lemma ExitSweepKeepsSessionIndex(s: State, s': State, j: JobId, evicted: set<JobId>)
    requires SessionIndex(s)
    requires ExitSweep(s, s', j, evicted)
    ensures SessionIndex(s')
  {
  }

  lemma AddsOneShot(s: State, s': State, j: JobId)
    requires OneShotIndex(s) && AddOneShot(s, s', j)
    requires s.jobs[j].pid !in s.oneShot && !s.jobs[j].life.Gone? && !(s.reaper.Handing? && s.reaper.victim == j)
    ensures OneShotIndex(s')
  {
  }

  lemma AddOneShotKeepsOneShotIndex(s: State, s': State, j: JobId)
    requires OneShotIndex(s) && Jobs(s) && Kernel(s) && NoStaleEntry(s) && SpawnMuOk(s)
    requires AddOneShot(s, s', j)
    ensures OneShotIndex(s')
  {
    NotIndexedYet(s, j);
    AddsOneShot(s, s', j);
  }

  lemma TakeKeepsOneShotIndex(s: State, s': State)
    requires OneShotIndex(s) && NoStaleEntry(s)
    requires Take(s, s')
    ensures OneShotIndex(s')
  {
  }

  lemma HandKeepsOneShotIndex(s: State, s': State)
    requires OneShotIndex(s) && Kernel(s) && Routing(s)
    requires Hand(s, s')
    ensures OneShotIndex(s')
  {
  }

  lemma SendKeepsOneShotIndex(s: State, s': State)
    requires OneShotIndex(s) && Kernel(s) && Routing(s)
    requires Send(s, s')
    ensures OneShotIndex(s')
  {
  }

  lemma DiscardKeepsOneShotIndex(s: State, s': State)
    requires OneShotIndex(s) && Kernel(s)
    requires Discard(s, s')
    ensures OneShotIndex(s')
  {
  }

  lemma ForkKeepsKernel(s: State, s': State, j: JobId, pid: Pid)
    requires Kernel(s) && Jobs(s)
    requires Fork(s, s', j, pid) && pid !in s.byPID
    ensures Kernel(s')
  {
  }

  lemma AdoptKeepsKernel(s: State, s': State, j: JobId, pid: Pid)
    requires Kernel(s)
    requires Adopt(s, s', j, pid) && pid !in s.byPID && pid !in s.oneShot
    ensures Kernel(s')
  {
  }

  lemma Wait4KeepsKernel(s: State, s': State, j: JobId)
    requires Kernel(s)
    requires Wait4(s, s', j)
    ensures Kernel(s')
  {
  }

  lemma SendKeepsKernel(s: State, s': State)
    requires Kernel(s)
    requires Send(s, s')
    ensures Kernel(s')
  {
  }

  lemma HandKeepsKernel(s: State, s': State)
    requires Kernel(s)
    requires Hand(s, s')
    ensures Kernel(s')
  {
  }

  lemma DiscardKeepsKernel(s: State, s': State)
    requires Kernel(s)
    requires Discard(s, s')
    ensures Kernel(s')
  {
  }

  lemma ForkKeepsNoStaleEntry(s: State, s': State, j: JobId, pid: Pid)
    requires NoStaleEntry(s) && Jobs(s) && Kernel(s) && OneShotIndex(s) && SpawnMuOk(s)
    requires Fork(s, s', j, pid) && pid !in s.byPID
    ensures NoStaleEntry(s')
  {
  }

  lemma AddSessionKeepsNoStaleEntry(s: State, s': State, j: JobId)
    requires NoStaleEntry(s) && Jobs(s) && Kernel(s) && SpawnMuOk(s)
    requires AddSession(s, s', j)
    ensures NoStaleEntry(s')
  {
  }

  lemma AddOneShotKeepsNoStaleEntry(s: State, s': State, j: JobId)
    requires NoStaleEntry(s) && Jobs(s) && Kernel(s) && SpawnMuOk(s)
    requires AddOneShot(s, s', j)
    ensures NoStaleEntry(s')
  {
  }

  lemma EnterKeepsSpawnMu(s: State, s': State, step: Step)
    requires SpawnMuOk(s)
    requires EnterNext(s, s', step)
    ensures SpawnMuOk(s')
  {
  }

  lemma EnterKeepsMu(s: State, s': State, step: Step)
    requires MuOk(s)
    requires EnterNext(s, s', step)
    ensures MuOk(s')
  {
  }

  lemma EnterKeepsJobs(s: State, s': State, step: Step)
    requires Jobs(s)
    requires EnterNext(s, s', step)
    ensures Jobs(s')
  {
    forall k | k in s'.jobs
      ensures JobOk(s'.jobs[k])
    {
      assert k in s.jobs ==> JobOk(s.jobs[k]);
    }
  }

  lemma EnterKeepsRouting(s: State, s': State, step: Step)
    requires Routing(s) && Kernel(s)
    requires EnterNext(s, s', step)
    ensures Routing(s')
  {
  }

  lemma EnterKeepsWakeups(s: State, s': State, step: Step)
    requires Wakeups(s) && Jobs(s)
    requires EnterNext(s, s', step)
    ensures Wakeups(s')
  {
  }

  lemma EnterLeavesSessions(s: State, s': State, step: Step)
    requires EnterNext(s, s', step)
    ensures SameSessions(s, s')
  {
  }

  lemma EnterKeepsSessionIndex(s: State, s': State, step: Step)
    requires SessionIndex(s)
    requires EnterNext(s, s', step)
    ensures SessionIndex(s')
  {
    EnterLeavesSessions(s, s', step);
    SessionFrame(s, s');
  }

  lemma EnterLeavesOneShots(s: State, s': State, step: Step)
    requires EnterNext(s, s', step)
    ensures SameOneShots(s, s')
  {
  }

  lemma EnterKeepsOneShotIndex(s: State, s': State, step: Step)
    requires OneShotIndex(s)
    requires EnterNext(s, s', step)
    ensures OneShotIndex(s')
  {
    EnterLeavesOneShots(s, s', step);
    OneShotFrame(s, s');
  }

  lemma EnterLeavesChildren(s: State, s': State, step: Step)
    requires EnterNext(s, s', step)
    ensures SameChildren(s, s')
  {
  }

  lemma EnterKeepsKernel(s: State, s': State, step: Step)
    requires Kernel(s)
    requires EnterNext(s, s', step)
    ensures Kernel(s')
  {
    EnterLeavesChildren(s, s', step);
    KernelFrame(s, s');
  }

  lemma EnterKeepsNoStaleEntry(s: State, s': State, step: Step)
    requires NoStaleEntry(s) && Kernel(s)
    requires EnterNext(s, s', step)
    ensures NoStaleEntry(s')
  {
  }

  lemma EnterAgesJobs(s: State, s': State, step: Step)
    requires Jobs(s)
    requires EnterNext(s, s', step)
    ensures Aged(s, s')
  {
  }

  lemma EnterKeepsInv(s: State, s': State, step: Step)
    requires Inv(s)
    requires EnterNext(s, s', step)
    ensures Inv(s')
  {
    EnterKeepsSpawnMu(s, s', step);
    EnterKeepsMu(s, s', step);
    EnterKeepsJobs(s, s', step);
    EnterKeepsRouting(s, s', step);
    EnterKeepsWakeups(s, s', step);
    EnterKeepsKernel(s, s', step);
    EnterKeepsSessionIndex(s, s', step);
    EnterKeepsOneShotIndex(s, s', step);
    EnterKeepsNoStaleEntry(s, s', step);
  }

  lemma StartKeepsSpawnMu(s: State, s': State, step: Step)
    requires SpawnMuOk(s)
    requires StartNext(s, s', step, true)
    ensures SpawnMuOk(s')
  {
  }

  lemma StartKeepsMu(s: State, s': State, step: Step)
    requires MuOk(s)
    requires StartNext(s, s', step, true)
    ensures MuOk(s')
  {
  }

  lemma StartKeepsJobs(s: State, s': State, step: Step)
    requires Jobs(s)
    requires StartNext(s, s', step, true)
    ensures Jobs(s')
  {
    forall k | k in s'.jobs
      ensures JobOk(s'.jobs[k])
    {
      assert k in s.jobs ==> JobOk(s.jobs[k]);
    }
  }

  lemma StartKeepsRouting(s: State, s': State, step: Step)
    requires Routing(s) && Kernel(s)
    requires StartNext(s, s', step, true)
    ensures Routing(s')
  {
  }

  lemma StartKeepsWakeups(s: State, s': State, step: Step)
    requires Wakeups(s) && Jobs(s)
    requires StartNext(s, s', step, true)
    ensures Wakeups(s')
  {
  }

  lemma StartLeavesSessions(s: State, s': State, step: Step)
    requires StartNext(s, s', step, true)
    ensures SameSessions(s, s')
  {
  }

  lemma StartKeepsSessionIndex(s: State, s': State, step: Step)
    requires SessionIndex(s)
    requires StartNext(s, s', step, true)
    ensures SessionIndex(s')
  {
    StartLeavesSessions(s, s', step);
    SessionFrame(s, s');
  }

  lemma StartLeavesOneShots(s: State, s': State, step: Step)
    requires StartNext(s, s', step, true)
    ensures SameOneShots(s, s')
  {
  }

  lemma StartKeepsOneShotIndex(s: State, s': State, step: Step)
    requires OneShotIndex(s)
    requires StartNext(s, s', step, true)
    ensures OneShotIndex(s')
  {
    StartLeavesOneShots(s, s', step);
    OneShotFrame(s, s');
  }

  lemma StartLeavesChildren(s: State, s': State, step: Step)
    requires !step.ForkStep?
    requires StartNext(s, s', step, true)
    ensures SameChildren(s, s')
  {
  }

  lemma StartKeepsKernel(s: State, s': State, step: Step)
    requires Kernel(s) && Jobs(s)
    requires StartNext(s, s', step, true)
    ensures Kernel(s')
  {
    if step.ForkStep? {
      ForkKeepsKernel(s, s', step.j, step.pid);
    } else {
      StartLeavesChildren(s, s', step);
      KernelFrame(s, s');
    }
  }

  lemma StartLeavesEntries(s: State, s': State, step: Step)
    requires !step.ForkStep?
    requires Carrying(s.reaper) ==> s.reaper.victim in s.jobs
    requires StartNext(s, s', step, true)
    ensures NothingAdded(s, s')
  {
  }

  lemma StartKeepsNoStaleEntry(s: State, s': State, step: Step)
    requires NoStaleEntry(s) && Jobs(s) && Kernel(s) && OneShotIndex(s) && SpawnMuOk(s)
    requires StartNext(s, s', step, true)
    ensures NoStaleEntry(s')
  {
    if step.ForkStep? {
      ForkKeepsNoStaleEntry(s, s', step.j, step.pid);
    } else {
      StartLeavesEntries(s, s', step);
      StaleFrame(s, s');
    }
  }

  lemma StartAgesJobs(s: State, s': State, step: Step)
    requires Jobs(s) && Kernel(s)
    requires StartNext(s, s', step, true)
    ensures Aged(s, s')
  {
  }

  lemma StartKeepsInv(s: State, s': State, step: Step)
    requires Inv(s)
    requires StartNext(s, s', step, true)
    ensures Inv(s')
  {
    StartKeepsSpawnMu(s, s', step);
    StartKeepsMu(s, s', step);
    StartKeepsJobs(s, s', step);
    StartKeepsRouting(s, s', step);
    StartKeepsWakeups(s, s', step);
    StartKeepsKernel(s, s', step);
    StartKeepsSessionIndex(s, s', step);
    StartKeepsOneShotIndex(s, s', step);
    StartKeepsNoStaleEntry(s, s', step);
  }

  lemma AddKeepsSpawnMu(s: State, s': State, step: Step)
    requires SpawnMuOk(s)
    requires AddNext(s, s', step)
    ensures SpawnMuOk(s')
  {
  }

  lemma AddKeepsMu(s: State, s': State, step: Step)
    requires MuOk(s)
    requires AddNext(s, s', step)
    ensures MuOk(s')
  {
  }

  lemma AddKeepsJobs(s: State, s': State, step: Step)
    requires Jobs(s)
    requires AddNext(s, s', step)
    ensures Jobs(s')
  {
    forall k | k in s'.jobs
      ensures JobOk(s'.jobs[k])
    {
      assert k in s.jobs ==> JobOk(s.jobs[k]);
    }
  }

  lemma AddKeepsRouting(s: State, s': State, step: Step)
    requires Routing(s) && Kernel(s)
    requires AddNext(s, s', step)
    ensures Routing(s')
  {
  }

  lemma AddKeepsWakeups(s: State, s': State, step: Step)
    requires Wakeups(s) && Jobs(s)
    requires AddNext(s, s', step)
    ensures Wakeups(s')
  {
  }

  lemma AddLeavesSessions(s: State, s': State, step: Step)
    requires !step.AddSessionStep? && !step.SweepStep?
    requires AddNext(s, s', step)
    ensures SameSessions(s, s')
  {
  }

  lemma AddKeepsSessionIndex(s: State, s': State, step: Step)
    requires SessionIndex(s) && Jobs(s) && Kernel(s) && NoStaleEntry(s)
    requires AddNext(s, s', step)
    ensures SessionIndex(s')
  {
    if step.AddSessionStep? {
      AddSessionKeepsSessionIndex(s, s', step.j);
    } else if step.SweepStep? {
      SweepKeepsSessionIndex(s, s', step.j, step.evicted);
    } else {
      AddLeavesSessions(s, s', step);
      SessionFrame(s, s');
    }
  }

  lemma AddLeavesOneShots(s: State, s': State, step: Step)
    requires !step.AddOneShotStep?
    requires AddNext(s, s', step)
    ensures SameOneShots(s, s')
  {
  }

  lemma AddKeepsOneShotIndex(s: State, s': State, step: Step)
    requires OneShotIndex(s) && Jobs(s) && Kernel(s) && NoStaleEntry(s) && SpawnMuOk(s)
    requires AddNext(s, s', step)
    ensures OneShotIndex(s')
  {
    if step.AddOneShotStep? {
      AddOneShotKeepsOneShotIndex(s, s', step.j);
    } else {
      AddLeavesOneShots(s, s', step);
      OneShotFrame(s, s');
    }
  }

  lemma AddLeavesChildren(s: State, s': State, step: Step)
    requires AddNext(s, s', step)
    ensures SameChildren(s, s')
  {
  }

  lemma AddKeepsKernel(s: State, s': State, step: Step)
    requires Kernel(s)
    requires AddNext(s, s', step)
    ensures Kernel(s')
  {
    AddLeavesChildren(s, s', step);
    KernelFrame(s, s');
  }

  lemma AddLeavesEntries(s: State, s': State, step: Step)
    requires !step.AddSessionStep? && !step.AddOneShotStep?
    requires Carrying(s.reaper) ==> s.reaper.victim in s.jobs
    requires AddNext(s, s', step)
    ensures NothingAdded(s, s')
  {
  }

  lemma AddKeepsNoStaleEntry(s: State, s': State, step: Step)
    requires NoStaleEntry(s) && Jobs(s) && Kernel(s) && SpawnMuOk(s)
    requires AddNext(s, s', step)
    ensures NoStaleEntry(s')
  {
    if step.AddSessionStep? {
      AddSessionKeepsNoStaleEntry(s, s', step.j);
    } else if step.AddOneShotStep? {
      AddOneShotKeepsNoStaleEntry(s, s', step.j);
    } else {
      AddLeavesEntries(s, s', step);
      StaleFrame(s, s');
    }
  }

  lemma AddAgesJobs(s: State, s': State, step: Step)
    requires AddNext(s, s', step)
    ensures Aged(s, s')
  {
  }

  lemma AddKeepsInv(s: State, s': State, step: Step)
    requires Inv(s)
    requires AddNext(s, s', step)
    ensures Inv(s')
  {
    AddKeepsSpawnMu(s, s', step);
    AddKeepsMu(s, s', step);
    AddKeepsJobs(s, s', step);
    AddKeepsRouting(s, s', step);
    AddKeepsWakeups(s, s', step);
    AddKeepsKernel(s, s', step);
    AddKeepsSessionIndex(s, s', step);
    AddKeepsOneShotIndex(s, s', step);
    AddKeepsNoStaleEntry(s, s', step);
  }

  lemma WaitKeepsSpawnMu(s: State, s': State, step: Step)
    requires SpawnMuOk(s)
    requires WaitNext(s, s', step)
    ensures SpawnMuOk(s')
  {
  }

  lemma ExitSweepsKeepMu(s: State, s': State, j: JobId, evicted: set<JobId>)
    requires MuOk(s) && (LockExitSweep(s, s', j) || ExitSweep(s, s', j, evicted))
    ensures MuOk(s')
  {
  }

  lemma WaitKeepsMu(s: State, s': State, step: Step)
    requires MuOk(s)
    requires WaitNext(s, s', step)
    ensures MuOk(s')
  {
    if step.LockExitSweepStep? {
      ExitSweepsKeepMu(s, s', step.j, {});
    } else if step.ExitSweepStep? {
      ExitSweepsKeepMu(s, s', step.j, step.evicted);
    }
  }

  lemma WaitKeepsJobs(s: State, s': State, step: Step)
    requires Jobs(s)
    requires WaitNext(s, s', step)
    ensures Jobs(s')
  {
    forall k | k in s'.jobs
      ensures JobOk(s'.jobs[k])
    {
      assert k in s.jobs ==> JobOk(s.jobs[k]);
    }
  }

  lemma WaitKeepsRouting(s: State, s': State, step: Step)
    requires Routing(s) && Kernel(s)
    requires WaitNext(s, s', step)
    ensures Routing(s')
  {
  }

  lemma WaitKeepsWakeups(s: State, s': State, step: Step)
    requires Wakeups(s) && Jobs(s)
    requires WaitNext(s, s', step)
    ensures Wakeups(s')
  {
  }

  lemma WaitLeavesSessions(s: State, s': State, step: Step)
    requires !step.ExitSweepStep?
    requires WaitNext(s, s', step)
    ensures SameSessions(s, s')
  {
  }

  lemma WaitKeepsSessionIndex(s: State, s': State, step: Step)
    requires SessionIndex(s)
    requires WaitNext(s, s', step)
    ensures SessionIndex(s')
  {
    if step.ExitSweepStep? {
      ExitSweepKeepsSessionIndex(s, s', step.j, step.evicted);
    } else {
      WaitLeavesSessions(s, s', step);
      SessionFrame(s, s');
    }
  }

  lemma WaitLeavesOneShots(s: State, s': State, step: Step)
    requires WaitNext(s, s', step)
    ensures SameOneShots(s, s')
  {
  }

  lemma WaitKeepsOneShotIndex(s: State, s': State, step: Step)
    requires OneShotIndex(s)
    requires WaitNext(s, s', step)
    ensures OneShotIndex(s')
  {
    WaitLeavesOneShots(s, s', step);
    OneShotFrame(s, s');
  }

  lemma WaitLeavesChildren(s: State, s': State, step: Step)
    requires WaitNext(s, s', step)
    ensures SameChildren(s, s')
  {
  }

  lemma WaitKeepsKernel(s: State, s': State, step: Step)
    requires Kernel(s)
    requires WaitNext(s, s', step)
    ensures Kernel(s')
  {
    WaitLeavesChildren(s, s', step);
    KernelFrame(s, s');
  }

  lemma WaitKeepsNoStaleEntry(s: State, s': State, step: Step)
    requires NoStaleEntry(s) && Kernel(s)
    requires WaitNext(s, s', step)
    ensures NoStaleEntry(s')
  {
  }

  lemma WaitAgesJobs(s: State, s': State, step: Step)
    requires WaitNext(s, s', step)
    ensures Aged(s, s')
  {
  }

  lemma WaitKeepsInv(s: State, s': State, step: Step)
    requires Inv(s)
    requires WaitNext(s, s', step)
    ensures Inv(s')
  {
    WaitKeepsSpawnMu(s, s', step);
    WaitKeepsMu(s, s', step);
    WaitKeepsJobs(s, s', step);
    WaitKeepsRouting(s, s', step);
    WaitKeepsWakeups(s, s', step);
    WaitKeepsKernel(s, s', step);
    WaitKeepsSessionIndex(s, s', step);
    WaitKeepsOneShotIndex(s, s', step);
    WaitKeepsNoStaleEntry(s, s', step);
  }

  lemma CollectKeepsSpawnMu(s: State, s': State, step: Step)
    requires SpawnMuOk(s)
    requires CollectNext(s, s', step, true)
    ensures SpawnMuOk(s')
  {
  }

  lemma CollectKeepsMu(s: State, s': State, step: Step)
    requires MuOk(s)
    requires CollectNext(s, s', step, true)
    ensures MuOk(s')
  {
  }

  lemma CollectKeepsJobs(s: State, s': State, step: Step)
    requires Jobs(s) && SpawnMuOk(s)
    requires CollectNext(s, s', step, true)
    ensures Jobs(s')
  {
    forall k | k in s'.jobs
      ensures JobOk(s'.jobs[k])
    {
      assert k in s.jobs ==> JobOk(s.jobs[k]);
    }
  }

  lemma CollectKeepsRouting(s: State, s': State, step: Step)
    requires Routing(s) && Kernel(s)
    requires CollectNext(s, s', step, true)
    ensures Routing(s')
  {
  }

  lemma CollectKeepsWakeups(s: State, s': State, step: Step)
    requires Wakeups(s) && Jobs(s) && Kernel(s)
    requires CollectNext(s, s', step, true)
    ensures Wakeups(s')
  {
    assert step.DrainEndStep? ==> forall j | j in s.atWake :: j !in Zombies(s);
  }

  lemma CollectKeepsSessionIndex(s: State, s': State, step: Step)
    requires SessionIndex(s)
    requires CollectNext(s, s', step, true)
    ensures SessionIndex(s')
  {
  }

  lemma CollectKeepsOneShotIndex(s: State, s': State, step: Step)
    requires OneShotIndex(s)
    requires CollectNext(s, s', step, true)
    ensures OneShotIndex(s')
  {
  }

  lemma CollectLeavesChildren(s: State, s': State, step: Step)
    requires !step.AdoptStep? && !step.Wait4Step?
    requires CollectNext(s, s', step, true)
    ensures SameChildren(s, s')
  {
  }

  lemma CollectKeepsKernel(s: State, s': State, step: Step)
    requires Kernel(s)
    requires CollectNext(s, s', step, true)
    ensures Kernel(s')
  {
    if step.AdoptStep? {
      AdoptKeepsKernel(s, s', step.j, step.pid);
    } else if step.Wait4Step? {
      Wait4KeepsKernel(s, s', step.j);
    } else {
      CollectLeavesChildren(s, s', step);
      KernelFrame(s, s');
    }
  }

  lemma CollectKeepsNoStaleEntry(s: State, s': State, step: Step)
    requires NoStaleEntry(s) && Kernel(s)
    requires CollectNext(s, s', step, true)
    ensures NoStaleEntry(s')
  {
  }

  lemma CollectAgesJobs(s: State, s': State, step: Step)
    requires Jobs(s)
    requires CollectNext(s, s', step, true)
    ensures Aged(s, s')
  {
  }

  lemma CollectKeepsInv(s: State, s': State, step: Step)
    requires Inv(s)
    requires CollectNext(s, s', step, true)
    ensures Inv(s')
  {
    CollectKeepsSpawnMu(s, s', step);
    CollectKeepsMu(s, s', step);
    CollectKeepsJobs(s, s', step);
    CollectKeepsRouting(s, s', step);
    CollectKeepsWakeups(s, s', step);
    CollectKeepsKernel(s, s', step);
    CollectKeepsSessionIndex(s, s', step);
    CollectKeepsOneShotIndex(s, s', step);
    CollectKeepsNoStaleEntry(s, s', step);
  }

  lemma NotifyKeepsSpawnMu(s: State, s': State, step: Step)
    requires SpawnMuOk(s)
    requires NotifyNext(s, s', step)
    ensures SpawnMuOk(s')
  {
  }

  lemma NotifyKeepsMu(s: State, s': State, step: Step)
    requires MuOk(s)
    requires NotifyNext(s, s', step)
    ensures MuOk(s')
  {
  }

  /** A settled code went to the victim's own empty channel, or the victim was an orphan. */
  lemma SettleKeepsJobs(s: State, s': State, target: Option<JobId>)
    requires Jobs(s) && CanSettle(s) && Settle(s, s', target)
    requires var victim := s.jobs[s.reaper.victim];
             if victim.kind == OrphanJob then target == None else target == Some(s.reaper.victim) && victim.buffer == []
    ensures Jobs(s')
  {
  }

  lemma NotifyKeepsJobs(s: State, s': State, step: Step)
    requires Jobs(s) && Kernel(s) && Routing(s) && OneShotIndex(s)
    requires NotifyNext(s, s', step)
    ensures Jobs(s')
  {
    if step.DiscardStep? {
      SettleKeepsJobs(s, s', None);
    } else if step.SendStep? || step.HandStep? {
      SettleKeepsJobs(s, s', Some(s.reaper.target));
    }
  }

  lemma NotifyKeepsRouting(s: State, s': State, step: Step)
    requires Routing(s) && Kernel(s) && Jobs(s) && SessionIndex(s) && OneShotIndex(s) && NoStaleEntry(s)
    requires NotifyNext(s, s', step)
    ensures Routing(s')
  {
  }

  lemma NotifyKeepsWakeups(s: State, s': State, step: Step)
    requires Wakeups(s) && Jobs(s) && Kernel(s)
    requires NotifyNext(s, s', step)
    ensures Wakeups(s')
  {
  }

  lemma NotifyLeavesSessions(s: State, s': State, step: Step)
    requires NotifyNext(s, s', step)
    ensures SameSessions(s, s')
  {
  }

  lemma NotifyKeepsSessionIndex(s: State, s': State, step: Step)
    requires SessionIndex(s)
    requires NotifyNext(s, s', step)
    ensures SessionIndex(s')
  {
    NotifyLeavesSessions(s, s', step);
    SessionFrame(s, s');
  }

  lemma NotifyLeavesOneShots(s: State, s': State, step: Step)
    requires !step.TakeStep? && !step.HandStep? && !step.SendStep? && !step.DiscardStep?
    requires NotifyNext(s, s', step)
    ensures SameOneShots(s, s')
  {
  }

  lemma NotifyKeepsOneShotIndex(s: State, s': State, step: Step)
    requires OneShotIndex(s) && NoStaleEntry(s) && Kernel(s) && Routing(s)
    requires NotifyNext(s, s', step)
    ensures OneShotIndex(s')
  {
    if step.TakeStep? {
      TakeKeepsOneShotIndex(s, s');
    } else if step.HandStep? {
      HandKeepsOneShotIndex(s, s');
    } else if step.SendStep? {
      SendKeepsOneShotIndex(s, s');
    } else if step.DiscardStep? {
      DiscardKeepsOneShotIndex(s, s');
    } else {
      NotifyLeavesOneShots(s, s', step);
      OneShotFrame(s, s');
    }
  }

  lemma NotifyLeavesChildren(s: State, s': State, step: Step)
    requires !step.SendStep? && !step.HandStep? && !step.DiscardStep?
    requires NotifyNext(s, s', step)
    ensures SameChildren(s, s')
  {
  }

  lemma NotifyKeepsKernel(s: State, s': State, step: Step)
    requires Kernel(s)
    requires NotifyNext(s, s', step)
    ensures Kernel(s')
  {
    if step.SendStep? {
      SendKeepsKernel(s, s');
    } else if step.HandStep? {
      HandKeepsKernel(s, s');
    } else if step.DiscardStep? {
      DiscardKeepsKernel(s, s');
    } else {
      NotifyLeavesChildren(s, s', step);
      KernelFrame(s, s');
    }
  }

  lemma NotifyKeepsNoStaleEntry(s: State, s': State, step: Step)
    requires NoStaleEntry(s) && Kernel(s)
    requires NotifyNext(s, s', step)
    ensures NoStaleEntry(s')
  {
  }

  lemma NotifyAgesJobs(s: State, s': State, step: Step)
    requires Jobs(s) && Kernel(s)
    requires NotifyNext(s, s', step)
    ensures Aged(s, s')
  {
  }

  lemma NotifyKeepsInv(s: State, s': State, step: Step)
    requires Inv(s)
    requires NotifyNext(s, s', step)
    ensures Inv(s')
  {
    NotifyKeepsSpawnMu(s, s', step);
    NotifyKeepsMu(s, s', step);
    NotifyKeepsJobs(s, s', step);
    NotifyKeepsRouting(s, s', step);
    NotifyKeepsWakeups(s, s', step);
    NotifyKeepsKernel(s, s', step);
    NotifyKeepsSessionIndex(s, s', step);
    NotifyKeepsOneShotIndex(s, s', step);
    NotifyKeepsNoStaleEntry(s, s', step);
  }

  lemma StepKeepsInv(s: State, s': State, step: Step)
    requires Inv(s) && Next(s, s', step, true)
    ensures Inv(s')
  {
    if EnterNext(s, s', step) {
      EnterKeepsInv(s, s', step);
    } else if StartNext(s, s', step, true) {
      StartKeepsInv(s, s', step);
    } else if AddNext(s, s', step) {
      AddKeepsInv(s, s', step);
    } else if WaitNext(s, s', step) {
      WaitKeepsInv(s, s', step);
    } else if CollectNext(s, s', step, true) {
      CollectKeepsInv(s, s', step);
    } else {
      NotifyKeepsInv(s, s', step);
    }
  }

  // ----- whole runs -----

  lemma {:induction false} RunKeepsInv(run: seq<State>, steps: seq<Step>, i: nat)
    requires IsRun(run, steps, true) && i < |run|
    ensures Inv(run[i])
  {
    if i > 0 {
      RunKeepsInv(run, steps, i - 1);
      assert StepAt(run, steps, i - 1, true);
      StepKeepsInv(run[i - 1], run[i], steps[i - 1]);
    }
  }

  lemma StepAgesJobs(s: State, s': State, step: Step)
    requires Jobs(s) && Kernel(s) && Next(s, s', step, true)
    ensures Aged(s, s')
  {
    if EnterNext(s, s', step) {
      EnterAgesJobs(s, s', step);
    } else if StartNext(s, s', step, true) {
      StartAgesJobs(s, s', step);
    } else if AddNext(s, s', step) {
      AddAgesJobs(s, s', step);
    } else if WaitNext(s, s', step) {
      WaitAgesJobs(s, s', step);
    } else if CollectNext(s, s', step, true) {
      CollectAgesJobs(s, s', step);
    } else {
      NotifyAgesJobs(s, s', step);
    }
  }

  lemma RunAgesOnce(run: seq<State>, steps: seq<Step>, i: nat)
    requires IsRun(run, steps, true) && i + 1 < |run|
    ensures Aged(run[i], run[i + 1])
  {
    RunKeepsInv(run, steps, i);
    assert StepAt(run, steps, i, true);
    StepAgesJobs(run[i], run[i + 1], steps[i]);
  }

  lemma {:induction false} RunAgesJobs(run: seq<State>, steps: seq<Step>, i: nat, k: nat, j: JobId)
    requires IsRun(run, steps, true) && i <= k < |run| && j in run[i].jobs
    ensures j in run[k].jobs && Later(run[i].jobs[j], run[k].jobs[j])
    decreases k
  {
    if i < k {
      RunAgesJobs(run, steps, i, k - 1, j);
      RunAgesOnce(run, steps, k - 1);
    }
  }

  /**
    Exactly once, to its own channel: in every run, once the child of a session or one-shot has
    died with a code, its channel has carried nothing before the reaper reports it and that one
    code ever after; a goroutine that has received anything has received that code.
   */
  lemma ExactlyOnce(run: seq<State>, steps: seq<Step>, i: nat, k: nat, j: JobId, code: int, signalled: bool)
    requires IsRun(run, steps, true) && i < |steps| && steps[i] == DieStep(j, code, signalled)
    requires i < k < |run| && j in run[i].jobs && run[i].jobs[j].kind != OrphanJob
    ensures j in run[k].jobs && run[k].jobs[j].sent == (if run[k].jobs[j].life == Gone(code) then [code] else [])
    ensures run[k].jobs[j].life in {Zombie(code), InHand(code), Gone(code)}
    ensures run[k].jobs[j].wait.Received? ==> run[k].jobs[j].wait.code == code
    ensures forall m | k <= m < |run| && run[k].jobs[j].life == Gone(code) ::
              j in run[m].jobs && run[m].jobs[j].sent == [code]
  {
    assert StepAt(run, steps, i, true);
    DeathMakesZombie(run[i], run[i + 1], j, code, signalled);
    RunAgesJobs(run, steps, i + 1, k, j);
    RunKeepsJob(run, steps, k, j);
    AfterDeath(run[i + 1].jobs[j], run[k].jobs[j], code);
    forall m | k <= m < |run| && run[k].jobs[j].life == Gone(code)
      ensures j in run[m].jobs && run[m].jobs[j].sent == [code]
    {
      RunAgesJobs(run, steps, k, m, j);
      RunKeepsJob(run, steps, m, j);
    }
  }

  lemma DeathMakesZombie(s: State, s': State, j: JobId, code: int, signalled: bool)
    requires Next(s, s', DieStep(j, code, signalled), true) && j in s.jobs
    ensures j in s'.jobs && s'.jobs[j].life == Zombie(code) && s'.jobs[j].kind == s.jobs[j].kind
  {
  }

  lemma RunKeepsJob(run: seq<State>, steps: seq<Step>, k: nat, j: JobId)
    requires IsRun(run, steps, true) && k < |run| && j in run[k].jobs
    ensures JobOk(run[k].jobs[j])
  {
    RunKeepsInv(run, steps, k);
  }

  lemma AfterDeath(dead: Job, later: Job, code: int)
    requires dead.life == Zombie(code) && Later(dead, later) && JobOk(later) && later.kind != OrphanJob
    ensures later.sent == (if later.life == Gone(code) then [code] else [])
    ensures later.life in {Zombie(code), InHand(code), Gone(code)}
    ensures later.wait.Received? ==> later.wait.code == code
  {
  }

  /** What notifyExit may do with a code it holds. */
  predicate Faithful(s: State, step: Step)
  {
    && (step.DiscardStep? ==> CanSettle(s) && s.jobs[s.reaper.victim].kind == OrphanJob)
    && (step.SendStep? || step.HandStep? ==>
          && CanSettle(s) && (s.reaper.Routed? || s.reaper.Handing?)
          && s.reaper.target == s.reaper.victim && s.jobs[s.reaper.target].buffer == [])
  }

  lemma NotifyIsFaithful(s: State, s': State, step: Step)
    requires Jobs(s) && Kernel(s) && Routing(s) && OneShotIndex(s) && NotifyNext(s, s', step)
    ensures Faithful(s, step)
  {
  }

  /** Only orphans are discarded, nothing is dropped on a full channel, nothing is misrouted. */
  lemma NeverDiscarded(run: seq<State>, steps: seq<Step>, i: nat)
    requires IsRun(run, steps, true) && i < |steps|
    ensures Faithful(run[i], steps[i])
  {
    RunKeepsInv(run, steps, i);
    assert StepAt(run, steps, i, true);
    if steps[i].DiscardStep? || steps[i].SendStep? || steps[i].HandStep? {
      NotifyIsFaithful(run[i], run[i + 1], steps[i]);
    }
  }

  lemma OnlyWakeRecords(s: State, s': State, step: Step)
    requires Next(s, s', step, true)
    ensures s'.atWake == if step.WakeStep? then Zombies(s) else s.atWake
  {
    if !CollectNext(s, s', step, true) {
      OthersKeepWake(s, s', step);
    }
  }

  lemma OthersKeepWake(s: State, s': State, step: Step)
    requires EnterNext(s, s', step) || StartNext(s, s', step, true) || AddNext(s, s', step)
          || WaitNext(s, s', step) || NotifyNext(s, s', step)
    ensures s'.atWake == s.atWake && !step.WakeStep?
  {
  }

  /** Between a wakeup and the end of its drain the recorded zombies do not change. */
  lemma {:induction false} WakeupRemembered(run: seq<State>, steps: seq<Step>, i: nat, k: nat)
    requires IsRun(run, steps, true) && i < k < |run| && steps[i].WakeStep?
    requires forall m | i < m < k :: !steps[m].WakeStep?
    ensures run[k].atWake == Zombies(run[i])
    decreases k
  {
    assert StepAt(run, steps, k - 1, true);
    OnlyWakeRecords(run[k - 1], run[k], steps[k - 1]);
    if i + 1 < k {
      WakeupRemembered(run, steps, i, k - 1);
    }
  }

  lemma DrainEndsIdle(run: seq<State>, steps: seq<Step>, k: nat)
    requires IsRun(run, steps, true) && k < |steps| && steps[k].DrainEndStep?
    ensures run[k + 1].reaper == Idle
  {
    assert StepAt(run, steps, k, true);
  }

  /** While the loop sleeps, whatever the last wakeup found has been reported. */
  lemma RunReports(run: seq<State>, steps: seq<Step>, k: nat, j: JobId)
    requires IsRun(run, steps, true) && k < |run| && run[k].reaper == Idle && j in run[k].atWake
    ensures j in run[k].jobs && run[k].jobs[j].life.Gone?
    ensures run[k].jobs[j].kind != OrphanJob ==> run[k].jobs[j].sent == [run[k].jobs[j].life.code]
  {
    RunKeepsInv(run, steps, k);
  }

  /**
    One drain is enough: every child that was a zombie when the loop woke up, for whatever
    signals were dropped or coalesced before, is reported when that drain ends.
   */
  lemma DrainLeavesNoZombie(run: seq<State>, steps: seq<Step>, i: nat, k: nat, j: JobId)
    requires IsRun(run, steps, true) && i < k < |steps|
    requires steps[i].WakeStep? && steps[k].DrainEndStep?
    requires forall m | i < m < k :: !steps[m].WakeStep?
    requires j in run[i].jobs && run[i].jobs[j].life.Zombie?
    ensures j in run[k + 1].jobs && run[k + 1].jobs[j].life == Gone(run[i].jobs[j].life.code)
    ensures run[i].jobs[j].kind != OrphanJob ==> run[k + 1].jobs[j].sent == [run[i].jobs[j].life.code]
  {
    WakeupRemembered(run, steps, i, k + 1);
    DrainEndsIdle(run, steps, k);
    RunAgesJobs(run, steps, i, k + 1, j);
    RunReports(run, steps, k + 1, j);
  }

  // ----- locks -----

  predicate HoldsMu(s: State, t: Thread)
  {
    s.mu == HeldBy(t) || (t == ReapLoop && s.reaper.Peeking?)
  }

  lemma StepOrder(s: State, s': State, step: Step)
    requires MuOk(s) && Next(s, s', step, true)
    ensures step.LockSpawnStep? ==> !HoldsMu(s, Spawner(step.j))
    ensures step.LockDrainStep? ==> !HoldsMu(s, ReapLoop)
  {
  }

  lemma RunKeepsMu(run: seq<State>, steps: seq<Step>, i: nat)
    requires IsRun(run, steps, true) && i < |run|
    ensures MuOk(run[i])
  {
    RunKeepsInv(run, steps, i);
  }

  /** A thread that takes spawnMu holds mu neither exclusively nor shared. */
  lemma LockOrder(run: seq<State>, steps: seq<Step>, i: nat)
    requires IsRun(run, steps, true) && i < |steps|
    ensures steps[i].LockSpawnStep? ==> !HoldsMu(run[i], Spawner(steps[i].j))
    ensures steps[i].LockDrainStep? ==> !HoldsMu(run[i], ReapLoop)
  {
    RunKeepsMu(run, steps, i);
    assert StepAt(run, steps, i, true);
    StepOrder(run[i], run[i + 1], steps[i]);
  }
}
