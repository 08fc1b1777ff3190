/** Why the hypothesis on the kernel is needed: a PID reissued while a session retains it. */
module ReaperReuse {
  import opened Options
  import Paths
  import opened Reaper
  import opened ReaperLive

  // ----- reaching a state -----

  ghost function Steps(strict: bool): (State, State, Step) -> bool
  {
    (s, s', step) => Next(s, s', step, strict)
  }

  /** Some steps lead from `s` to `s'`; with `strict`, no retained PID is reissued on the way. */
  ghost predicate Reaches(s: State, s': State, strict: bool)
  {
    Paths.Reaches(Steps(strict), s, s')
  }

  lemma Here(s: State, strict: bool)
    ensures Reaches(s, s, strict)
  {
    Paths.Here(Steps(strict), s);
  }

  lemma Then(s: State, mid: State, s': State, step: Step, strict: bool)
    requires Reaches(s, mid, strict) && Next(mid, s', step, strict)
    ensures Reaches(s, s', strict)
  {
    Paths.Then(Steps(strict), s, mid, s', step);
  }

  lemma PathIsRun(states: seq<State>, steps: seq<Step>)
    requires Paths.IsPath(Steps(false), states, steps) && Init(states[0])
    ensures IsRun(states, steps, false)
  {
    forall i: nat | i < |steps|
      ensures StepAt(states, steps, i, false)
    {
      assert Steps(false)(states[i], states[i + 1], steps[i]);
    }
  }

  lemma StrictIsNarrower(s: State, s': State, step: Step)
    requires Next(s, s', step, true)
    ensures Next(s, s', step, false)
  {
  }

  // ----- a session's and a one-shot's life, step by step -----

  function NewChild(kind: Kind, pid: Pid, at: SpawnPhase): Job
  {
    Job(kind, pid, Running, at, Blocked, [], [])
  }

  lemma Enters(s0: State, s: State, j: JobId, kind: Kind, strict: bool) returns (r: State)
    requires Reaches(s0, s, strict) && AtRest(s) && j !in s.jobs && kind != OrphanJob
    ensures Reaches(s0, r, strict)
    ensures r == s.(jobs := s.jobs[j := Job(kind, 0, Unborn, Locked, Blocked, [], [])], spawnMu := HeldBy(Spawner(j)))
  {
    var job := Job(kind, 0, Unborn, NotStarted, Blocked, [], []);
    var s1 := s.(jobs := s.jobs[j := job]);
    assert EnterNext(s, s1, NewJobStep(j, kind));
    Then(s0, s, s1, NewJobStep(j, kind), strict);
    r := s1.(jobs := s.jobs[j := job.(spawn := Locked)], spawnMu := HeldBy(Spawner(j)));
    assert EnterNext(s1, r, LockSpawnStep(j));
    Then(s0, s1, r, LockSpawnStep(j), strict);
  }

  lemma Forks(s0: State, s: State, j: JobId, pid: Pid, strict: bool) returns (r: State)
    requires Reaches(s0, s, strict) && MuFree(s) && At(s, j, Locked) && pid !in s.procs && (strict ==> pid !in s.byPID)
    ensures Reaches(s0, r, strict)
    ensures r == s.(jobs := s.jobs[j := s.jobs[j].(spawn := Adding, pid := pid, life := Running)],
                    procs := s.procs[pid := j], mu := HeldBy(Spawner(j)))
  {
    var job := s.jobs[j].(spawn := Forked, pid := pid, life := Running);
    var s1 := s.(jobs := s.jobs[j := job], procs := s.procs[pid := j]);
    assert StartNext(s, s1, ForkStep(j, pid), strict);
    Then(s0, s, s1, ForkStep(j, pid), strict);
    r := s1.(jobs := s.jobs[j := job.(spawn := Adding)], mu := HeldBy(Spawner(j)));
    assert StartNext(s1, r, LockAddStep(j), strict);
    Then(s0, s1, r, LockAddStep(j), strict);
  }

  /** A request arrives, takes spawnMu, forks and takes `mu`. */
  lemma Begins(s0: State, s: State, j: JobId, kind: Kind, pid: Pid, strict: bool) returns (r: State)
    requires Reaches(s0, s, strict) && AtRest(s) && j !in s.jobs && kind != OrphanJob && pid !in s.procs
    requires strict ==> pid !in s.byPID
    ensures Reaches(s0, r, strict)
    ensures r == s.(jobs := s.jobs[j := NewChild(kind, pid, Adding)], procs := s.procs[pid := j],
                    spawnMu := HeldBy(Spawner(j)), mu := HeldBy(Spawner(j)))
  {
    var s1 := Enters(s0, s, j, kind, strict);
    r := Forks(s0, s1, j, pid, strict);
  }

  lemma SpawnsOneShot(s0: State, s: State, j: JobId, pid: Pid, strict: bool) returns (r: State)
    requires Reaches(s0, s, strict) && AtRest(s) && j !in s.jobs && pid !in s.procs && (strict ==> pid !in s.byPID)
    ensures Reaches(s0, r, strict)
    ensures r == s.(jobs := s.jobs[j := NewChild(OneShotJob, pid, Finished)], procs := s.procs[pid := j],
                    oneShot := s.oneShot[pid := j])
  {
    var s1 := Begins(s0, s, j, OneShotJob, pid, strict);
    r := EnrolsOneShot(s0, s1, j, strict);
    assert r.jobs == s.jobs[j := NewChild(OneShotJob, pid, Finished)];
  }

  lemma EnrolsOneShot(s0: State, s: State, j: JobId, strict: bool) returns (r: State)
    requires Reaches(s0, s, strict) && At(s, j, Adding) && s.jobs[j].kind == OneShotJob
    ensures Reaches(s0, r, strict)
    ensures r == s.(jobs := s.jobs[j := s.jobs[j].(spawn := Finished)], mu := Free, spawnMu := Free,
                    oneShot := s.oneShot[s.jobs[j].pid := j])
  {
    var s1 := s.(jobs := s.jobs[j := s.jobs[j].(spawn := Ready)], mu := Free, oneShot := s.oneShot[s.jobs[j].pid := j]);
    assert AddNext(s, s1, AddOneShotStep(j));
    Then(s0, s, s1, AddOneShotStep(j), strict);
    r := s1.(jobs := s.jobs[j := s.jobs[j].(spawn := Finished)], spawnMu := Free);
    assert StartNext(s1, r, UnlockSpawnStep(j), strict);
    Then(s0, s1, r, UnlockSpawnStep(j), strict);
  }

  lemma BeginsSession(s0: State, s: State, j: JobId, pid: Pid, strict: bool) returns (r: State)
    requires Reaches(s0, s, strict) && AtRest(s) && j !in s.jobs && pid !in s.procs && (strict ==> pid !in s.byPID)
    ensures Reaches(s0, r, strict)
    ensures r == s.(jobs := s.jobs[j := NewChild(SessionJob, pid, Sweeping)], procs := s.procs[pid := j],
                    byID := s.byID + {j}, byPID := s.byPID[pid := j], mu := HeldBy(Spawner(j)),
                    spawnMu := HeldBy(Spawner(j)))
  {
    var s1 := Begins(s0, s, j, SessionJob, pid, strict);
    r := Registers(s0, s1, j, strict);
    assert r.jobs == s.jobs[j := NewChild(SessionJob, pid, Sweeping)];
  }

  /** The sweep that follows a session's registration evicts `evicted`. */
  lemma SpawnsSession(s0: State, s: State, j: JobId, pid: Pid, evicted: set<JobId>, strict: bool) returns (r: State)
    requires Reaches(s0, s, strict) && AtRest(s) && j !in s.jobs && pid !in s.procs && (strict ==> pid !in s.byPID)
    requires MayEvict(s, evicted)
    ensures Reaches(s0, r, strict)
    ensures r == s.(jobs := s.jobs[j := NewChild(SessionJob, pid, Finished)], procs := s.procs[pid := j],
                    byID := s.byID + {j} - evicted, byPID := s.byPID[pid := j] - EvictedPids(s, evicted))
  {
    var s1 := BeginsSession(s0, s, j, pid, strict);
    StillEvictable(s, s1, j, evicted);
    r := SweepsAndUnlocks(s0, s1, j, evicted, strict);
    assert r.jobs == s.jobs[j := NewChild(SessionJob, pid, Finished)];
  }

  lemma StillEvictable(s: State, s': State, j: JobId, evicted: set<JobId>)
    requires MayEvict(s, evicted) && s.byID <= s'.byID && j !in s.jobs
    requires j in s'.jobs && s'.jobs == s.jobs[j := s'.jobs[j]]
    ensures MayEvict(s', evicted) && EvictedPids(s', evicted) == EvictedPids(s, evicted)
  {
  }

  lemma Registers(s0: State, s: State, j: JobId, strict: bool) returns (r: State)
    requires Reaches(s0, s, strict) && At(s, j, Adding) && s.jobs[j].kind == SessionJob && s.clients == {}
             && !s.reaper.Peeking?
    ensures Reaches(s0, r, strict)
    ensures r == s.(jobs := s.jobs[j := s.jobs[j].(spawn := Sweeping)], mu := HeldBy(Spawner(j)),
                    byID := s.byID + {j}, byPID := s.byPID[s.jobs[j].pid := j])
  {
    var s1 := s.(jobs := s.jobs[j := s.jobs[j].(spawn := Added)], mu := Free,
                 byID := s.byID + {j}, byPID := s.byPID[s.jobs[j].pid := j]);
    assert AddNext(s, s1, AddSessionStep(j));
    Then(s0, s, s1, AddSessionStep(j), strict);
    r := s1.(jobs := s.jobs[j := s.jobs[j].(spawn := Sweeping)], mu := HeldBy(Spawner(j)));
    assert AddNext(s1, r, LockSweepStep(j));
    Then(s0, s1, r, LockSweepStep(j), strict);
  }

  lemma SweepsAndUnlocks(s0: State, s: State, j: JobId, evicted: set<JobId>, strict: bool) returns (r: State)
    requires Reaches(s0, s, strict) && At(s, j, Sweeping) && MayEvict(s, evicted)
    ensures Reaches(s0, r, strict)
    ensures r == s.(jobs := s.jobs[j := s.jobs[j].(spawn := Finished)], mu := Free, spawnMu := Free,
                    byID := s.byID - evicted, byPID := s.byPID - EvictedPids(s, evicted))
  {
    var s1 := s.(jobs := s.jobs[j := s.jobs[j].(spawn := Ready)], mu := Free,
                 byID := s.byID - evicted, byPID := s.byPID - EvictedPids(s, evicted));
    assert AddNext(s, s1, SweepStep(j, evicted));
    Then(s0, s, s1, SweepStep(j, evicted), strict);
    r := s1.(jobs := s.jobs[j := s.jobs[j].(spawn := Finished)], spawnMu := Free);
    assert StartNext(s1, r, UnlockSpawnStep(j), strict);
    Then(s0, s1, r, UnlockSpawnStep(j), strict);
  }

  function Dead(s: State, b: JobId, life: Life): map<JobId, Job>
    requires b in s.jobs
  {
    s.jobs[b := s.jobs[b].(life := life)]
  }

  /** The child dies, its signal is lost, and the ticker wakes the loop. */
  lemma Dies(s0: State, s: State, b: JobId, code: int, strict: bool) returns (r: State)
    requires Reaches(s0, s, strict) && AtRest(s) && b in s.jobs && s.jobs[b].life == Running
    ensures Reaches(s0, r, strict)
    ensures r == s.(jobs := Dead(s, b, Zombie(code)), reaper := Woken, atWake := r.atWake)
  {
    var s1 := s.(jobs := Dead(s, b, Zombie(code)));
    assert CollectNext(s, s1, DieStep(b, code, false), strict);
    Then(s0, s, s1, DieStep(b, code, false), strict);
    r := s1.(reaper := Woken, atWake := Zombies(s1));
    assert CollectNext(s1, r, WakeStep(false), strict);
    Then(s0, s1, r, WakeStep(false), strict);
  }

  lemma IsCollected(s0: State, s: State, b: JobId, strict: bool) returns (r: State)
    requires Reaches(s0, s, strict) && s.reaper == Woken && s.spawnMu == Free && b in s.jobs && s.jobs[b].life.Zombie?
    ensures Reaches(s0, r, strict)
    ensures r == s.(jobs := Dead(s, b, InHand(s.jobs[b].life.code)), procs := s.procs - {s.jobs[b].pid},
                    reaper := Collected(b), spawnMu := HeldBy(ReapLoop))
  {
    var s1 := s.(reaper := Draining, spawnMu := HeldBy(ReapLoop));
    assert CollectNext(s, s1, LockDrainStep, strict);
    Then(s0, s, s1, LockDrainStep, strict);
    r := s1.(jobs := Dead(s, b, InHand(s.jobs[b].life.code)), procs := s.procs - {s.jobs[b].pid},
             reaper := Collected(b));
    assert CollectNext(s1, r, Wait4Step(b), strict);
    Then(s0, s1, r, Wait4Step(b), strict);
  }

  /** The child dies and the drain after the next tick looks its PID up. */
  lemma DiesAndIsCollected(s0: State, s: State, b: JobId, code: int, strict: bool) returns (r: State)
    requires Reaches(s0, s, strict) && AtRest(s) && b in s.jobs && s.jobs[b].life == Running
    ensures Reaches(s0, r, strict)
    ensures r == s.(jobs := Dead(s, b, InHand(code)), procs := s.procs - {s.jobs[b].pid}, reaper := Peeking(b),
                    spawnMu := HeldBy(ReapLoop), atWake := r.atWake)
  {
    var s1 := Dies(s0, s, b, code, strict);
    var s2 := IsCollected(s0, s1, b, strict);
    assert s2.jobs == Dead(s, b, InHand(code));
    r := s2.(reaper := Peeking(b));
    assert NotifyNext(s2, r, PeekLockStep);
    Then(s0, s2, r, PeekLockStep, strict);
  }

  /** The lookup finds a session, and the code goes to that one. */
  lemma IsSent(s0: State, s: State, b: JobId, strict: bool) returns (r: State)
    requires Reaches(s0, s, strict) && s.reaper == Peeking(b) && CanSettle(s)
    requires s.jobs[b].pid in s.byPID && s.byPID[s.jobs[b].pid] in s.jobs && s.jobs[s.byPID[s.jobs[b].pid]].buffer == []
    ensures Reaches(s0, r, strict)
    ensures r == s.(jobs := Settled(s, Some(s.byPID[s.jobs[b].pid])), reaper := Draining)
  {
    var a := s.byPID[s.jobs[b].pid];
    var s1 := s.(reaper := Routed(b, a));
    assert NotifyNext(s, s1, PeekStep);
    Then(s0, s, s1, PeekStep, strict);
    r := s1.(jobs := Settled(s, Some(a)), reaper := Draining);
    assert NotifyNext(s1, r, SendStep);
    Then(s0, s1, r, SendStep, strict);
  }

  /** Neither lookup finds the PID, and the code is thrown away. */
  lemma IsDiscarded(s0: State, s: State, b: JobId, strict: bool) returns (r: State)
    requires Reaches(s0, s, strict) && s.reaper == Peeking(b) && CanSettle(s) && s.mu == Free && s.clients == {}
    requires s.jobs[b].pid !in s.byPID && s.jobs[b].pid !in s.oneShot
    ensures Reaches(s0, r, strict)
    ensures r == s.(jobs := Settled(s, None), reaper := Draining)
  {
    var s1 := s.(reaper := Unrouted(b));
    assert NotifyNext(s, s1, PeekStep);
    Then(s0, s, s1, PeekStep, strict);
    var s2 := s1.(reaper := Taking(b), mu := HeldBy(ReapLoop));
    assert NotifyNext(s1, s2, TakeLockStep);
    Then(s0, s1, s2, TakeLockStep, strict);
    r := s2.(jobs := Settled(s, None), mu := Free, reaper := Draining);
    assert NotifyNext(s2, r, DiscardStep);
    Then(s0, s2, r, DiscardStep, strict);
  }

  /** The drain ends and the session's goroutine records the exit; the session stays indexed. */
  lemma Retires(s0: State, s: State, a: JobId, code: int, strict: bool) returns (r: State)
    requires Reaches(s0, s, strict) && s.reaper == Draining && Zombies(s) == {}
    requires At(s, a, Finished) && s.jobs[a].kind == SessionJob && s.jobs[a].wait == Blocked
             && s.jobs[a].buffer == [code]
    ensures Reaches(s0, r, strict)
    ensures r == s.(jobs := s.jobs[a := s.jobs[a].(wait := Exited, buffer := [])], reaper := Idle, spawnMu := Free)
  {
    var s1 := s.(reaper := Idle, spawnMu := Free);
    assert CollectNext(s, s1, DrainEndStep, strict);
    Then(s0, s, s1, DrainEndStep, strict);
    var s2 := s1.(jobs := s.jobs[a := s.jobs[a].(wait := Received(code), buffer := [])]);
    assert WaitNext(s1, s2, ReceiveStep(a));
    Then(s0, s1, s2, ReceiveStep(a), strict);
    r := s2.(jobs := s.jobs[a := s.jobs[a].(wait := Exited, buffer := [])]);
    assert WaitNext(s2, r, SetExitedStep(a));
    Then(s0, s2, r, SetExitedStep(a), strict);
  }

  // ----- what reuse does -----

  /** An exited session keeps its entries, and the kernel has its PID to give away again. */
  predicate Retains(s: State, a: JobId, pid: Pid)
  {
    && a in s.jobs && s.jobs[a].pid == pid && HasExited(s.jobs[a]) && s.jobs[a].buffer == []
    && a in s.byID && pid in s.byPID && s.byPID[pid] == a
    && pid !in s.procs && pid !in s.oneShot && AtRest(s)
  }

  /** A registered child is gone with a code its channel never carried. */
  predicate Unheard(job: Job, code: int)
  {
    Registered(job.spawn) && job.life == Gone(code) && job.sent == []
  }

  function Start(): State
  {
    State(map[], {}, map[], map[], map[], Free, Free, {}, Idle, false, {})
  }

  /** The agent gets there by itself: one session is spawned, dies, is reaped and exits. */
  lemma RetainedIsReached(pid: Pid, code: int) returns (r: State)
    ensures Reaches(Start(), r, true) && Retains(r, 0, pid) && r.jobs.Keys == {0} && r.jobs[0].sent == [code]
  {
    Here(Start(), true);
    var s1 := SpawnsSession(Start(), Start(), 0, pid, {}, true);
    assert s1.byPID == map[pid := 0] && s1.byID == {0};
    var s2 := DiesAndIsCollected(Start(), s1, 0, code, true);
    var s3 := IsSent(Start(), s2, 0, true);
    assert s3.jobs[0] == Job(SessionJob, pid, Gone(code), Finished, Blocked, [code], [code]);
    assert Zombies(s3) == {};
    r := Retires(Start(), s3, 0, code, true);
  }

  /**
    Reuse by a one-shot: from every state in which a session retains a PID, the PID may go to a
    one-shot whose code is then sent to the old session and never to the one-shot.
   */
  lemma ReuseMisroutes(s: State, a: JobId, pid: Pid, b: JobId, code: int) returns (r: State)
    requires Retains(s, a, pid) && b !in s.jobs
    ensures Reaches(s, r, false)
    ensures b in r.jobs && r.jobs[b].kind == OneShotJob && Unheard(r.jobs[b], code)
    ensures a in r.jobs && r.jobs[a].sent == s.jobs[a].sent + [code]
  {
    Here(s, false);
    var s1 := SpawnsOneShot(s, s, b, pid, false);
    var s2 := DiesAndIsCollected(s, s1, b, code, false);
    r := IsSent(s, s2, b, false);
  }

  /**
    Reuse by a session: the sweep that evicts the old session deletes the new one's PID entry,
    and the new session's code is thrown away as an orphan's.
   */
  lemma ReuseDiscards(s: State, a: JobId, pid: Pid, b: JobId, code: int) returns (r: State)
    requires Retains(s, a, pid) && b !in s.jobs
    ensures Reaches(s, r, false)
    ensures b in r.jobs && r.jobs[b].kind == SessionJob && Unheard(r.jobs[b], code)
    ensures b in r.byID && pid !in r.byPID
  {
    Here(s, false);
    assert MayEvict(s, {a});
    var s1 := SpawnsSession(s, s, b, pid, {a}, false);
    assert a in {a} && pid in EvictedPids(s, {a});
    var s2 := DiesAndIsCollected(s, s1, b, code, false);
    r := IsDiscarded(s, s2, b, false);
  }

  lemma RunThrough(s: State, r: State) returns (run: seq<State>, steps: seq<Step>)
    requires Reaches(Start(), s, true) && Reaches(s, r, false)
    ensures IsRun(run, steps, false) && run[|steps|] == r
  {
    forall x, y, step | Steps(true)(x, y, step)
      ensures Steps(false)(x, y, step)
    {
      StrictIsNarrower(x, y, step);
    }
    var n: nat :| Paths.ReachesIn(Steps(false), s, r, n);
    Paths.Onward(Steps(true), Steps(false), Start(), s, r, n);
    var m: nat :| Paths.ReachesIn(Steps(false), Start(), r, m);
    run, steps := Paths.AsPath(Steps(false), Start(), r, m);
    PathIsRun(run, steps);
  }

  /** So without the hypothesis there are runs in which a registered child's code never reaches its channel. */
  lemma ReuseLosesCode(kind: Kind, pid: Pid, first: int, code: int) returns (run: seq<State>, steps: seq<Step>)
    requires kind != OrphanJob
    ensures IsRun(run, steps, false)
    ensures 1 in run[|steps|].jobs && run[|steps|].jobs[1].kind == kind && Unheard(run[|steps|].jobs[1], code)
  {
    var s := RetainedIsReached(pid, first);
    var r := s;
    if kind == OneShotJob {
      r := ReuseMisroutes(s, 0, pid, 1, code);
    } else {
      r := ReuseDiscards(s, 0, pid, 1, code);
    }
    run, steps := RunThrough(s, r);
  }
}
