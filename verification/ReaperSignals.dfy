/** SIGCHLD, which the kernel may drop and coalesces, and who may come in while the agent is at work. */
module ReaperSignals {
  import opened Options
  import opened Reaper

  /** The loop, asleep, is woken by a pending signal, or by the ticker at any time. */
  lemma WakeIff(s: State, bySignal: bool)
    ensures CanTake(s, WakeStep(bySignal)) <==> s.reaper == Idle && (bySignal ==> s.sigPending)
  {
    if s.reaper == Idle && (bySignal ==> s.sigPending) {
      var s' := s.(reaper := Woken, sigPending := s.sigPending && !bySignal, atWake := Zombies(s));
      assert Next(s, s', WakeStep(bySignal), true);
    }
  }

  /** A reader of the table is let in exactly when nobody holds `mu` exclusively; a spawn, when spawnMu is free. */
  lemma LetInIff(s: State, n: nat, j: JobId)
    ensures CanTake(s, ClientReadStep(n)) <==> s.mu == Free && n !in s.clients
    ensures CanTake(s, LockSpawnStep(j)) <==> At(s, j, NotStarted) && s.spawnMu == Free
  {
    if s.mu == Free && n !in s.clients {
      assert Next(s, s.(clients := s.clients + {n}), ClientReadStep(n), true);
    }
    if At(s, j, NotStarted) && s.spawnMu == Free {
      var s' := s.(jobs := s.jobs[j := s.jobs[j].(spawn := Locked)], spawnMu := HeldBy(Spawner(j)));
      assert Next(s, s', LockSpawnStep(j), true);
    }
  }

  predicate Signals(step: Step)
  {
    step.DieStep? && step.signalled
  }

  lemma AgentLeavesSignal(s: State, s': State, step: Step, strict: bool)
    requires EnterNext(s, s', step) || StartNext(s, s', step, strict) || AddNext(s, s', step)
    ensures s'.sigPending == s.sigPending && !step.DieStep? && !step.WakeStep?
  {
  }

  lemma OthersLeaveSignal(s: State, s': State, step: Step)
    requires WaitNext(s, s', step) || NotifyNext(s, s', step)
    ensures s'.sigPending == s.sigPending && !step.DieStep? && !step.WakeStep?
  {
  }

  /** Only a death raises the signal, and only the wakeup it causes takes it. */
  lemma SignalStep(s: State, s': State, step: Step, strict: bool)
    requires Next(s, s', step, strict)
    ensures s'.sigPending <==> Signals(step) || (s.sigPending && step != WakeStep(true))
    ensures step == WakeStep(true) ==> s.sigPending
  {
    if WaitNext(s, s', step) || NotifyNext(s, s', step) {
      OthersLeaveSignal(s, s', step);
    } else if !CollectNext(s, s', step, strict) {
      AgentLeavesSignal(s, s', step, strict);
    }
  }

  /** A death the kernel signals leaves a wakeup pending until the loop takes one. */
  lemma {:induction false} SignalIsKept(run: seq<State>, steps: seq<Step>, i: nat, k: nat)
    requires IsRun(run, steps, true) && i < k < |run| && Signals(steps[i])
    requires forall m | i < m < k :: steps[m] != WakeStep(true)
    ensures run[k].sigPending && (run[k].reaper == Idle ==> CanTake(run[k], WakeStep(true)))
    decreases k
  {
    if i + 1 < k {
      SignalIsKept(run, steps, i, k - 1);
    }
    assert StepAt(run, steps, k - 1, true);
    SignalStep(run[k - 1], run[k], steps[k - 1], true);
    WakeIff(run[k], true);
  }

  function Raised(steps: seq<Step>): nat
  {
    if steps == [] then 0 else Raised(steps[..|steps| - 1]) + if Signals(steps[|steps| - 1]) then 1 else 0
  }

  function Taken(steps: seq<Step>): nat
  {
    if steps == [] then 0 else Taken(steps[..|steps| - 1]) + if steps[|steps| - 1] == WakeStep(true) then 1 else 0
  }

  /** Signals coalesce and never multiply: the loop is woken by one at most as often as they were raised. */
  lemma {:induction false} WakeupsAreRaised(run: seq<State>, steps: seq<Step>, k: nat)
    requires IsRun(run, steps, true) && k < |run|
    ensures Taken(steps[..k]) + (if run[k].sigPending then 1 else 0) <= Raised(steps[..k])
  {
    if k > 0 {
      WakeupsAreRaised(run, steps, k - 1);
      assert steps[..k][..k - 1] == steps[..k - 1];
      assert StepAt(run, steps, k - 1, true);
      SignalStep(run[k - 1], run[k], steps[k - 1], true);
    }
  }
}
