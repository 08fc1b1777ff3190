/**
  What a call leaves alone, and what it comes to: a workspace that is bound and alive keeps its binding,
  and a call that may go on ends with its workspace bound.
 */
module CreateReuse {
  import Bindings
  import opened CreateProtocol
  import opened CreateRace
  import opened Options
  import opened Sandboxes

  // ----- a bound workspace that is alive is left alone -----

  /** A call with nothing left to do but leave. */
  predicate OnTheWayOut(s: State, c: nat)
  {
    && c < |s.callers| && (s.callers[c].phase == Leaving || s.callers[c].phase == Gone)
    && s.callers[c].child == NoChild && s.callers[c].adopted == None && !s.callers[c].created
  }

  /** A step in which call `c`, or its create, does more than leave. */
  predicate Acts(step: Step, c: nat)
  {
    !step.Others? && step.c == c && !step.Release? && !step.Crash?
  }

  lemma CallOnTheWayOut(s: State, s': State, step: Step, c: nat)
    requires OnTheWayOut(s, c) && CallNext(s, s', step)
    ensures OnTheWayOut(s', c) && !Acts(step, c)
  {
  }

  lemma StaysOnTheWayOut(s: State, s': State, step: Step, c: nat)
    requires OnTheWayOut(s, c) && Next(s, s', step)
    ensures OnTheWayOut(s', c) && !Acts(step, c)
  {
    if CallNext(s, s', step) {
      CallOnTheWayOut(s, s', step, c);
    } else if ChildNext(s, s', step) {
      ChildMovesAlone(s, s', step);
    }
  }

  lemma {:induction false} DoesNothingMore(run: seq<State>, steps: seq<Step>, m: nat, k: nat, c: nat)
    requires IsRun(run, steps) && m <= k < |run| && OnTheWayOut(run[m], c)
    ensures OnTheWayOut(run[k], c) && (k < |steps| ==> !Acts(steps[k], c))
    decreases k
  {
    if m < k {
      DoesNothingMore(run, steps, m, k - 1, c);
      assert StepAt(run, steps, k - 1);
      StaysOnTheWayOut(run[k - 1], run[k], steps[k - 1], c);
    }
    if k < |steps| {
      assert StepAt(run, steps, k);
      StaysOnTheWayOut(run[k], run[k + 1], steps[k], c);
    }
  }

  /** The re-check at step `m` reads a binding of call `c`'s handle. */
  predicate BoundAt(run: seq<State>, steps: seq<Step>, m: nat, c: nat)
    requires m < |run| && m < |steps|
  {
    && steps[m].Recheck? && steps[m].c == c < |run[m].callers| && steps[m].readOK
    && Bindings.ByHandle(run[m].bindings, run[m].callers[c].handle).Some?
  }

  /** That binding names the call's own workspace, or one that is alive. */
  predicate AliveAt(run: seq<State>, steps: seq<Step>, m: nat, c: nat)
    requires m < |run| && m < |steps| && BoundAt(run, steps, m, c)
  {
    var b := Bindings.ByHandle(run[m].bindings, run[m].callers[c].handle).value;
    b.workspaceID == run[m].callers[c].workspaceID || steps[m].alive
  }

  /**
    A call whose re-check reads a binding of its own workspace, or of one that is alive, writes no binding,
    adopts nothing and creates nothing up to its end: from then on it only leaves.
   */
  lemma AliveIsLeftAlone(run: seq<State>, steps: seq<Step>, m: nat, k: nat, c: nat)
    requires IsRun(run, steps) && m < |steps| && BoundAt(run, steps, m, c) && AliveAt(run, steps, m, c) && m < k < |run|
    ensures OnTheWayOut(run[k], c) && (k < |steps| ==> !Acts(steps[k], c))
  {
    RunIsSafe(run, steps, m);
    assert StepAt(run, steps, m);
    DoesNothingMore(run, steps, m + 1, k, c);
  }

  /** The same for a call whose workspace already resolves to a binding. */
  lemma ResolvedIsLeftAlone(run: seq<State>, steps: seq<Step>, m: nat, k: nat, c: nat)
    requires IsRun(run, steps) && m < |steps| && steps[m] == Resolve(c, true) && c < |run[m].callers| && m < k < |run|
    requires Resolves(run[m].bindings, run[m].callers[c].workspaceID)
    ensures OnTheWayOut(run[k], c) && (k < |steps| ==> !Acts(steps[k], c))
  {
    RunIsSafe(run, steps, m);
    assert StepAt(run, steps, m);
    DoesNothingMore(run, steps, m + 1, k, c);
  }

  // ----- when a call takes a binding over -----

  /** The re-check at step `m` reads a binding of another workspace, which is gone. */
  predicate GoneAt(run: seq<State>, steps: seq<Step>, m: nat, c: nat)
    requires m < |run| && m < |steps|
  {
    BoundAt(run, steps, m, c) && !AliveAt(run, steps, m, c)
  }

  lemma CallTurnsStale(s: State, s': State, step: Step, c: nat)
    requires CallNext(s, s', step) && c < |s.callers|
    ensures c < |s'.callers| && (s.callers[c].stale ==> s'.callers[c].stale)
    ensures s'.callers[c].stale && !s.callers[c].stale
       <==> && step.Recheck? && step.c == c && !s.callers[c].stale && step.readOK && !step.alive
            && var b := Bindings.ByHandle(s.bindings, s.callers[c].handle);
               b.Some? && b.value.workspaceID != s.callers[c].workspaceID
  {
  }

  lemma TurnsStale(s: State, s': State, step: Step, c: nat)
    requires Next(s, s', step) && c < |s.callers|
    ensures c < |s'.callers| && (s.callers[c].stale ==> s'.callers[c].stale)
    ensures s'.callers[c].stale && !s.callers[c].stale
       <==> && step.Recheck? && step.c == c && !s.callers[c].stale && step.readOK && !step.alive
            && var b := Bindings.ByHandle(s.bindings, s.callers[c].handle);
               b.Some? && b.value.workspaceID != s.callers[c].workspaceID
  {
    if CallNext(s, s', step) {
      CallTurnsStale(s, s', step, c);
    } else if ChildNext(s, s', step) {
      ChildMovesAlone(s, s', step);
    }
  }

  /** A call may replace a binding, and is then stale, exactly when its re-check read one of another workspace, gone. */
  lemma {:induction false} StaleIff(run: seq<State>, steps: seq<Step>, k: nat, c: nat)
    requires IsRun(run, steps) && k < |run| && c < |run[0].callers|
    ensures c < |run[k].callers|
    ensures run[k].callers[c].stale <==> exists m: nat | m < k :: GoneAt(run, steps, m, c)
  {
    if k > 0 {
      StaleIff(run, steps, k - 1, c);
      assert StepAt(run, steps, k - 1);
      TurnsStale(run[k - 1], run[k], steps[k - 1], c);
      if GoneAt(run, steps, k - 1, c) {
        RunIsSafe(run, steps, k - 1);
      }
      assert GoneAt(run, steps, k - 1, c) <==> run[k].callers[c].stale && !run[k - 1].callers[c].stale;
    }
  }

  // ----- what a call comes to -----

  lemma TakesLock(s0: State, s: State, c: nat) returns (r: State)
    requires Reaches(s0, s) && Has(s, c, Probed) && LockName(s.callers[c].handle) !in s.locks
    ensures Reaches(s0, r)
    ensures r == With(s, c, s.callers[c].(phase := Locked)).(locks := s.locks[LockName(s.callers[c].handle) := c])
  {
    r := With(s, c, s.callers[c].(phase := Locked)).(locks := s.locks[LockName(s.callers[c].handle) := c]);
    assert Enters(s, r, Acquire(c));
    Then(s0, s, r, Acquire(c));
  }

  /** From the point where it knows its sandbox, a call binds it and leaves. */
  lemma BindsAndLeaves(s0: State, s: State, c: nat) returns (r: State)
    requires Reaches(s0, s) && Has(s, c, Putting)
    ensures Reaches(s0, r) && r.records == s.records && r.creates == s.creates
    ensures Bindings.ByHandle(r.bindings, s.callers[c].handle) == Some(BindingOf(s.callers[c], ""))
    ensures Has(r, c, Gone) && r.locks == s.locks - {LockName(s.callers[c].handle)}
  {
    var me := s.callers[c];
    var s1 := With(s, c, me.(phase := Phase.Bound)).(bindings := Bindings.Inserted(s.bindings, BindingOf(me, "")));
    assert Puts(s, s1, c, Putting, "", true);
    Then(s0, s, s1, Put(c, true));
    r := Releases(s0, s1, c);
    Bindings.PutThenGet(s.bindings, BindingOf(me, ""));
  }

  /** A new worktree: nothing bound, no sandbox. The call creates one and binds its workspace to it. */
  lemma NewIsCreated(s0: State, s: State, c: nat, sb: Sandbox) returns (r: State)
    requires Reaches(s0, s) && Has(s, c, Probed) && LockName(s.callers[c].handle) !in s.locks
    requires Bindings.ByHandle(s.bindings, s.callers[c].handle) == None && !HasRecord(s, s.callers[c].handle)
    requires Handle(sb) == s.callers[c].handle && sb.id !in s.records
    ensures Reaches(s0, r) && Has(r, c, Gone) && r.records == s.records[sb.id := sb]
    ensures r.creates == s.creates + [s.callers[c].handle]
    ensures Bindings.ByHandle(r.bindings, s.callers[c].handle)
         == Some(BindingOf(s.callers[c].(sandboxID := sb.id), ""))
  {
    var me := s.callers[c];
    var s1 := IsCleared(s0, s, c);
    var s2 := Records(s0, s1, c, sb);
    var s3 := IsAwaited(s0, s2, c);
    var s4 := With(s3, c, s3.callers[c].(phase := Putting, sandboxID := sb.id));
    assert Gets(s3, s4, c, Some(sb.id));
    Then(s0, s3, s4, Get(c, Some(sb.id)));
    r := BindsAndLeaves(s0, s4, c);
  }

  /** The create finishes, and its call goes on. */
  lemma IsAwaited(s0: State, s: State, c: nat) returns (r: State)
    requires Reaches(s0, s) && Has(s, c, Creating) && s.callers[c].child.Committed?
    ensures Reaches(s0, r)
    ensures r == With(s, c, s.callers[c].(phase := Created, child := Ended(true), created := true))
  {
    var s1 := With(s, c, s.callers[c].(child := Ended(true)));
    assert Ends(s, s1, c, true);
    Then(s0, s, s1, Finish(c));
    r := With(s1, c, s1.callers[c].(phase := Created, created := true));
    assert Awaits(s1, r, c);
    Then(s0, s1, r, Await(c));
  }

  /** From the reconcile branch, an adoptable sandbox of the handle, running or started, is bound, and none created. */
  lemma IsAdopted(s0: State, s: State, c: nat, id: string, startOK: bool) returns (r: State)
    requires Reaches(s0, s) && Has(s, c, Reconciling) && IsRecord(s, id, s.callers[c].handle)
    requires Adoptable(s.records[id], s.callers[c].path) && (s.records[id].life == Running || startOK)
    ensures Reaches(s0, r) && Has(r, c, Gone) && r.records == s.records && r.creates == s.creates
    ensures Bindings.ByHandle(r.bindings, s.callers[c].handle)
         == Some(BindingOf(s.callers[c].(sandboxID := s.records[id].id), ""))
  {
    var found := s.records[id];
    var s1 := With(s, c, s.callers[c].(phase := Putting, adopted := Some(found), sandboxID := found.id));
    assert Reconciles(s, s1, c, Some(id), startOK);
    Then(s0, s, s1, Reconcile(c, Some(id), startOK));
    r := BindsAndLeaves(s0, s1, c);
  }

  /** A sandbox without a binding, as a call that died after its create leaves it: the next call binds it. */
  lemma LeftoverIsAdopted(s0: State, s: State, c: nat, id: string) returns (r: State)
    requires Reaches(s0, s) && Has(s, c, Probed) && LockName(s.callers[c].handle) !in s.locks
    requires Bindings.ByHandle(s.bindings, s.callers[c].handle) == None
    requires IsRecord(s, id, s.callers[c].handle) && Adoptable(s.records[id], s.callers[c].path)
    ensures Reaches(s0, r) && Has(r, c, Gone) && r.records == s.records && r.creates == s.creates
    ensures Bindings.ByHandle(r.bindings, s.callers[c].handle)
         == Some(BindingOf(s.callers[c].(sandboxID := s.records[id].id), ""))
  {
    var s1 := TakesLock(s0, s, c);
    var s2 := With(s1, c, s1.callers[c].(phase := Creating, child := Started));
    assert Rechecks(s1, s2, c, true, false);
    Then(s0, s1, s2, Recheck(c, true, false));
    var s3 := With(s2, c, s2.callers[c].(child := Ended(false)));
    assert IsRecord(s2, id, s2.callers[c].handle);
    assert Checks(s2, s3, c, true);
    Then(s0, s2, s3, Check(c, true));
    var s4 := With(s3, c, s3.callers[c].(phase := Reconciling));
    assert Awaits(s3, s4, c);
    Then(s0, s3, s4, Await(c));
    r := IsAdopted(s0, s4, c, id, true);
  }

  /** A binding of a workspace that is gone: the call takes it over for its own, with the sandbox it had. */
  lemma GoneIsRebound(s0: State, s: State, c: nat, id: string) returns (r: State)
    requires Reaches(s0, s) && Has(s, c, Probed) && LockName(s.callers[c].handle) !in s.locks
    requires Bindings.ByHandle(s.bindings, s.callers[c].handle).Some?
    requires Bindings.ByHandle(s.bindings, s.callers[c].handle).value.workspaceID != s.callers[c].workspaceID
    requires IsRecord(s, id, s.callers[c].handle) && Adoptable(s.records[id], s.callers[c].path)
    ensures Reaches(s0, r) && Has(r, c, Gone) && r.records == s.records && r.creates == s.creates
    ensures Bindings.ByHandle(r.bindings, s.callers[c].handle)
         == Some(BindingOf(s.callers[c].(sandboxID := s.records[id].id), ""))
  {
    var s1 := TakesLock(s0, s, c);
    var s2 := With(s1, c, s1.callers[c].(phase := Reconciling, stale := true));
    assert Rechecks(s1, s2, c, true, false);
    Then(s0, s1, s2, Recheck(c, true, false));
    r := IsAdopted(s0, s2, c, id, true);
  }
}
