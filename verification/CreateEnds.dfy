/** How a call ends that does not bind its workspace, and what a call that does has read. */
module CreateEnds {
  import Bindings
  import opened CreateProtocol
  import opened CreateRace
  import opened Options
  import opened Sandboxes

  // ----- what may be adopted -----

  /** Mount `i` is the first at /workspace, and it is of `path`. */
  predicate FirstWorkspace(mounts: seq<Mount>, i: nat, path: string)
  {
    && i < |mounts| && mounts[i].guestPath == "/workspace" && mounts[i].hostPath == path
    && forall k | 0 <= k < i :: mounts[k].guestPath != "/workspace"
  }

  lemma {:induction false} WorkspaceMountIff(mounts: seq<Mount>, path: string)
    ensures WorkspaceMount(mounts) == Some(path) <==> exists i: nat :: FirstWorkspace(mounts, i, path)
  {
    if mounts != [] {
      WorkspaceMountIff(mounts[1..], path);
      if exists i: nat :: FirstWorkspace(mounts[1..], i, path) {
        var i: nat :| FirstWorkspace(mounts[1..], i, path);
        assert mounts[0].guestPath != "/workspace" ==> FirstWorkspace(mounts, i + 1, path);
      }
      if mounts[0].guestPath == "/workspace" && mounts[0].hostPath == path {
        assert FirstWorkspace(mounts, 0, path);
      }
      if exists i: nat :: FirstWorkspace(mounts, i, path) {
        var i: nat :| FirstWorkspace(mounts, i, path);
        assert i > 0 ==> FirstWorkspace(mounts[1..], i - 1, path);
      }
    }
  }

  /** A sandbox whose first /workspace mount is the worktree, not marked for removal, and running or stopped. */
  lemma AdoptableIff(sb: Sandbox, path: string)
    ensures Adoptable(sb, path)
       <==> && (exists i: nat :: FirstWorkspace(sb.mounts, i, path))
            && !sb.removal && sb.life != OtherLife
  {
    WorkspaceMountIff(sb.mounts, path);
  }

  // ----- a failure is the last a call does -----

  predicate Out(s: State, c: nat)
  {
    c < |s.callers| && (s.callers[c].phase == Leaving || s.callers[c].phase == Gone)
  }

  /** A step of call `c` other than to leave. */
  predicate GoesOn(step: Step, c: nat)
  {
    && (step.Resolve? || step.Acquire? || step.LockFails? || step.Recheck? || step.Await? || step.Get?
        || step.Reconcile? || step.Put? || step.Patch?)
    && step.c == c
  }

  lemma CallStaysOut(s: State, s': State, step: Step, c: nat)
    requires Out(s, c) && CallNext(s, s', step)
    ensures Out(s', c) && !GoesOn(step, c)
  {
  }

  lemma StaysOut(s: State, s': State, step: Step, c: nat)
    requires Out(s, c) && Next(s, s', step)
    ensures Out(s', c) && !GoesOn(step, c)
  {
    if CallNext(s, s', step) {
      CallStaysOut(s, s', step, c);
    } else if ChildNext(s, s', step) {
      ChildMovesAlone(s, s', step);
    }
  }

  lemma {:induction false} OutForGood(run: seq<State>, steps: seq<Step>, m: nat, k: nat, c: nat)
    requires IsRun(run, steps) && m <= k < |run| && Out(run[m], c)
    ensures Out(run[k], c) && (k < |steps| ==> !GoesOn(steps[k], c))
    decreases k
  {
    if m < k {
      OutForGood(run, steps, m, k - 1, c);
      assert StepAt(run, steps, k - 1);
      StaysOut(run[k - 1], run[k], steps[k - 1], c);
    }
    if k < |steps| {
      assert StepAt(run, steps, k);
      StaysOut(run[k], run[k + 1], steps[k], c);
    }
  }

  /**
    Step `m` is a failure of call `c`: no lock, its new sandbox is not found, its binding is not written,
    or on the reconcile path there is no sandbox, it does not start, or it is not fit to adopt.
   */
  predicate Fails(run: seq<State>, steps: seq<Step>, m: nat, c: nat)
    requires m < |run| && m < |steps|
  {
    match steps[m]
    case LockFails(d) => d == c
    case Get(d, found) => d == c && found.None?
    case Put(d, ok) => d == c && !ok
    case Reconcile(d, found, startOK) =>
      && d == c && c < |run[m].callers|
      && (found.None? || found.value !in run[m].records
          || (run[m].records[found.value].life == Stopped && !startOK)
          || !Adoptable(run[m].records[found.value], run[m].callers[c].path))
    case _ => false
  }

  /** After a failure a call binds nothing, adopts nothing and creates nothing: it only leaves. */
  lemma FailureIsLast(run: seq<State>, steps: seq<Step>, m: nat, k: nat, c: nat)
    requires IsRun(run, steps) && m < |steps| && Fails(run, steps, m, c) && m < k < |run|
    ensures Out(run[k], c) && (k < |steps| ==> !GoesOn(steps[k], c))
    ensures run[m + 1].bindings == run[m].bindings
  {
    assert StepAt(run, steps, m);
    OutForGood(run, steps, m + 1, k, c);
  }

  // ----- the resolve -----

  /** No binding has the key for a workspace, a label, a handle, or a label without its prefix. */
  predicate Unnamed(bindings: seq<Bindings.Binding>, key: string)
  {
    forall b | b in bindings ::
      b.workspaceID != key && b.spaceLabel != key && b.handle != key && b.spaceLabel != "nexus:" + key
  }

  /** A call goes on to the lock exactly if the bindings cannot be read, or none is of its workspace. */
  lemma ResolveIff(run: seq<State>, steps: seq<Step>, m: nat, c: nat, readOK: bool)
    requires IsRun(run, steps) && m < |steps| && steps[m] == Resolve(c, readOK)
    ensures c < |run[m].callers| && c < |run[m + 1].callers|
    ensures Has(run[m + 1], c, Probed) <==> !readOK || Unnamed(run[m].bindings, run[m].callers[c].workspaceID)
  {
    assert StepAt(run, steps, m);
  }

  // ----- what is put has been read -----

  /** At step `m` call `c` reads a sandbox of its handle, whose ID is `id`. */
  predicate ReadAt(run: seq<State>, steps: seq<Step>, m: nat, c: nat, id: string)
    requires m < |run| && m < |steps|
  {
    && (steps[m].Get? || steps[m].Reconcile?) && steps[m].c == c < |run[m].callers|
    && steps[m].found.Some? && IsRecord(run[m], steps[m].found.value, run[m].callers[c].handle)
    && run[m].records[steps[m].found.value].id == id
  }

  predicate Knows(s: State, c: nat)
  {
    Has(s, c, Putting) || Has(s, c, Phase.Bound)
  }

  lemma CallLearns(s: State, s': State, step: Step, c: nat)
    requires CallNext(s, s', step) && Knows(s', c)
    ensures c < |s.callers|
    ensures if Knows(s, c) then s'.callers[c].sandboxID == s.callers[c].sandboxID
            else && (step.Get? || step.Reconcile?) && step.c == c && step.found.Some?
                 && IsRecord(s, step.found.value, s.callers[c].handle)
                 && s.records[step.found.value].id == s'.callers[c].sandboxID
  {
  }

  /** A call about to bind, or bound, has read a sandbox of its handle, and it is that one it binds. */
  lemma {:induction false} PutsWhatItRead(run: seq<State>, steps: seq<Step>, k: nat, c: nat) returns (m: nat)
    requires IsRun(run, steps) && k < |run| && Knows(run[k], c)
    ensures m < k && ReadAt(run, steps, m, c, run[k].callers[c].sandboxID)
  {
    assert k > 0;
    assert StepAt(run, steps, k - 1);
    if CallNext(run[k - 1], run[k], steps[k - 1]) {
      CallLearns(run[k - 1], run[k], steps[k - 1], c);
    } else if ChildNext(run[k - 1], run[k], steps[k - 1]) {
      ChildMovesAlone(run[k - 1], run[k], steps[k - 1]);
    }
    if Knows(run[k - 1], c) {
      m := PutsWhatItRead(run, steps, k - 1, c);
    } else {
      m := k - 1;
    }
  }

  // ----- a create that fails -----

  /** A create that fails once its record is written, and can delete it, leaves everything as it was. */
  lemma FailedCreateLeavesNothing(s0: State, s: State, c: nat, sb: Sandbox) returns (r: State)
    requires Reaches(s0, s) && Has(s, c, Probed) && LockName(s.callers[c].handle) !in s.locks
    requires Bindings.ByHandle(s.bindings, s.callers[c].handle) == None && !HasRecord(s, s.callers[c].handle)
    requires Handle(sb) == s.callers[c].handle && sb.id !in s.records
    ensures Reaches(s0, r) && Has(r, c, Gone)
    ensures r.records == s.records && r.bindings == s.bindings && r.locks == s.locks
  {
    var s1 := IsCleared(s0, s, c);
    var s2 := Records(s0, s1, c, sb);
    var s3 := IsUndone(s0, s2, c);
    assert s2.records - {sb.id} == s.records;
    r := FailsAndLeaves(s0, s3, c);
    assert s3.locks - {LockName(s.callers[c].handle)} == s.locks;
  }

  lemma IsUndone(s0: State, s: State, c: nat) returns (r: State)
    requires Reaches(s0, s) && c < |s.callers| && s.callers[c].child.Committed?
    ensures Reaches(s0, r)
    ensures r == With(s, c, s.callers[c].(child := Ended(false))).(records := s.records - {s.callers[c].child.id})
  {
    r := With(s, c, s.callers[c].(child := Ended(false))).(records := s.records - {s.callers[c].child.id});
    assert Undoes(s, r, c, true);
    Then(s0, s, r, Undo(c, true));
  }

  /** A call whose create has failed, and which finds no sandbox, leaves. */
  lemma FailsAndLeaves(s0: State, s: State, c: nat) returns (r: State)
    requires Reaches(s0, s) && Has(s, c, Creating) && s.callers[c].child == Ended(false)
    ensures Reaches(s0, r) && Has(r, c, Gone) && r.records == s.records && r.bindings == s.bindings
    ensures r.locks == s.locks - {LockName(s.callers[c].handle)}
  {
    var s1 := With(s, c, s.callers[c].(phase := Reconciling));
    assert Awaits(s, s1, c);
    Then(s0, s, s1, Await(c));
    var s2 := With(s1, c, s.callers[c].(phase := Leaving));
    assert Reconciles(s1, s2, c, None, true);
    Then(s0, s1, s2, Reconcile(c, None, true));
    r := Releases(s0, s2, c);
  }
}
