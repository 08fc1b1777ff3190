/**
  worktree-sandbox: any number of processes bind worktree workspaces to sandboxes, each create
  double-checked under a lock named after the sandbox handle.
 */
module CreateProtocol {
  import opened Bindings
  import opened Options
  import opened Sandboxes

  /**
    Where a call stands: before the resolve, before the lock, under the lock before the re-check,
    waiting for its create, reconciling, created, about to put, bound, on the way out, and gone.
   */
  datatype Phase = Start | Probed | Locked | Creating | Reconciling | Created | Putting | Bound | Leaving | Gone

  /**
    The `sandbox create` a call runs, which is a process of its own: started, past the check that no
    sandbox has the handle, with its record written, and ended.
   */
  datatype Child = NoChild | Started | Cleared | Committed(id: string) | Ended(ok: bool)

  /** One call. `stale`, `created` and `adopted` remember the path it took. */
  datatype Caller = Caller(handle: string, workspaceID: string, path: string, repoRoot: string, phase: Phase,
                           child: Child, stale: bool, created: bool, adopted: Option<Sandbox>, sandboxID: string)

  /** The sandbox store is keyed by ID. `creates` lists the handles of the records written by creates, in order. */
  datatype State = State(callers: seq<Caller>, locks: map<string, nat>, bindings: seq<Binding>,
                         records: map<string, Sandbox>, creates: seq<string>)

  /** The lock file's name: every '/' becomes '_'. */
  function LockName(handle: string): string
  {
    seq(|handle|, i requires 0 <= i < |handle| => if handle[i] == '/' then '_' else handle[i])
  }

  /** Two handles share a lock file exactly when they differ at most in which separators are '/' and which '_'. */
  lemma LockNamesCollideIff(a: string, b: string)
    ensures LockName(a) == LockName(b)
       <==> |a| == |b| && forall i | 0 <= i < |a| :: a[i] == b[i] || (a[i] in "/_" && b[i] in "/_")
  {
    if |a| == |b| {
      forall i | 0 <= i < |a|
        ensures LockName(a)[i] == LockName(b)[i] <==> a[i] == b[i] || (a[i] in "/_" && b[i] in "/_")
      {
      }
    }
  }

  /** So names are distinct for handles without '_', and not in general; the protocol below relies on neither. */
  lemma LockNamesDistinct(a: string, b: string)
    ensures a != b && '_' !in a && '_' !in b ==> LockName(a) != LockName(b)
    ensures LockName("a_b/c") == LockName("a/b_c")
  {
    LockNamesCollideIff(a, b);
    if a != b && |a| == |b| {
      var i :| 0 <= i < |a| && a[i] != b[i];
    }
  }

  /** The key matches a label, a handle, a derived label or a workspace ID. */
  predicate Resolves(s: seq<Binding>, key: string)
  {
    exists b | b in s :: b.spaceLabel == key || b.handle == key || b.spaceLabel == "nexus:" + key
      || b.workspaceID == key
  }

  function WorkspaceMount(mounts: seq<Mount>): Option<string>
  {
    if mounts == [] then None
    else if mounts[0].guestPath == WORKSPACE_GUEST_PATH then Some(mounts[0].hostPath)
    else WorkspaceMount(mounts[1..])
  }

  /** The reconcile path's checks; host paths are cleaned. */
  predicate Adoptable(sb: Sandbox, path: string)
  {
    WorkspaceMount(sb.mounts) == Some(path) && !sb.removal && (sb.life == Running || sb.life == Stopped)
  }

  function BindingOf(c: Caller, pane: string): Binding
  {
    Binding("nexus:" + c.handle, c.workspaceID, c.handle, c.sandboxID, pane, c.repoRoot, true)
  }

  predicate IsRecord(s: State, id: string, h: string)
  {
    id in s.records && Handle(s.records[id]) == h
  }

  /** Some sandbox in the store has the handle. */
  ghost predicate HasRecord(s: State, h: string)
  {
    exists id :: IsRecord(s, id, h)
  }

  // ----- steps -----

  /** `found` is the sandbox a get gives, if it succeeds: any of the handle's. */
  datatype Step =
    | Resolve(c: nat, readOK: bool)
    | Acquire(c: nat)
    | LockFails(c: nat)
    | Recheck(c: nat, readOK: bool, alive: bool)
    | Check(c: nat, readOK: bool)
    | Commit(c: nat, sb: Sandbox)
    | Finish(c: nat)
    | Undo(c: nat, deleteOK: bool)
    | ChildDies(c: nat)
    | Await(c: nat)
    | Get(c: nat, found: Option<string>)
    | Reconcile(c: nat, found: Option<string>, startOK: bool)
    | Put(c: nat, ok: bool)
    | Patch(c: nat, pane: string)
    | Release(c: nat)
    | Crash(c: nat)
    | Others

  predicate Has(s: State, c: nat, phase: Phase)
  {
    c < |s.callers| && s.callers[c].phase == phase
  }

  predicate Moves(s: State, s': State, c: nat, to: Caller)
    requires c < |s.callers|
  {
    s'.callers == s.callers[c := to]
  }

  predicate SameWorld(s: State, s': State)
  {
    s'.bindings == s.bindings && s'.records == s.records && s'.creates == s.creates
  }

  predicate Enters(s: State, s': State, step: Step)
    requires step.Resolve? || step.Acquire? || step.LockFails?
  {
    && SameWorld(s, s')
    && match step
       case Resolve(c, readOK) =>
         && Has(s, c, Start) && s'.locks == s.locks
         && Moves(s, s', c, s.callers[c].(phase := if readOK && Resolves(s.bindings, s.callers[c].workspaceID)
                                          then Gone else Probed))
       case Acquire(c) =>
         && Has(s, c, Probed) && LockName(s.callers[c].handle) !in s.locks
         && s'.locks == s.locks[LockName(s.callers[c].handle) := c]
         && Moves(s, s', c, s.callers[c].(phase := Locked))
       case LockFails(c) =>
         Has(s, c, Probed) && s'.locks == s.locks && Moves(s, s', c, s.callers[c].(phase := Gone))
  }

  /** What the re-check by handle finds. A failed read counts as no binding. */
  function Rebound(s: State, h: string, readOK: bool): Option<Binding>
  {
    if readOK then ByHandle(s.bindings, h) else None
  }

  /** The re-check: reuse, adopt a stale binding's sandbox, or start a create. */
  predicate Rechecks(s: State, s': State, c: nat, readOK: bool, alive: bool)
  {
    && Has(s, c, Locked) && SameWorld(s, s') && s'.locks == s.locks
    && var b := Rebound(s, s.callers[c].handle, readOK);
       Moves(s, s', c,
             if b.None? then s.callers[c].(phase := Creating, child := Started)
             else if b.value.workspaceID == s.callers[c].workspaceID || alive then s.callers[c].(phase := Leaving)
             else s.callers[c].(phase := Reconciling, stale := true))
  }

  // The create's own steps do not ask whether the call that started it is still there.

  predicate Runs(s: State, c: nat, child: Child)
  {
    c < |s.callers| && s.callers[c].child == child
  }

  /** The create refuses a handle that is taken, and one it cannot look up. */
  ghost predicate Checks(s: State, s': State, c: nat, readOK: bool)
  {
    && Runs(s, c, Started) && SameWorld(s, s') && s'.locks == s.locks
    && Moves(s, s', c, s.callers[c].(child := if readOK && !HasRecord(s, s.callers[c].handle) then Cleared
                                              else Ended(false)))
  }

  /** The record is written under a fresh ID; the store itself does not look at the handle. */
  predicate Commits(s: State, s': State, c: nat, sb: Sandbox)
  {
    && Runs(s, c, Cleared) && Handle(sb) == s.callers[c].handle && sb.id !in s.records
    && s'.locks == s.locks && s'.bindings == s.bindings
    && s'.records == s.records[sb.id := sb] && s'.creates == s.creates + [s.callers[c].handle]
    && Moves(s, s', c, s.callers[c].(child := Committed(sb.id)))
  }

  /** A create that fails once its record is written deletes it, if it can. */
  predicate Undoes(s: State, s': State, c: nat, deleteOK: bool)
  {
    && c < |s.callers| && s.callers[c].child.Committed?
    && s'.locks == s.locks && s'.bindings == s.bindings && s'.creates == s.creates
    && s'.records == (if deleteOK then s.records - {s.callers[c].child.id} else s.records)
    && Moves(s, s', c, s.callers[c].(child := Ended(false)))
  }

  predicate Ends(s: State, s': State, c: nat, ok: bool)
  {
    && c < |s.callers| && SameWorld(s, s') && s'.locks == s.locks
    && (if ok then s.callers[c].child.Committed? else !s.callers[c].child.NoChild? && !s.callers[c].child.Ended?)
    && Moves(s, s', c, s.callers[c].(child := Ended(ok)))
  }

  /** The call goes on once its create has ended. */
  predicate Awaits(s: State, s': State, c: nat)
  {
    && Has(s, c, Creating) && s.callers[c].child.Ended? && SameWorld(s, s') && s'.locks == s.locks
    && Moves(s, s', c, if s.callers[c].child.ok then s.callers[c].(phase := Created, created := true)
                       else s.callers[c].(phase := Reconciling))
  }

  predicate Gets(s: State, s': State, c: nat, found: Option<string>)
  {
    && Has(s, c, Created) && SameWorld(s, s') && s'.locks == s.locks
    && (if found.Some? then
          && IsRecord(s, found.value, s.callers[c].handle)
          && Moves(s, s', c, s.callers[c].(phase := Putting, sandboxID := s.records[found.value].id))
        else
          Moves(s, s', c, s.callers[c].(phase := Leaving)))
  }

  /** A running sandbox need not be started; `startOK` says whether a stopped one can be. */
  predicate IsUp(sb: Sandbox, startOK: bool)
  {
    sb.life == Running || startOK
  }

  predicate Reconciles(s: State, s': State, c: nat, found: Option<string>, startOK: bool)
  {
    && Has(s, c, Reconciling) && SameWorld(s, s') && s'.locks == s.locks
    && (found.Some? ==> IsRecord(s, found.value, s.callers[c].handle))
    && if && found.Some? && Adoptable(s.records[found.value], s.callers[c].path)
          && IsUp(s.records[found.value], startOK) then
         Moves(s, s', c, s.callers[c].(phase := Putting, adopted := Some(s.records[found.value]),
                                       sandboxID := s.records[found.value].id))
       else
         Moves(s, s', c, s.callers[c].(phase := Leaving))
  }

  predicate Puts(s: State, s': State, c: nat, from: Phase, pane: string, ok: bool)
  {
    && Has(s, c, from) && s'.locks == s.locks && s'.records == s.records && s'.creates == s.creates
    && s'.bindings == (if ok then Inserted(s.bindings, BindingOf(s.callers[c], pane)) else s.bindings)
    && Moves(s, s', c, s.callers[c].(phase := if ok then Bound else Leaving))
  }

  /** Leaving the call, or dying anywhere in it, drops the lock; a create it has started goes on. */
  predicate Leaves(s: State, s': State, c: nat)
  {
    && c < |s.callers| && SameWorld(s, s') && Moves(s, s', c, s.callers[c].(phase := Gone))
    && s'.locks == if InSection(s.callers[c].phase) then s.locks - {LockName(s.callers[c].handle)} else s.locks
  }

  /** The steps of a call. */
  predicate CallNext(s: State, s': State, step: Step)
  {
    match step
    case Resolve(c, readOK) => Enters(s, s', step)
    case Acquire(c) => Enters(s, s', step)
    case LockFails(c) => Enters(s, s', step)
    case Recheck(c, readOK, alive) => Rechecks(s, s', c, readOK, alive)
    case Await(c) => Awaits(s, s', c)
    case Get(c, found) => Gets(s, s', c, found)
    case Reconcile(c, found, startOK) => Reconciles(s, s', c, found, startOK)
    case Put(c, ok) => Puts(s, s', c, Putting, "", ok)
    case Patch(c, pane) => Puts(s, s', c, Bound, pane, true)
    case Release(c) => (Has(s, c, Bound) || Has(s, c, Leaving)) && Leaves(s, s', c)
    case Crash(c) => Leaves(s, s', c)
    case _ => false
  }

  /** The steps of the create a call has started. */
  ghost predicate ChildNext(s: State, s': State, step: Step)
  {
    match step
    case Check(c, readOK) => Checks(s, s', c, readOK)
    case Commit(c, sb) => Commits(s, s', c, sb)
    case Finish(c) => Ends(s, s', c, true)
    case Undo(c, deleteOK) => Undoes(s, s', c, deleteOK)
    case ChildDies(c) => Ends(s, s', c, false)
    case _ => false
  }

  ghost predicate Next(s: State, s': State, step: Step)
  {
    || CallNext(s, s', step)
    || ChildNext(s, s', step)
    || (step.Others? && s'.callers == s.callers && s'.locks == s.locks && s'.creates == s.creates)
  }

  predicate Init(s: State)
  {
    && s.locks == map[] && s.creates == []
    && forall c | 0 <= c < |s.callers| :: s.callers[c].phase == Start && s.callers[c].child == NoChild
                                       && !s.callers[c].stale && !s.callers[c].created && s.callers[c].adopted == None
  }

  ghost predicate StepAt(run: seq<State>, steps: seq<Step>, i: nat)
    requires i + 1 < |run| && i < |steps|
  {
    Next(run[i], run[i + 1], steps[i])
  }

  ghost predicate IsRun(run: seq<State>, steps: seq<Step>)
  {
    |run| == |steps| + 1 && Init(run[0]) && forall i | 0 <= i < |steps| :: StepAt(run, steps, i)
  }

  // ----- mutual exclusion -----

  predicate InSection(p: Phase)
  {
    p == Locked || p == Creating || p == Reconciling || p == Created || p == Putting || p == Bound || p == Leaving
  }

  predicate Holds(s: State, c: nat)
    requires c < |s.callers|
  {
    LockName(s.callers[c].handle) in s.locks && s.locks[LockName(s.callers[c].handle)] == c
  }

  predicate Exclusive(s: State)
  {
    forall c | 0 <= c < |s.callers| :: InSection(s.callers[c].phase) ==> Holds(s, c)
  }

  lemma LeavingKeepsExclusive(s: State, s': State, c: nat)
    requires Exclusive(s) && Leaves(s, s', c)
    ensures Exclusive(s')
  {
  }

  lemma CallKeepsExclusive(s: State, s': State, step: Step)
    requires Exclusive(s) && CallNext(s, s', step)
    ensures Exclusive(s')
  {
    if step.Release? || step.Crash? {
      LeavingKeepsExclusive(s, s', step.c);
    }
  }

  lemma NextKeepsExclusive(s: State, s': State, step: Step)
    requires Exclusive(s) && Next(s, s', step)
    ensures Exclusive(s')
  {
    if CallNext(s, s', step) {
      CallKeepsExclusive(s, s', step);
    } else if ChildNext(s, s', step) {
      ChildMovesAlone(s, s', step);
    }
  }

  /** A create's step changes no call but in its child, and takes or drops no lock. */
  lemma ChildMovesAlone(s: State, s': State, step: Step)
    requires ChildNext(s, s', step)
    ensures s'.locks == s.locks && s'.bindings == s.bindings && step.c < |s.callers|
    ensures s'.callers == s.callers[step.c := s.callers[step.c].(child := s'.callers[step.c].child)]
    ensures !s.callers[step.c].child.NoChild? && !s.callers[step.c].child.Ended? && !s'.callers[step.c].child.NoChild?
  {
  }

  /** Two calls that name the same lock are never both under it. */
  lemma OneAtATime(s: State, c: nat, d: nat)
    requires Exclusive(s) && c < |s.callers| && d < |s.callers|
    requires LockName(s.callers[c].handle) == LockName(s.callers[d].handle)
    requires InSection(s.callers[c].phase) && InSection(s.callers[d].phase)
    ensures c == d
  {
  }

  // ----- the paths a call may take -----

  /** A stale rebind starts no create, and what is put was created here or read adoptable. */
  predicate PathOk(c: Caller)
  {
    && (c.stale ==> !c.created && c.child == NoChild)
    && (c.created ==> c.child == Ended(true))
    && (c.adopted.Some? ==> Adoptable(c.adopted.value, c.path) && !c.created && c.sandboxID == c.adopted.value.id)
    && (c.phase == Putting || c.phase == Bound ==> c.created || c.adopted.Some?)
    && (c.phase == Created ==> c.created)
    && (c.phase == Reconciling ==> !c.created && c.adopted == None)
    && (c.phase == Creating ==> !c.stale && !c.created && c.adopted == None && c.child != NoChild)
    && (c.phase == Start || c.phase == Probed || c.phase == Locked ==>
          !c.stale && !c.created && c.adopted == None && c.child == NoChild)
  }

  predicate PathsOk(s: State)
  {
    forall c | 0 <= c < |s.callers| :: PathOk(s.callers[c])
  }

  lemma CallMovesOne(s: State, s': State, step: Step)
    requires CallNext(s, s', step)
    ensures step.c < |s.callers| && |s'.callers| == |s.callers|
    ensures s'.callers == s.callers[step.c := s'.callers[step.c]]
  {
  }

  lemma CallKeepsPath(s: State, s': State, step: Step)
    requires CallNext(s, s', step) && step.c < |s.callers| == |s'.callers| && PathOk(s.callers[step.c])
    ensures PathOk(s'.callers[step.c])
  {
  }

  lemma NextKeepsPaths(s: State, s': State, step: Step)
    requires PathsOk(s) && Next(s, s', step)
    ensures PathsOk(s')
  {
    if CallNext(s, s', step) {
      CallMovesOne(s, s', step);
      CallKeepsPath(s, s', step);
    } else if ChildNext(s, s', step) {
      ChildMovesAlone(s, s', step);
    }
  }

  /** A binding the protocol writes names the caller's workspace and a sandbox it created or adopted. */
  lemma PutIsEarned(s: State, s': State, c: nat, ok: bool)
    requires PathsOk(s) && Puts(s, s', c, Putting, "", ok)
    ensures var me := s.callers[c];
            var b := Binding("nexus:" + me.handle, me.workspaceID, me.handle, me.sandboxID, "", me.repoRoot, true);
            && (me.created || (me.adopted.Some? && Adoptable(me.adopted.value, me.path)
                               && me.sandboxID == me.adopted.value.id))
            && (me.stale ==> me.adopted.Some?)
            && (ok ==> ByHandle(s'.bindings, me.handle) == Some(b))
            && (!ok ==> s'.bindings == s.bindings)
  {
    PutThenGet(s.bindings, BindingOf(s.callers[c], ""));
  }

  lemma {:induction false} RunIsSafe(run: seq<State>, steps: seq<Step>, i: nat)
    requires IsRun(run, steps) && i < |run|
    ensures Exclusive(run[i]) && PathsOk(run[i])
  {
    if i > 0 {
      RunIsSafe(run, steps, i - 1);
      assert StepAt(run, steps, i - 1);
      NextKeepsExclusive(run[i - 1], run[i], steps[i - 1]);
      NextKeepsPaths(run[i - 1], run[i], steps[i - 1]);
    }
  }

  // ----- the protocol itself never loses a binding -----

  predicate IsBound(s: State, h: string)
  {
    ByHandle(s.bindings, h).Some?
  }

  /** A handle's bindings carry the label derived from it, as every writer makes them. */
  predicate Canonical(s: State, h: string)
  {
    forall b | b in s.bindings && b.handle == h :: b.spaceLabel == "nexus:" + h
  }

  lemma {:induction false} ByHandleMember(s: seq<Binding>, h: string)
    ensures ByHandle(s, h).Some? <==> exists b :: b in s && b.handle == h
  {
    if s != [] {
      ByHandleMember(s[1..], h);
      assert s == [s[0]] + s[1..];
      if s[0].handle != h && exists b :: b in s && b.handle == h {
        var b :| b in s && b.handle == h;
        assert b in s[1..];
      }
    }
  }

  lemma SameLabelSameHandle(a: string, b: string)
    requires "nexus:" + a == "nexus:" + b
    ensures a == b
  {
    assert ("nexus:" + a)[6..] == a && ("nexus:" + b)[6..] == b;
  }

  /** A put unbinds no handle whose bindings carry its own label. */
  lemma PutKeepsBound(s: State, s': State, c: nat, from: Phase, pane: string, ok: bool, h: string)
    requires Puts(s, s', c, from, pane, ok) && Canonical(s, h)
    ensures Canonical(s', h) && (IsBound(s, h) ==> IsBound(s', h))
  {
    var b := BindingOf(s.callers[c], pane);
    ByHandleMember(s.bindings, h);
    ByHandleMember(s'.bindings, h);
    forall x
      ensures x in Inserted(s.bindings, b) <==> (x in s.bindings && !Conflicts(x, b)) || x == b
    {
      NonConflictingMembers(s.bindings, b, x);
    }
    if ok && IsBound(s, h) {
      var x :| x in s.bindings && x.handle == h;
      if x.spaceLabel == b.spaceLabel {
        SameLabelSameHandle(x.handle, b.handle);
      }
      assert x in s'.bindings || b in s'.bindings;
    }
  }
}
