/** Two sandboxes of one handle: a call dies, its lock goes, and the create it started goes on. */
module CreateRace {
  import Bindings
  import opened CreateOnce
  import opened CreateProtocol
  import opened Options
  import Paths
  import opened Sandboxes

  /** Steps in which nothing but the protocol moves, and every read succeeds. */
  ghost predicate Quiet(s: State, s': State, step: Step)
  {
    Next(s, s', step) && !step.Others? && (step.Recheck? || step.Check? || step.Resolve? ==> step.readOK)
  }

  ghost predicate Reaches(s: State, s': State)
  {
    Paths.Reaches(Quiet, s, s')
  }

  lemma Then(s: State, mid: State, s': State, step: Step)
    requires Reaches(s, mid) && Quiet(mid, s', step)
    ensures Reaches(s, s')
  {
    Paths.Then(Quiet, s, mid, s', step);
  }

  ghost predicate QuietAt(run: seq<State>, steps: seq<Step>, i: nat)
    requires i + 1 < |run| && i < |steps|
  {
    Quiet(run[i], run[i + 1], steps[i])
  }

  lemma AsRun(s: State, r: State) returns (run: seq<State>, steps: seq<Step>)
    requires Init(s) && Reaches(s, r)
    ensures IsRun(run, steps) && run[0] == s && run[|steps|] == r
    ensures forall i | 0 <= i < |steps| :: QuietAt(run, steps, i)
  {
    var n: nat :| Paths.ReachesIn(Quiet, s, r, n);
    run, steps := Paths.AsPath(Quiet, s, r, n);
    forall i: nat | i < |steps|
      ensures StepAt(run, steps, i) && QuietAt(run, steps, i)
    {
      assert Quiet(run[i], run[i + 1], steps[i]);
    }
  }

  /** The state with call `c` changed. */
  function With(s: State, c: nat, to: Caller): State
    requires c < |s.callers|
  {
    s.(callers := s.callers[c := to])
  }

  /** Under the lock, with no binding and no sandbox, a call's create gets past both guards. */
  lemma IsCleared(s0: State, s: State, c: nat) returns (r: State)
    requires c < |s.callers| && Reaches(s0, s) && s.callers[c].phase == Probed
    requires LockName(s.callers[c].handle) !in s.locks
    requires Bindings.ByHandle(s.bindings, s.callers[c].handle) == None && !HasRecord(s, s.callers[c].handle)
    ensures Reaches(s0, r)
    ensures r == With(s, c, s.callers[c].(phase := Creating, child := Cleared)).(
                   locks := s.locks[LockName(s.callers[c].handle) := c])
  {
    var h := s.callers[c].handle;
    var s1 := With(s, c, s.callers[c].(phase := Locked)).(locks := s.locks[LockName(h) := c]);
    assert Enters(s, s1, Acquire(c));
    Then(s0, s, s1, Acquire(c));
    var s2 := With(s1, c, s.callers[c].(phase := Creating, child := Started));
    assert Rechecks(s1, s2, c, true, false);
    Then(s0, s1, s2, Recheck(c, true, false));
    r := With(s2, c, s.callers[c].(phase := Creating, child := Cleared));
    assert !HasRecord(s2, h) by {
      assert forall id :: IsRecord(s2, id, h) ==> IsRecord(s, id, h);
    }
    assert Checks(s2, r, c, true);
    Then(s0, s2, r, Check(c, true));
  }

  /** The call dies; its create does not. */
  lemma IsOrphaned(s0: State, s: State, c: nat) returns (r: State)
    requires c < |s.callers| && Reaches(s0, s) && s.callers[c].phase == Creating
    ensures Reaches(s0, r)
    ensures r == With(s, c, s.callers[c].(phase := Gone)).(locks := s.locks - {LockName(s.callers[c].handle)})
  {
    r := With(s, c, s.callers[c].(phase := Gone)).(locks := s.locks - {LockName(s.callers[c].handle)});
    assert Leaves(s, r, c);
    Then(s0, s, r, Crash(c));
  }

  /** A call that is done, or has given up, drops its lock. */
  lemma Releases(s0: State, s: State, c: nat) returns (r: State)
    requires Reaches(s0, s) && (Has(s, c, Phase.Bound) || Has(s, c, Leaving))
    ensures Reaches(s0, r)
    ensures r == With(s, c, s.callers[c].(phase := Gone)).(locks := s.locks - {LockName(s.callers[c].handle)})
  {
    r := With(s, c, s.callers[c].(phase := Gone)).(locks := s.locks - {LockName(s.callers[c].handle)});
    assert Leaves(s, r, c);
    Then(s0, s, r, Release(c));
  }

  lemma Records(s0: State, s: State, c: nat, sb: Sandbox) returns (r: State)
    requires c < |s.callers| && Reaches(s0, s) && s.callers[c].child == Cleared
    requires Handle(sb) == s.callers[c].handle && sb.id !in s.records
    ensures Reaches(s0, r)
    ensures r == With(s, c, s.callers[c].(child := Committed(sb.id))).(
                   records := s.records[sb.id := sb], creates := s.creates + [s.callers[c].handle])
  {
    r := With(s, c, s.callers[c].(child := Committed(sb.id))).(
           records := s.records[sb.id := sb], creates := s.creates + [s.callers[c].handle]);
    assert Commits(s, r, c, sb);
    Then(s0, s, r, Commit(c, sb));
  }

  /** A create past its check whose call is gone. */
  predicate Orphan(s: State, c: nat, h: string)
  {
    PastCheck(s, c, h) && s.callers[c].phase == Gone
  }

  /**
    From every state with such an orphan, the next call for the handle gets past both guards too, and
    both creates write their records.
   */
  lemma OrphanOverlaps(s0: State, s: State, a: nat, b: nat, h: string, one: Sandbox, two: Sandbox) returns (r: State)
    requires Reaches(s0, s) && Orphan(s, a, h) && Has(s, b, Probed) && s.callers[b].handle == h
    requires LockName(h) !in s.locks && Bindings.ByHandle(s.bindings, h) == None && !HasRecord(s, h)
    requires Handle(one) == h == Handle(two) && one.id != two.id && one.id !in s.records && two.id !in s.records
    ensures Reaches(s0, r) && IsRecord(r, one.id, h) && IsRecord(r, two.id, h)
    ensures CreatesOf(r, h) == CreatesOf(s, h) + 2
  {
    var s1 := IsCleared(s0, s, b);
    var s2 := Records(s0, s1, a, one);
    r := Records(s0, s2, b, two);
    assert multiset(r.creates) == multiset(s.creates) + multiset{h, h};
  }

  function NewCall(h: string, workspaceID: string): Caller
  {
    Caller(h, workspaceID, "", "", Start, NoChild, false, false, None, "")
  }

  /** Two calls for one handle, from two workspaces, and nothing bound or created yet. */
  function TwoCalls(h: string): State
  {
    State([NewCall(h, "first"), NewCall(h, "second")], map[], [], map[], [])
  }

  lemma BothProbe(h: string) returns (r: State)
    ensures Reaches(TwoCalls(h), r)
    ensures r == TwoCalls(h).(callers := [NewCall(h, "first").(phase := Probed),
                                          NewCall(h, "second").(phase := Probed)])
  {
    var s := TwoCalls(h);
    Paths.Here(Quiet, s);
    var s1 := With(s, 0, s.callers[0].(phase := Probed));
    assert Enters(s, s1, Resolve(0, true));
    Then(s, s, s1, Resolve(0, true));
    r := With(s1, 1, s.callers[1].(phase := Probed));
    assert Enters(s1, r, Resolve(1, true));
    Then(s, s1, r, Resolve(1, true));
  }

  /**
    So that no call dies over its pending create is needed: a run in which every read succeeds and
    nobody else touches the stores, and two sandboxes of one handle are recorded.
   */
  lemma CreatedTwice(h: string, one: Sandbox, two: Sandbox) returns (run: seq<State>, steps: seq<Step>)
    requires Handle(one) == h == Handle(two) && one.id != two.id
    ensures IsRun(run, steps) && Single(run[0], h) && forall i | 0 <= i < |steps| :: QuietAt(run, steps, i)
    ensures CreatesOf(run[|steps|], h) == 2 && !Single(run[|steps|], h)
  {
    var s0 := TwoCalls(h);
    var s1 := BothProbe(h);
    var s2 := IsCleared(s0, s1, 0);
    var s3 := IsOrphaned(s0, s2, 0);
    assert Orphan(s3, 0, h);
    var s4 := OrphanOverlaps(s0, s3, 0, 1, h, one, two);
    run, steps := AsRun(s0, s4);
  }
}
