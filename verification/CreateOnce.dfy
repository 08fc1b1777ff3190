/**
  One sandbox for one handle: what a second create needs, whatever calls, reads, gets, puts and
  crashes do, as long as no create outlives its call.
 */
module CreateOnce {
  import opened CreateProtocol
  import opened Options
  import opened Sandboxes

  function CreatesOf(s: State, h: string): nat
  {
    multiset(s.creates)[h]
  }

  // ----- a create that has not written its record yet -----

  predicate Pending(s: State, c: nat, h: string)
  {
    c < |s.callers| && s.callers[c].handle == h && (s.callers[c].child == Started || s.callers[c].child == Cleared)
  }

  /** The hypothesis: no call on `h` dies while its create is pending. The lock would go, and the create go on. */
  predicate Attended(s: State, step: Step, h: string)
  {
    step.Crash? ==> !Pending(s, step.c, h)
  }

  /** So a pending create has its call waiting, under the lock. */
  predicate Tended(s: State, h: string)
  {
    forall c | 0 <= c < |s.callers| && Pending(s, c, h) :: s.callers[c].phase == Creating
  }

  lemma CallKeepsTended(s: State, s': State, step: Step, h: string)
    requires Tended(s, h) && PathsOk(s) && CallNext(s, s', step) && Attended(s, step, h)
    ensures Tended(s', h)
  {
    forall c | 0 <= c < |s'.callers| && Pending(s', c, h)
      ensures s'.callers[c].phase == Creating
    {
      if step.c != c {
        assert Pending(s, c, h);
      }
    }
  }

  lemma StepKeepsTended(s: State, s': State, step: Step, h: string)
    requires Tended(s, h) && PathsOk(s) && Next(s, s', step) && Attended(s, step, h)
    ensures Tended(s', h)
  {
    if CallNext(s, s', step) {
      CallKeepsTended(s, s', step, h);
    } else if ChildNext(s, s', step) {
      ChildStaysPending(s, s', step, h);
    }
  }

  /** Only a call's re-check makes a create pending. */
  lemma ChildStaysPending(s: State, s': State, step: Step, h: string)
    requires ChildNext(s, s', step)
    ensures forall c | 0 <= c < |s'.callers| && Pending(s', c, h) ::
              Pending(s, c, h) && s'.callers[c].phase == s.callers[c].phase
  {
  }

  /** And there is one at most. */
  lemma OnePending(s: State, c: nat, d: nat, h: string)
    requires Exclusive(s) && Tended(s, h) && Pending(s, c, h)
    requires d < |s.callers| && s.callers[d].handle == h && InSection(s.callers[d].phase)
    ensures c == d
  {
    OneAtATime(s, c, d);
  }

  // ----- runs -----

  predicate AttendedAt(run: seq<State>, steps: seq<Step>, i: nat, h: string)
    requires i < |run| && i < |steps|
  {
    Attended(run[i], steps[i], h)
  }

  /** A run in which no call on `h` dies over a pending create. */
  ghost predicate AttendedRun(run: seq<State>, steps: seq<Step>, h: string)
  {
    IsRun(run, steps) && forall i | 0 <= i < |steps| :: AttendedAt(run, steps, i, h)
  }

  lemma {:induction false} RunIsTended(run: seq<State>, steps: seq<Step>, i: nat, h: string)
    requires AttendedRun(run, steps, h) && i < |run|
    ensures Tended(run[i], h) && Exclusive(run[i]) && PathsOk(run[i])
  {
    RunIsSafe(run, steps, i);
    if i > 0 {
      RunIsTended(run, steps, i - 1, h);
      assert StepAt(run, steps, i - 1) && AttendedAt(run, steps, i - 1, h);
      StepKeepsTended(run[i - 1], run[i], steps[i - 1], h);
    }
  }

  /** Step `i` writes a record of `h`, for call `c`. */
  predicate CommitAt(run: seq<State>, steps: seq<Step>, i: nat, c: nat, h: string)
    requires i < |run| && i < |steps|
  {
    steps[i].Commit? && steps[i].c == c < |run[i].callers| && run[i].callers[c].handle == h
  }

  /** Step `i` is the re-check of call `c`, and it sees no binding: there is none, or it cannot read. */
  predicate UnboundAt(run: seq<State>, steps: seq<Step>, i: nat, c: nat, h: string)
    requires i < |run| && i < |steps|
  {
    && steps[i].Recheck? && steps[i].c == c < |run[i].callers| && run[i].callers[c].handle == h
    && Rebound(run[i], h, steps[i].readOK).None?
  }

  /** Step `i` is the create of call `c` looking its handle up, with success, and no sandbox has it. */
  ghost predicate VacantAt(run: seq<State>, steps: seq<Step>, i: nat, c: nat, h: string)
    requires i < |run| && i < |steps|
  {
    steps[i].Check? && steps[i].c == c && steps[i].readOK && !HasRecord(run[i], h)
  }

  lemma CreatesGrow(s: State, s': State, step: Step, h: string)
    requires Next(s, s', step)
    ensures CreatesOf(s', h)
         == CreatesOf(s, h) + if step.Commit? && step.c < |s.callers| && s.callers[step.c].handle == h then 1 else 0
  {
    if step.Commit? {
      assert multiset(s'.creates) == multiset(s.creates) + multiset{s.callers[step.c].handle};
    }
  }

  /** While a create of `h` is pending, no record of `h` is written but by it. */
  lemma PendingIsAlone(s: State, s': State, step: Step, c: nat, h: string)
    requires Exclusive(s) && Tended(s, h) && Next(s, s', step) && Pending(s, c, h) && Pending(s', c, h)
    ensures CreatesOf(s', h) == CreatesOf(s, h)
  {
    CreatesGrow(s, s', step, h);
    if step.Commit? && s.callers[step.c].handle == h {
      OnePending(s, c, step.c, h);
    }
  }

  lemma BecomesPending(s: State, s': State, step: Step, c: nat, h: string)
    requires Next(s, s', step) && !Pending(s, c, h) && Pending(s', c, h)
    ensures step.Recheck? && step.c == c && Has(s, c, Locked) && s.callers[c].handle == h
    ensures Rebound(s, h, step.readOK).None? && s'.creates == s.creates
  {
    if ChildNext(s, s', step) {
      ChildStaysPending(s, s', step, h);
    }
  }

  predicate PastCheck(s: State, c: nat, h: string)
  {
    Pending(s, c, h) && s.callers[c].child == Cleared
  }

  lemma BecomesCleared(s: State, s': State, step: Step, c: nat, h: string)
    requires Next(s, s', step) && !PastCheck(s, c, h) && PastCheck(s', c, h)
    ensures step.Check? && step.c == c && step.readOK && !HasRecord(s, h) && Pending(s, c, h)
    ensures s'.creates == s.creates
  {
    if CallNext(s, s', step) {
      CallClearsNone(s, s', step, c);
    }
  }

  lemma CallClearsNone(s: State, s': State, step: Step, c: nat)
    requires CallNext(s, s', step) && c < |s'.callers| && s'.callers[c].child == Cleared
    ensures c < |s.callers| && s.callers[c].child == Cleared && s'.callers[c].handle == s.callers[c].handle
  {
  }

  /** A pending create was started by the re-check, and no record of `h` has been written since. */
  lemma {:induction false} WasUnbound(run: seq<State>, steps: seq<Step>, j: nat, c: nat, h: string) returns (m: nat)
    requires AttendedRun(run, steps, h) && j < |run| && Pending(run[j], c, h)
    ensures m < j && UnboundAt(run, steps, m, c, h) && CreatesOf(run[m], h) == CreatesOf(run[j], h)
    decreases j
  {
    assert j > 0;
    RunIsTended(run, steps, j - 1, h);
    assert StepAt(run, steps, j - 1);
    if Pending(run[j - 1], c, h) {
      m := WasUnbound(run, steps, j - 1, c, h);
      PendingIsAlone(run[j - 1], run[j], steps[j - 1], c, h);
    } else {
      BecomesPending(run[j - 1], run[j], steps[j - 1], c, h);
      m := j - 1;
    }
  }

  /** And, if it is past its own check, by that. */
  lemma {:induction false} WasVacant(run: seq<State>, steps: seq<Step>, j: nat, c: nat, h: string) returns (n: nat)
    requires AttendedRun(run, steps, h) && j < |run| && PastCheck(run[j], c, h)
    ensures n < j && VacantAt(run, steps, n, c, h) && Pending(run[n], c, h)
    ensures CreatesOf(run[n], h) == CreatesOf(run[j], h)
    decreases j
  {
    assert j > 0;
    RunIsTended(run, steps, j - 1, h);
    assert StepAt(run, steps, j - 1);
    if PastCheck(run[j - 1], c, h) {
      n := WasVacant(run, steps, j - 1, c, h);
      PendingIsAlone(run[j - 1], run[j], steps[j - 1], c, h);
    } else {
      BecomesCleared(run[j - 1], run[j], steps[j - 1], c, h);
      n := j - 1;
    }
  }

  lemma {:induction false} CreatesRemembered(run: seq<State>, steps: seq<Step>, i: nat, k: nat, h: string)
    requires IsRun(run, steps) && i <= k < |run|
    ensures CreatesOf(run[i], h) <= CreatesOf(run[k], h)
    decreases k
  {
    if i < k {
      CreatesRemembered(run, steps, i, k - 1, h);
      assert StepAt(run, steps, k - 1);
      CreatesGrow(run[k - 1], run[k], steps[k - 1], h);
    }
  }

  // ----- what a create needs, and a second one -----

  /**
    Every create is doubly earned: its call's re-check saw no binding, then its own check found no
    sandbox of the handle, and no other create of the handle wrote a record since.
   */
  lemma CreateIsEarned(run: seq<State>, steps: seq<Step>, j: nat, c: nat, h: string) returns (m: nat, n: nat)
    requires AttendedRun(run, steps, h) && j < |steps| && CommitAt(run, steps, j, c, h)
    ensures m < n < j && UnboundAt(run, steps, m, c, h) && VacantAt(run, steps, n, c, h)
    ensures CreatesOf(run[m], h) == CreatesOf(run[n], h) == CreatesOf(run[j], h)
  {
    assert StepAt(run, steps, j);
    n := WasVacant(run, steps, j, c, h);
    m := WasUnbound(run, steps, n, c, h);
  }

  /**
    So a second create of a handle needs both guards to fail after the first: a re-check that sees no
    binding, and then a time at which the sandbox is gone.
   */
  lemma SecondCreateNeeds(run: seq<State>, steps: seq<Step>, i: nat, j: nat, c: nat, d: nat, h: string)
    returns (m: nat, n: nat)
    requires AttendedRun(run, steps, h) && i < j < |steps|
    requires CommitAt(run, steps, i, c, h) && CommitAt(run, steps, j, d, h)
    ensures i < m < n < j && UnboundAt(run, steps, m, d, h) && VacantAt(run, steps, n, d, h)
  {
    m, n := CreateIsEarned(run, steps, j, d, h);
    assert StepAt(run, steps, i);
    CreatesGrow(run[i], run[i + 1], steps[i], h);
    CreatesRemembered(run, steps, i + 1, j, h);
    if m <= i {
      CreatesRemembered(run, steps, m, i, h);
    }
  }

  /** After a create, a re-check that sees no binding, then a check that finds no sandbox, then a create. */
  ghost predicate CreatedAgain(run: seq<State>, steps: seq<Step>, i: nat, m: nat, n: nat, j: nat,
                               c: nat, d: nat, h: string)
    requires i < m < n < j < |steps| < |run|
  {
    && CommitAt(run, steps, i, c, h) && UnboundAt(run, steps, m, d, h) && VacantAt(run, steps, n, d, h)
    && CommitAt(run, steps, j, d, h)
  }

  lemma {:induction false} LastCreate(run: seq<State>, steps: seq<Step>, k: nat, h: string) returns (i: nat)
    requires IsRun(run, steps) && k < |run| && CreatesOf(run[k], h) >= 1
    ensures i < k && CreatesOf(run[i], h) == CreatesOf(run[k], h) - 1
    ensures steps[i].Commit? && CommitAt(run, steps, i, steps[i].c, h)
    decreases k
  {
    assert k > 0;
    assert StepAt(run, steps, k - 1);
    CreatesGrow(run[k - 1], run[k], steps[k - 1], h);
    if CreatesOf(run[k], h) == CreatesOf(run[k - 1], h) {
      i := LastCreate(run, steps, k - 1, h);
    } else {
      i := k - 1;
    }
  }

  /** A second create succeeds exactly when both guards fail, one after the other, since a first. */
  lemma SecondCreateIff(run: seq<State>, steps: seq<Step>, k: nat, h: string)
    requires AttendedRun(run, steps, h) && k < |run|
    ensures CreatesOf(run[k], h) >= 2
       <==> exists i: nat, m: nat, n: nat, j: nat, c: nat, d: nat | i < m < n < j < k ::
              CreatedAgain(run, steps, i, m, n, j, c, d, h)
  {
    if CreatesOf(run[k], h) >= 2 {
      var j := LastCreate(run, steps, k, h);
      var i := LastCreate(run, steps, j, h);
      var m, n := SecondCreateNeeds(run, steps, i, j, steps[i].c, steps[j].c, h);
      assert CreatedAgain(run, steps, i, m, n, j, steps[i].c, steps[j].c, h);
    }
    forall i: nat, m: nat, n: nat, j: nat, c: nat, d: nat
      | i < m < n < j < k && CreatedAgain(run, steps, i, m, n, j, c, d, h)
      ensures CreatesOf(run[k], h) >= 2
    {
      TwoCommits(run, steps, i, j, k, c, d, h);
    }
  }

  lemma TwoCommits(run: seq<State>, steps: seq<Step>, i: nat, j: nat, k: nat, c: nat, d: nat, h: string)
    requires IsRun(run, steps) && i < j < k < |run| && CommitAt(run, steps, i, c, h) && CommitAt(run, steps, j, d, h)
    ensures CreatesOf(run[k], h) >= 2
  {
    assert StepAt(run, steps, i) && StepAt(run, steps, j);
    CreatesGrow(run[i], run[i + 1], steps[i], h);
    CreatesGrow(run[j], run[j + 1], steps[j], h);
    CreatesRemembered(run, steps, i + 1, j, h);
    CreatesRemembered(run, steps, j + 1, k, h);
  }

  /**
    While the sandbox a create has recorded is not removed, at most one create of the handle succeeds:
    for any number of interleaved calls, whatever becomes of bindings, reads, gets, puts and calls.
   */
  lemma {:induction false} AtMostOneCreate(run: seq<State>, steps: seq<Step>, k: nat, h: string)
    requires AttendedRun(run, steps, h) && k < |run|
    requires forall n | 0 <= n < k && CreatesOf(run[n], h) >= 1 :: HasRecord(run[n], h)
    ensures CreatesOf(run[k], h) <= 1
  {
    if k > 0 {
      AtMostOneCreate(run, steps, k - 1, h);
      assert StepAt(run, steps, k - 1);
      CreatesGrow(run[k - 1], run[k], steps[k - 1], h);
      if CreatesOf(run[k], h) > CreatesOf(run[k - 1], h) {
        var m, n := CreateIsEarned(run, steps, k - 1, steps[k - 1].c, h);
      }
    }
  }

  // ----- never two sandboxes at once -----

  /** At most one sandbox in the store has the handle. */
  ghost predicate Single(s: State, h: string)
  {
    forall a, b | IsRecord(s, a, h) && IsRecord(s, b, h) :: a == b
  }

  /** A create past its check will find the handle free. */
  ghost predicate Vacant(s: State, h: string)
  {
    forall c | 0 <= c < |s.callers| && PastCheck(s, c, h) :: !HasRecord(s, h)
  }

  /** Others may remove and change sandboxes, but add none with this handle. */
  ghost predicate AddsNone(s: State, s': State, step: Step, h: string)
  {
    step.Others? ==> forall id | IsRecord(s', id, h) :: IsRecord(s, id, h)
  }

  lemma CommitIsSingle(s: State, s': State, c: nat, sb: Sandbox, h: string)
    requires Exclusive(s) && Tended(s, h) && Single(s, h) && Vacant(s, h) && Commits(s, s', c, sb)
    ensures Single(s', h) && Vacant(s', h)
  {
    if s.callers[c].handle == h {
      assert PastCheck(s, c, h);
      forall id | IsRecord(s', id, h)
        ensures id == sb.id
      {
        assert id != sb.id ==> IsRecord(s, id, h);
      }
      forall d | 0 <= d < |s'.callers|
        ensures !Pending(s', d, h)
      {
        if Pending(s', d, h) {
          assert Pending(s, d, h);
          OnePending(s, d, c, h);
        }
      }
    } else {
      forall id | IsRecord(s', id, h)
        ensures IsRecord(s, id, h)
      {
      }
      NoMoreRecords(s, s', h);
    }
  }

  lemma NoMoreRecords(s: State, s': State, h: string)
    requires Single(s, h) && Vacant(s, h) && forall id | IsRecord(s', id, h) :: IsRecord(s, id, h)
    requires forall c | 0 <= c < |s'.callers| && PastCheck(s', c, h) :: !HasRecord(s, h) || PastCheck(s, c, h)
    ensures Single(s', h) && Vacant(s', h)
  {
    if HasRecord(s', h) {
      var id :| IsRecord(s', id, h);
      assert IsRecord(s, id, h);
    }
  }

  lemma OnlyCommitsAdd(s: State, s': State, step: Step, h: string)
    requires Next(s, s', step) && AddsNone(s, s', step, h) && !step.Commit?
    ensures forall id | IsRecord(s', id, h) :: IsRecord(s, id, h)
  {
  }

  lemma StepKeepsSingle(s: State, s': State, step: Step, h: string)
    requires Exclusive(s) && Tended(s, h) && Single(s, h) && Vacant(s, h)
    requires Next(s, s', step) && AddsNone(s, s', step, h)
    ensures Single(s', h) && Vacant(s', h)
  {
    if step.Commit? {
      CommitIsSingle(s, s', step.c, step.sb, h);
    } else {
      OnlyCommitsAdd(s, s', step, h);
      forall c: nat | c < |s'.callers| && PastCheck(s', c, h)
        ensures !HasRecord(s, h) || PastCheck(s, c, h)
      {
        if !PastCheck(s, c, h) {
          BecomesCleared(s, s', step, c, h);
        }
      }
      NoMoreRecords(s, s', h);
    }
  }

  ghost predicate AddsNoneAt(run: seq<State>, steps: seq<Step>, i: nat, h: string)
    requires i + 1 < |run| && i < |steps|
  {
    AddsNone(run[i], run[i + 1], steps[i], h)
  }

  /** The store never holds two sandboxes of one handle, however often they are removed and created again. */
  lemma {:induction false} NeverTwo(run: seq<State>, steps: seq<Step>, k: nat, h: string)
    requires AttendedRun(run, steps, h) && k < |run| && Single(run[0], h)
    requires forall i | 0 <= i < |steps| :: AddsNoneAt(run, steps, i, h)
    ensures Single(run[k], h) && Vacant(run[k], h)
  {
    if k > 0 {
      NeverTwo(run, steps, k - 1, h);
      RunIsTended(run, steps, k - 1, h);
      assert StepAt(run, steps, k - 1) && AddsNoneAt(run, steps, k - 1, h);
      StepKeepsSingle(run[k - 1], run[k], steps[k - 1], h);
    }
  }

  // ----- the other guard: a bound handle -----

  /** Others neither unbind nor relabel the handle, and its re-checks can read. */
  predicate Kept(s: State, s': State, step: Step, h: string)
  {
    && (step.Others? ==> (IsBound(s, h) ==> IsBound(s', h)) && (Canonical(s, h) ==> Canonical(s', h)))
    && (step.Recheck? && step.c < |s.callers| && s.callers[step.c].handle == h ==> step.readOK)
  }

  predicate KeptAt(run: seq<State>, steps: seq<Step>, i: nat, h: string)
    requires i + 1 < |run| && i < |steps|
  {
    Kept(run[i], run[i + 1], steps[i], h)
  }

  lemma StepKeepsBinding(s: State, s': State, step: Step, h: string)
    requires Canonical(s, h) && Next(s, s', step) && Kept(s, s', step, h)
    ensures Canonical(s', h) && (IsBound(s, h) ==> IsBound(s', h))
  {
    if step.Put? {
      PutKeepsBound(s, s', step.c, Putting, "", step.ok, h);
    } else if step.Patch? {
      PutKeepsBound(s, s', step.c, Bound, step.pane, true, h);
    }
  }

  lemma {:induction false} StaysBound(run: seq<State>, steps: seq<Step>, p: nat, k: nat, h: string)
    requires IsRun(run, steps) && p <= k < |run| && Canonical(run[p], h) && IsBound(run[p], h)
    requires forall i | p <= i < |steps| :: KeptAt(run, steps, i, h)
    ensures Canonical(run[k], h) && IsBound(run[k], h)
    decreases k
  {
    if p < k {
      StaysBound(run, steps, p, k - 1, h);
      assert StepAt(run, steps, k - 1) && KeptAt(run, steps, k - 1, h);
      StepKeepsBinding(run[k - 1], run[k], steps[k - 1], h);
    }
  }

  /** A handle that is bound and stays so is seen by every re-check. */
  lemma StillSeen(run: seq<State>, steps: seq<Step>, p: nat, m: nat, c: nat, h: string)
    requires IsRun(run, steps) && p <= m < |steps| && Canonical(run[p], h) && IsBound(run[p], h)
    requires forall i | p <= i < |steps| :: KeptAt(run, steps, i, h)
    ensures !UnboundAt(run, steps, m, c, h)
  {
    StaysBound(run, steps, p, m, h);
    assert KeptAt(run, steps, m, h);
  }

  /**
    Once the handle is bound, and stays so for all to read, no call creates it whose re-check comes
    later, even if the sandbox is removed.
   */
  lemma BoundIsNotRecreated(run: seq<State>, steps: seq<Step>, p: nat, j: nat, c: nat, h: string) returns (m: nat)
    requires AttendedRun(run, steps, h) && p < |run| && Canonical(run[p], h) && IsBound(run[p], h)
    requires forall i | p <= i < |steps| :: KeptAt(run, steps, i, h)
    requires j < |steps| && CommitAt(run, steps, j, c, h)
    ensures m < p && m < j && UnboundAt(run, steps, m, c, h)
  {
    var n;
    m, n := CreateIsEarned(run, steps, j, c, h);
    if m >= p {
      StillSeen(run, steps, p, m, c, h);
    }
  }

  /** How far a call has come; it never goes back. */
  function Rank(p: Phase): nat
  {
    match p
    case Start => 0
    case Probed => 1
    case Locked => 2
    case Creating => 3
    case Reconciling => 4
    case Created => 4
    case Putting => 5
    case Bound => 6
    case Leaving => 7
    case Gone => 8
  }

  lemma CallGoesOn(s: State, s': State, step: Step, c: nat)
    requires CallNext(s, s', step) && c < |s.callers|
    ensures c < |s'.callers| && Rank(s.callers[c].phase) <= Rank(s'.callers[c].phase)
    ensures s'.callers[c].handle == s.callers[c].handle
  {
  }

  lemma {:induction false} RunGoesOn(run: seq<State>, steps: seq<Step>, i: nat, k: nat, c: nat)
    requires IsRun(run, steps) && i <= k < |run| && c < |run[i].callers|
    ensures c < |run[k].callers| && Rank(run[i].callers[c].phase) <= Rank(run[k].callers[c].phase)
    ensures run[k].callers[c].handle == run[i].callers[c].handle
    decreases k
  {
    if i < k {
      RunGoesOn(run, steps, i, k - 1, c);
      assert StepAt(run, steps, k - 1);
      if CallNext(run[k - 1], run[k], steps[k - 1]) {
        CallGoesOn(run[k - 1], run[k], steps[k - 1], c);
      } else if ChildNext(run[k - 1], run[k], steps[k - 1]) {
        ChildMovesAlone(run[k - 1], run[k], steps[k - 1]);
      }
    }
  }

  /** From its create to its put a call is under the lock. */
  lemma StaysUnder(run: seq<State>, steps: seq<Step>, i: nat, p: nat, m: nat, c: nat, h: string)
    requires AttendedRun(run, steps, h) && i <= m <= p < |steps|
    requires CommitAt(run, steps, i, c, h) && steps[p] == Put(c, true)
    ensures c < |run[m].callers| && run[m].callers[c].handle == h && 3 <= Rank(run[m].callers[c].phase) <= 5
  {
    RunIsTended(run, steps, i, h);
    assert StepAt(run, steps, i) && StepAt(run, steps, p);
    assert Pending(run[i], c, h);
    RunGoesOn(run, steps, i, m, c);
    RunGoesOn(run, steps, m, p, c);
  }

  /** So no other call re-checks then. */
  lemma NoneBetween(run: seq<State>, steps: seq<Step>, i: nat, p: nat, m: nat, c: nat, d: nat, h: string)
    requires AttendedRun(run, steps, h) && i <= m <= p < |steps|
    requires CommitAt(run, steps, i, c, h) && steps[p] == Put(c, true)
    ensures !UnboundAt(run, steps, m, d, h)
  {
    StaysUnder(run, steps, i, p, m, c, h);
    RunIsTended(run, steps, m, h);
    assert StepAt(run, steps, m);
    if Has(run[m], d, Locked) && run[m].callers[d].handle == h {
      OneAtATime(run[m], c, d);
    }
  }

  /**
    The binding guard alone: a call that creates the sandbox and binds it is the last to create it, as
    long as the binding stays and can be read, even if the sandbox does not.
   */
  lemma BoundIsLast(run: seq<State>, steps: seq<Step>, i: nat, p: nat, j: nat, c: nat, d: nat, h: string)
    requires AttendedRun(run, steps, h) && i < p < |steps| && i < j < |steps|
    requires CommitAt(run, steps, i, c, h) && steps[p] == Put(c, true) && Canonical(run[p], h)
    requires forall n | p < n < |steps| :: KeptAt(run, steps, n, h)
    ensures !CommitAt(run, steps, j, d, h)
  {
    PutBinds(run, steps, i, p, c, h);
    if CommitAt(run, steps, j, d, h) {
      var m, n := SecondCreateNeeds(run, steps, i, j, c, d, h);
      if m <= p {
        NoneBetween(run, steps, i, p, m, c, d, h);
      } else {
        StillSeen(run, steps, p + 1, m, d, h);
      }
    }
  }

  lemma PutBinds(run: seq<State>, steps: seq<Step>, i: nat, p: nat, c: nat, h: string)
    requires IsRun(run, steps) && i < p < |steps| && CommitAt(run, steps, i, c, h)
    requires steps[p] == Put(c, true) && Canonical(run[p], h)
    ensures Canonical(run[p + 1], h) && IsBound(run[p + 1], h)
  {
    RunGoesOn(run, steps, i, p, c);
    RunIsSafe(run, steps, p);
    assert StepAt(run, steps, p);
    PutKeepsBound(run[p], run[p + 1], c, Putting, "", true, h);
    PutIsEarned(run[p], run[p + 1], c, true);
  }
}
