/** Finite paths of any transition relation. */
module Paths {

  ghost predicate ReachesIn<S(!new), A(!new)>(next: (S, S, A) -> bool, s: S, s': S, n: nat)
    decreases n
  {
    if n == 0 then s == s'
    else exists mid, step :: ReachesIn(next, s, mid, n - 1) && next(mid, s', step)
  }

  /** Some steps lead from `s` to `s'`. */
  ghost predicate Reaches<S(!new), A(!new)>(next: (S, S, A) -> bool, s: S, s': S)
  {
    exists n: nat :: ReachesIn(next, s, s', n)
  }

  /** Consecutive states, each following from the one before. */
  ghost predicate IsPath<S(!new), A(!new)>(next: (S, S, A) -> bool, states: seq<S>, steps: seq<A>)
  {
    |states| == |steps| + 1 && forall i: nat | i < |steps| :: next(states[i], states[i + 1], steps[i])
  }

  lemma Here<S(!new), A(!new)>(next: (S, S, A) -> bool, s: S)
    ensures Reaches(next, s, s)
  {
    assert ReachesIn(next, s, s, 0);
  }

  lemma Then<S(!new), A(!new)>(next: (S, S, A) -> bool, s: S, mid: S, s': S, step: A)
    requires Reaches(next, s, mid) && next(mid, s', step)
    ensures Reaches(next, s, s')
  {
    var n: nat :| ReachesIn(next, s, mid, n);
    assert ReachesIn(next, s, s', n + 1);
  }

  /** A path of a narrower relation, continued by one of a wider. */
  lemma {:induction false} Onward<S(!new), A(!new)>(narrow: (S, S, A) -> bool, wide: (S, S, A) -> bool, a: S, b: S,
                                                    c: S, n: nat)
    requires forall x, y, step | narrow(x, y, step) :: wide(x, y, step)
    requires Reaches(narrow, a, b) && ReachesIn(wide, b, c, n)
    ensures Reaches(wide, a, c)
    decreases n
  {
    if n == 0 {
      var k: nat :| ReachesIn(narrow, a, b, k);
      Widen(narrow, wide, a, b, k);
    } else {
      var mid, step :| ReachesIn(wide, b, mid, n - 1) && wide(mid, c, step);
      Onward(narrow, wide, a, b, mid, n - 1);
      Then(wide, a, mid, c, step);
    }
  }

  lemma {:induction false} Widen<S(!new), A(!new)>(narrow: (S, S, A) -> bool, wide: (S, S, A) -> bool, a: S, b: S,
                                                   n: nat)
    requires (forall x, y, step | narrow(x, y, step) :: wide(x, y, step)) && ReachesIn(narrow, a, b, n)
    ensures Reaches(wide, a, b)
    decreases n
  {
    if n == 0 {
      Here(wide, a);
    } else {
      var mid, step :| ReachesIn(narrow, a, mid, n - 1) && narrow(mid, b, step);
      Widen(narrow, wide, a, mid, n - 1);
      Then(wide, a, mid, b, step);
    }
  }

  lemma {:induction false} AsPath<S(!new), A(!new)>(next: (S, S, A) -> bool, s: S, s': S, n: nat)
    returns (states: seq<S>, steps: seq<A>)
    requires ReachesIn(next, s, s', n)
    ensures IsPath(next, states, steps) && states[0] == s && states[|steps|] == s'
    decreases n
  {
    if n == 0 {
      states, steps := [s], [];
    } else {
      var mid, step :| ReachesIn(next, s, mid, n - 1) && next(mid, s', step);
      states, steps := AsPath(next, s, mid, n - 1);
      states, steps := states + [s'], steps + [step];
    }
  }

  // ----- what is bound to happen -----

  /**
    Within `n` steps the system is `done`: while it is `busy` it moves by some `forced` step, whichever, and
    otherwise by the `turn` somebody takes.
   */
  ghost predicate Comes<S(!new)>(forced: (S, S) -> bool, busy: S -> bool, turn: (S, S) -> bool, done: S -> bool, s: S,
                                 n: nat)
    decreases n
  {
    || done(s)
    || (n > 0 && busy(s) && (exists t :: forced(s, t))
        && forall t | forced(s, t) :: Comes(forced, busy, turn, done, t, n - 1))
    || (n > 0 && !busy(s) && exists t :: turn(s, t) && Comes(forced, busy, turn, done, t, n - 1))
  }

  ghost predicate Closer<S(!new)>(inv: S -> bool, left: S -> nat, done: S -> bool, s: S, t: S)
  {
    left(s) > 0 && (done(t) || (inv(t) && left(t) < left(s)))
  }

  lemma {:induction false} ComesInTime<S(!new)>(forced: (S, S) -> bool, busy: S -> bool, turn: (S, S) -> bool,
                                                done: S -> bool, inv: S -> bool, left: S -> nat, s: S, n: nat)
    requires forall x | inv(x) && !done(x) && busy(x) :: exists y :: forced(x, y)
    requires forall x, y | inv(x) && !done(x) && busy(x) && forced(x, y) :: Closer(inv, left, done, x, y)
    requires forall x | inv(x) && !done(x) && !busy(x) :: exists y :: turn(x, y) && Closer(inv, left, done, x, y)
    requires (done(s) || inv(s)) && left(s) <= n
    ensures Comes(forced, busy, turn, done, s, n)
    decreases n
  {
    if done(s) {
    } else if busy(s) {
      var y :| forced(s, y);
      assert Closer(inv, left, done, s, y);
      forall t | forced(s, t)
        ensures Comes(forced, busy, turn, done, t, n - 1)
      {
        assert Closer(inv, left, done, s, t);
        if !done(t) {
          ComesInTime(forced, busy, turn, done, inv, left, t, n - 1);
        }
      }
    } else {
      var t :| turn(s, t) && Closer(inv, left, done, s, t);
      if !done(t) {
        ComesInTime(forced, busy, turn, done, inv, left, t, n - 1);
      }
    }
  }
}
