/** The session registry and its retention sweep. */
module SessionTable {

  /** Five minutes, in nanoseconds. */
  const SESSION_RETENTION_TTL: int := 300_000_000_000

  /** 64 MiB. */
  const SESSION_RETENTION_BUDGET: nat := 67_108_864

  /** A session as the sweep sees it; `exitedAt` is meaningful once `exited` is set. */
  datatype Session = Session(id: string, pid: int, ringCap: nat, exited: bool, exitedAt: int)

  // ----- ring bytes -----

  function TotalCap(q: seq<Session>): nat
  {
    if q == [] then 0 else q[0].ringCap + TotalCap(q[1..])
  }

  lemma {:induction false} TotalCapConcat(q: seq<Session>, r: seq<Session>)
    ensures TotalCap(q + r) == TotalCap(q) + TotalCap(r)
  {
    if q == [] {
      assert q + r == r;
    } else {
      assert (q + r)[1..] == q[1..] + r;
      TotalCapConcat(q[1..], r);
    }
  }

  lemma {:induction false} TotalCapWithout(r: seq<Session>, i: nat)
    requires i < |r|
    ensures TotalCap(r) == r[i].ringCap + TotalCap(r[..i] + r[i + 1..])
  {
    if i == 0 {
      assert r[..0] + r[1..] == r[1..];
    } else {
      TotalCapWithout(r[1..], i - 1);
      assert (r[..i] + r[i + 1..])[1..] == r[1..][..i - 1] + r[1..][i..];
    }
  }

  predicate Distinct(q: seq<Session>)
  {
    forall i, k | 0 <= i < k < |q| :: q[i] != q[k]
  }

  ghost function Elements(q: seq<Session>): set<Session>
  {
    set s | s in q
  }

  lemma {:induction false} DistinctMultiset(q: seq<Session>)
    requires Distinct(q)
    ensures multiset(q) == multiset(Elements(q))
  {
    if q != [] {
      var front, last := q[..|q| - 1], q[|q| - 1];
      assert q == front + [last];
      DistinctMultiset(front);
      assert Elements(q) == Elements(front) + {last};
    }
  }

  lemma SomeElement(r: seq<Session>)
    ensures r == [] <==> Elements(r) == {}
  {
    if r != [] {
      assert r[0] in Elements(r);
    }
  }

  lemma RemoveOne(r: seq<Session>, i: nat)
    requires i < |r| && Distinct(r)
    ensures var rest := r[..i] + r[i + 1..]; Distinct(rest) && Elements(rest) == Elements(r) - {r[i]}
  {
    var rest := r[..i] + r[i + 1..];
    assert forall k | 0 <= k < |rest| :: rest[k] == r[if k < i then k else k + 1];
    forall s
      ensures s in rest <==> s in r && s != r[i]
    {
      if s in r && s != r[i] {
        var k :| 0 <= k < |r| && r[k] == s;
        assert rest[if k < i then k else k - 1] == s;
      }
    }
  }

  lemma NextElement(q: seq<Session>, i: nat)
    requires i < |q| && Distinct(q)
    ensures q[i] in Elements(q) && q[i] !in Elements(q[..i])
    ensures Elements(q[..i + 1]) == Elements(q[..i]) + {q[i]} && TotalCap(q[i..]) == q[i].ringCap + TotalCap(q[i + 1..])
  {
    assert q[..i + 1] == q[..i] + [q[i]];
    assert q[i..][1..] == q[i + 1..];
  }

  /** Two enumerations of the same sessions hold the same number of ring bytes. */
  lemma {:induction false} SameSessionsSameBytes(q: seq<Session>, r: seq<Session>)
    requires Distinct(q) && Distinct(r) && Elements(q) == Elements(r)
    ensures TotalCap(q) == TotalCap(r)
    decreases |q|
  {
    if q == [] {
      SomeElement(r);
    } else {
      assert q[0] in Elements(r);
      var i :| 0 <= i < |r| && r[i] == q[0];
      TotalCapWithout(r, i);
      RemoveOne(r, i);
      RemoveOne(q, 0);
      assert q[..0] + q[1..] == q[1..];
      SameSessionsSameBytes(q[1..], r[..i] + r[i + 1..]);
    }
  }

  // ----- what a sweep has to leave behind -----

  predicate Expired(s: Session, now: int)
  {
    s.exited && now - s.exitedAt >= SESSION_RETENTION_TTL
  }

  ghost function ExitedAmong(sessions: set<Session>): set<Session>
  {
    set s | s in sessions && s.exited
  }

  /** `q` lists the exited sessions of a table, each once. */
  ghost predicate Lists(q: seq<Session>, sessions: set<Session>)
  {
    Distinct(q) && Elements(q) == ExitedAmong(sessions)
  }

  /**
    The retention promise: running sessions stay, expired ones go, the ring bytes of the exited
    ones that stay fit the budget, and what else went was the oldest, and no more than needed.
   */
  ghost predicate Swept(before: set<Session>, after: set<Session>, now: int)
  {
    && after <= before
    && (forall s | s in before && !s.exited :: s in after)
    && (forall s | s in after && s.exited :: now - s.exitedAt < SESSION_RETENTION_TTL)
    && (forall q | Lists(q, after) :: TotalCap(q) <= SESSION_RETENTION_BUDGET)
    && (forall e, r | e in before - after && !Expired(e, now) && r in ExitedAmong(after) :: e.exitedAt <= r.exitedAt)
    && Minimal(before, after, now)
  }

  /** Keeping the youngest of the sessions evicted for the budget would have exceeded it. */
  ghost predicate Minimal(before: set<Session>, after: set<Session>, now: int)
  {
    (exists e :: e in before - after && !Expired(e, now)) ==>
      exists e :: e in before - after && !Expired(e, now)
               && (forall x | x in before - after && !Expired(x, now) :: x.exitedAt <= e.exitedAt)
               && (forall q | Lists(q, after) :: TotalCap(q) + e.ringCap > SESSION_RETENTION_BUDGET)
  }

  method CapSum(q: seq<Session>) returns (total: nat)
    ensures total == TotalCap(q)
  {
    total := 0;
    for i := 0 to |q|
      invariant total == TotalCap(q[..i])
    {
      assert q[..i + 1] == q[..i] + [q[i]];
      TotalCapConcat(q[..i], [q[i]]);
      total := total + q[i].ringCap;
    }
    assert q[..|q|] == q;
  }

  // ----- slices.SortFunc by exit time -----

  predicate SortedByExit(q: seq<Session>)
  {
    forall i, k | 0 <= i < k < |q| :: q[i].exitedAt <= q[k].exitedAt
  }

  function Insert(r: seq<Session>, s: Session): seq<Session>
  {
    if r == [] || s.exitedAt < r[0].exitedAt then [s] + r else [r[0]] + Insert(r[1..], s)
  }

  lemma {:induction false} InsertCounts(r: seq<Session>, s: Session)
    ensures multiset(Insert(r, s)) == multiset(r) + multiset{s}
  {
    if r != [] && s.exitedAt >= r[0].exitedAt {
      InsertCounts(r[1..], s);
      assert r == [r[0]] + r[1..];
    } else {
      assert Insert(r, s) == [s] + r;
    }
  }

  lemma {:induction false} InsertMembers(r: seq<Session>, s: Session, x: Session)
    ensures x in Insert(r, s) ==> x == s || x in r
  {
    if r != [] && s.exitedAt >= r[0].exitedAt {
      InsertMembers(r[1..], s, x);
    }
  }

  lemma {:induction false} InsertSorts(r: seq<Session>, s: Session)
    requires SortedByExit(r)
    ensures SortedByExit(Insert(r, s))
  {
    if r != [] && s.exitedAt >= r[0].exitedAt {
      InsertSorts(r[1..], s);
      forall x | x in Insert(r[1..], s)
        ensures r[0].exitedAt <= x.exitedAt
      {
        InsertMembers(r[1..], s, x);
      }
    }
  }

  method SortByExit(q: seq<Session>) returns (r: seq<Session>)
    ensures SortedByExit(r) && multiset(r) == multiset(q)
  {
    r := [];
    for i := 0 to |q|
      invariant SortedByExit(r) && multiset(r) == multiset(q[..i])
    {
      InsertSorts(r, q[i]);
      InsertCounts(r, q[i]);
      assert q[..i + 1] == q[..i] + [q[i]];
      r := Insert(r, q[i]);
    }
    assert q[..|q|] == q;
  }

  // ----- the table -----

  class Table {
    var byID: map<string, Session>
    var byPID: map<int, Session>

    ghost function Sessions(): set<Session>
      reads this
    {
      byID.Values
    }

    /** byID and byPID describe the same sessions. */
    ghost predicate Valid()
      reads this
    {
      && (forall id | id in byID ::
            && byID[id].id == id
            && byID[id].pid in byPID && byPID[byID[id].pid] == byID[id])
      && (forall p | p in byPID ::
            && byPID[p].pid == p
            && byPID[p].id in byID && byID[byPID[p].id] == byPID[p])
    }

    constructor ()
      ensures Valid() && Sessions() == {}
    {
      byID, byPID := map[], map[];
    }

    /** Both deletes of an eviction. */
    method Evict(s: Session)
      requires Valid() && s in Sessions()
      modifies this
      ensures Valid() && Sessions() == old(Sessions()) - {s}
    {
      assert byID[s.id] == s;
      byID := byID - {s.id};
      byPID := byPID - {s.pid};
      forall x
        ensures x in Sessions() <==> x in old(Sessions()) && x != s
      {
        assert x in old(Sessions()) ==> old(byID)[x.id] == x;
        assert x in old(Sessions()) && x != s ==> byID[x.id] == x;
      }
    }

    /** Pass 1: the expired go; the other exited sessions are collected. */
    method EvictExpired(now: int) returns (retained: seq<Session>)
      requires Valid()
      modifies this
      ensures Valid()
      ensures Sessions() == set s | s in old(Sessions()) && !Expired(s, now)
      ensures Lists(retained, Sessions())
    {
      retained := [];
      var todo := byID.Values;
      while todo != {}
        invariant Valid() && todo <= old(Sessions())
        invariant Sessions() == set s | s in old(Sessions()) && (s in todo || !Expired(s, now))
        invariant Distinct(retained)
        invariant Elements(retained) == set s | s in old(Sessions()) && s !in todo && s.exited && !Expired(s, now)
        decreases todo
      {
        var s :| s in todo;
        todo := todo - {s};
        if s.exited {
          if now - s.exitedAt >= SESSION_RETENTION_TTL {
            Evict(s);
          } else {
            assert s !in Elements(retained);
            assert Elements(retained + [s]) == Elements(retained) + {s};
            retained := retained + [s];
          }
        }
      }
    }

    /** Pass 2: the oldest go until the rest fits. */
    method EvictOverBudget(retained: seq<Session>, now: int)
      requires Valid() && Lists(retained, Sessions()) && forall s | s in Sessions() :: !Expired(s, now)
      modifies this
      ensures Valid() && Swept(old(Sessions()), Sessions(), now)
    {
      var totalBytes := CapSum(retained);
      if totalBytes <= SESSION_RETENTION_BUDGET {
        FitsAsIs(retained, Sessions(), now);
        return;
      }
      var sorted := SortByExit(retained);
      SortKeeps(retained, sorted);
      var i := 0;
      while i < |sorted| && totalBytes > SESSION_RETENTION_BUDGET
        invariant 0 <= i <= |sorted|
        invariant Valid()
        invariant Sessions() == old(Sessions()) - Elements(sorted[..i])
        invariant totalBytes == TotalCap(sorted[i..])
        invariant i > 0 ==> TotalCap(sorted[i - 1..]) > SESSION_RETENTION_BUDGET
      {
        NextElement(sorted, i);
        Evict(sorted[i]);
        totalBytes := totalBytes - sorted[i].ringCap;
        i := i + 1;
      }
      OldestGone(sorted, i, old(Sessions()), now);
    }

    /** setExited, seen through both maps. */
    method MarkExited(id: string, now: int)
      requires Valid() && id in byID
      modifies this
      ensures Valid()
      ensures byID == old(byID)[id := old(byID)[id].(exited := true, exitedAt := now)]
    {
      var s := byID[id].(exited := true, exitedAt := now);
      byID := byID[id := s];
      byPID := byPID[s.pid := s];
    }

    /** sweepExited. */
    method SweepExited(now: int)
      requires Valid()
      modifies this
      ensures Valid() && Swept(old(Sessions()), Sessions(), now)
    {
      var retained := EvictExpired(now);
      ghost var unexpired := Sessions();
      EvictOverBudget(retained, now);
      SweptInTwo(old(Sessions()), unexpired, Sessions(), now);
    }

    /** add: fresh ID and PID, then a sweep. */
    method Add(s: Session, now: int)
      requires Valid() && s.id !in byID && s.pid !in byPID
      modifies this
      ensures Valid() && Swept(old(Sessions()) + {s}, Sessions(), now)
    {
      byID := byID[s.id := s];
      byPID := byPID[s.pid := s];
      assert byID[s.id] == s;
      assert forall t | t in old(Sessions()) :: byID[t.id] == t;
      assert Sessions() == old(Sessions()) + {s};
      SweepExited(now);
    }
  }

  /** Dropping the expired first does not change what the budget may evict. */
  lemma SweptInTwo(before: set<Session>, unexpired: set<Session>, after: set<Session>, now: int)
    requires unexpired == (set s | s in before && !Expired(s, now)) && Swept(unexpired, after, now)
    ensures Swept(before, after, now)
  {
  }

  lemma TwiceCounts(r: seq<Session>, i: nat, k: nat)
    requires i < k < |r| && r[i] == r[k]
    ensures multiset(r)[r[k]] >= 2
  {
    assert r[..k][i] == r[k];
    assert r == r[..k] + ([r[k]] + r[k + 1..]);
  }

  lemma SortKeeps(q: seq<Session>, r: seq<Session>)
    requires multiset(q) == multiset(r) && Distinct(q)
    ensures Distinct(r) && Elements(r) == Elements(q) && TotalCap(r) == TotalCap(q)
  {
    DistinctMultiset(q);
    forall i: nat, k: nat | i < k < |r|
      ensures r[i] != r[k]
    {
      if r[i] == r[k] {
        TwiceCounts(r, i, k);
      }
    }
    forall s
      ensures s in Elements(r) <==> s in Elements(q)
    {
      assert s in multiset(r) <==> s in multiset(q);
    }
    SameSessionsSameBytes(q, r);
  }

  /** Nothing is evicted when everything fits. */
  lemma {:induction false} FitsAsIs(retained: seq<Session>, sessions: set<Session>, now: int)
    requires Lists(retained, sessions) && TotalCap(retained) <= SESSION_RETENTION_BUDGET
    requires forall s | s in sessions :: !Expired(s, now)
    ensures Swept(sessions, sessions, now)
  {
    forall q | Lists(q, sessions)
      ensures TotalCap(q) <= SESSION_RETENTION_BUDGET
    {
      SameSessionsSameBytes(q, retained);
    }
  }

  /** The first `n` of the sorted exited sessions gone: oldest, enough, and no more than needed. */
  lemma {:induction false} OldestGone(sorted: seq<Session>, n: nat, before: set<Session>, now: int)
    requires Lists(sorted, before) && SortedByExit(sorted) && n <= |sorted|
    requires forall s | s in before :: !Expired(s, now)
    requires n < |sorted| ==> TotalCap(sorted[n..]) <= SESSION_RETENTION_BUDGET
    requires n > 0 ==> TotalCap(sorted[n - 1..]) > SESSION_RETENTION_BUDGET
    ensures Swept(before, before - Elements(sorted[..n]), now)
  {
    var after := before - Elements(sorted[..n]);
    SplitElements(sorted, n);
    assert ExitedAmong(after) == Elements(sorted[n..]);
    forall q | Lists(q, after)
      ensures TotalCap(q) == TotalCap(sorted[n..])
    {
      SameSessionsSameBytes(q, sorted[n..]);
    }
    forall e, r | e in before - after && r in ExitedAmong(after)
      ensures e.exitedAt <= r.exitedAt
    {
      InOrder(sorted, n, e, r);
    }
    if n > 0 {
      LastGone(sorted, n, before, now);
    }
  }

  lemma SplitElements(q: seq<Session>, n: nat)
    requires Distinct(q) && n <= |q|
    ensures Distinct(q[n..])
    ensures Elements(q[..n]) !! Elements(q[n..]) && Elements(q[..n]) + Elements(q[n..]) == Elements(q)
  {
  }

  lemma InOrder(sorted: seq<Session>, n: nat, e: Session, r: Session)
    requires SortedByExit(sorted) && n <= |sorted| && e in sorted[..n] && r in sorted[n..]
    ensures e.exitedAt <= r.exitedAt
  {
  }

  lemma {:induction false} LastGone(sorted: seq<Session>, n: nat, before: set<Session>, now: int)
    requires Lists(sorted, before) && SortedByExit(sorted) && 0 < n <= |sorted|
    requires forall s | s in before :: !Expired(s, now)
    requires TotalCap(sorted[n - 1..]) > SESSION_RETENTION_BUDGET
    requires forall q | Lists(q, before - Elements(sorted[..n])) :: TotalCap(q) == TotalCap(sorted[n..])
    ensures Minimal(before, before - Elements(sorted[..n]), now)
  {
    var after := before - Elements(sorted[..n]);
    var e := sorted[n - 1];
    assert e == sorted[..n][n - 1] && e in Elements(sorted);
    assert e in before - after;
    assert sorted[n - 1..][1..] == sorted[n..];
    forall x | x in before - after
      ensures x.exitedAt <= e.exitedAt
    {
      var i :| 0 <= i < n && sorted[..n][i] == x;
    }
  }
}
