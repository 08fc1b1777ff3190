/** The store of 1:1 bindings between herdr workspaces and sandboxes. */
module Bindings {
  import opened Options
  import opened Text

  datatype Binding = Binding(spaceLabel: string, workspaceID: string, handle: string, sandboxID: string,
                             guestPaneID: string, repoRoot: string, worktreeManaged: bool)

  /** A binding the worktree flow made; older ones are known by their handle only. */
  predicate IsWorktreeManaged(b: Binding)
  {
    b.worktreeManaged || HasPrefix(b.handle, "wt/")
  }

  predicate Conflicts(a: Binding, b: Binding)
  {
    a.spaceLabel == b.spaceLabel || a.handle == b.handle
  }

  predicate Unique(s: seq<Binding>)
  {
    forall i, j | 0 <= i < j < |s| :: !Conflicts(s[i], s[j])
  }

  // ----- what the operations compute -----

  function NonConflicting(s: seq<Binding>, b: Binding): seq<Binding>
  {
    if s == [] then []
    else
      var last := s[|s| - 1];
      NonConflicting(s[..|s| - 1], b) + if Conflicts(last, b) then [] else [last]
  }

  function Inserted(s: seq<Binding>, b: Binding): seq<Binding>
  {
    NonConflicting(s, b) + [b]
  }

  function Without(s: seq<Binding>, spaceLabel: string): seq<Binding>
  {
    if s == [] then []
    else
      var last := s[|s| - 1];
      Without(s[..|s| - 1], spaceLabel) + if last.spaceLabel == spaceLabel then [] else [last]
  }

  function ByLabel(s: seq<Binding>, spaceLabel: string): Option<Binding>
  {
    if s == [] then None else if s[0].spaceLabel == spaceLabel then Some(s[0]) else ByLabel(s[1..], spaceLabel)
  }

  function ByHandle(s: seq<Binding>, handle: string): Option<Binding>
  {
    if s == [] then None else if s[0].handle == handle then Some(s[0]) else ByHandle(s[1..], handle)
  }

  function Filled(b: Binding, roots: map<string, string>): Binding
  {
    if b.repoRoot == "" && b.workspaceID != "" && b.workspaceID in roots
    then b.(repoRoot := roots[b.workspaceID]) else b
  }

  function Backfilled(s: seq<Binding>, roots: map<string, string>): seq<Binding>
  {
    seq(|s|, i requires 0 <= i < |s| => Filled(s[i], roots))
  }

  function Changes(s: seq<Binding>, roots: map<string, string>): nat
  {
    if s == [] then 0
    else Changes(s[..|s| - 1], roots) + if Filled(s[|s| - 1], roots) != s[|s| - 1] then 1 else 0
  }

  function Cleared(b: Binding): Binding
  {
    b.(workspaceID := "")
  }

  /** The loop of a backfill over the list as it was read. */
  method FillRoots(s: seq<Binding>, roots: map<string, string>) returns (filled: seq<Binding>, changed: nat)
    ensures filled == Backfilled(s, roots) && changed == Changes(s, roots)
    ensures changed == 0 ==> filled == s
  {
    filled, changed := [], 0;
    for i := 0 to |s|
      invariant filled == Backfilled(s[..i], roots)
      invariant changed == Changes(s[..i], roots)
      invariant changed == 0 ==> filled == s[..i]
    {
      var b := s[i];
      assert s[..i + 1][..i] == s[..i];
      if b.repoRoot == "" && b.workspaceID != "" && b.workspaceID in roots && roots[b.workspaceID] != "" {
        b := b.(repoRoot := roots[b.workspaceID]);
        changed := changed + 1;
      }
      filled := filled + [b];
    }
    assert s[..|s|] == s;
  }

  lemma BackfilledIsUnique(s: seq<Binding>, roots: map<string, string>)
    requires Unique(s)
    ensures Unique(Backfilled(s, roots))
  {
  }

  datatype Status = Done | NotFound | Failed

  /**
    The bindings file under its lock. Every operation reads the whole list and replaces it
    atomically; `fault` says whether locking, reading or writing fails, which changes nothing.
   */
  class Store {
    var bindings: seq<Binding>

    method Put(b: Binding, fault: bool) returns (status: Status)
      modifies this
      ensures status == if fault then Failed else Done
      ensures bindings == if fault then old(bindings) else Inserted(old(bindings), b)
      ensures Unique(old(bindings)) ==> Unique(bindings)
    {
      if fault {
        return Failed;
      }
      ghost var before := bindings;
      var filtered := [];
      for i := 0 to |bindings|
        invariant bindings == before && filtered == NonConflicting(bindings[..i], b)
      {
        assert bindings[..i + 1][..i] == bindings[..i];
        if bindings[i].spaceLabel == b.spaceLabel || bindings[i].handle == b.handle {
          continue;
        }
        filtered := filtered + [bindings[i]];
      }
      assert bindings[..|bindings|] == bindings;
      bindings := filtered + [b];
      if Unique(before) {
        InsertedIsUnique(before, b);
      }
      return Done;
    }

    method Delete(spaceLabel: string, fault: bool) returns (status: Status)
      modifies this
      ensures status == if fault then Failed else if ByLabel(old(bindings), spaceLabel).None? then NotFound else Done
      ensures bindings == if fault then old(bindings) else Without(old(bindings), spaceLabel)
      ensures Unique(old(bindings)) ==> Unique(bindings)
    {
      if fault {
        return Failed;
      }
      ghost var before := bindings;
      var filtered := [];
      for i := 0 to |bindings|
        invariant bindings == before && filtered == Without(bindings[..i], spaceLabel)
      {
        assert bindings[..i + 1][..i] == bindings[..i];
        if bindings[i].spaceLabel != spaceLabel {
          filtered := filtered + [bindings[i]];
        }
      }
      assert bindings[..|bindings|] == bindings;
      WithoutLength(bindings, spaceLabel);
      if Unique(before) {
        WithoutIsUnique(before, spaceLabel);
      }
      if |filtered| == |bindings| {
        return NotFound;
      }
      bindings := filtered;
      return Done;
    }

    /** `listed` is the parsed `herdr workspace list`, fetched before the lock; None is a failed fetch or parse. */
    method BackfillRepoRoot(listed: Option<map<string, string>>, fault: bool) returns (status: Status, changed: nat)
      modifies this
      ensures status == if listed.None? || fault then Failed else Done
      ensures bindings == if status.Failed? then old(bindings) else Backfilled(old(bindings), listed.value)
      ensures changed == if status.Failed? then 0 else Changes(old(bindings), listed.value)
      ensures Unique(old(bindings)) ==> Unique(bindings)
    {
      if listed.None? || fault {
        return Failed, 0;
      }
      var filled;
      filled, changed := FillRoots(bindings, listed.value);
      if Unique(bindings) {
        BackfilledIsUnique(bindings, listed.value);
      }
      if changed > 0 {
        bindings := filled;
      }
      return Done, changed;
    }

    /**
      Reads the binding without the lock, then puts it back cleared. `between` is what other
      processes do to the store in the meantime.
     */
    method ClearWorkspaceID(spaceLabel: string, between: seq<Step>, fault: bool) returns (status: Status)
      modifies this
      ensures status == if ByLabel(old(bindings), spaceLabel).None? then NotFound else if fault then Failed else Done
      ensures status.NotFound? ==> bindings == old(bindings)
      ensures status.Failed? ==> bindings == Run(old(bindings), between)
      ensures status.Done? ==>
                bindings == Inserted(Run(old(bindings), between), Cleared(ByLabel(old(bindings), spaceLabel).value))
      ensures Unique(old(bindings)) ==> Unique(bindings)
    {
      var b := GetByLabel(spaceLabel);
      if b.None? {
        return NotFound;
      }
      if Unique(bindings) {
        RunKeepsUnique(bindings, between);
      }
      bindings := Run(bindings, between);
      status := Put(Cleared(b.value), fault);
    }

    method GetByLabel(spaceLabel: string) returns (r: Option<Binding>)
      ensures r == ByLabel(bindings, spaceLabel)
    {
      for i := 0 to |bindings|
        invariant ByLabel(bindings, spaceLabel) == ByLabel(bindings[i..], spaceLabel)
      {
        if bindings[i].spaceLabel == spaceLabel {
          return Some(bindings[i]);
        }
      }
      return None;
    }

    method GetByHandle(handle: string) returns (r: Option<Binding>)
      ensures r == ByHandle(bindings, handle)
    {
      for i := 0 to |bindings|
        invariant ByHandle(bindings, handle) == ByHandle(bindings[i..], handle)
      {
        if bindings[i].handle == handle {
          return Some(bindings[i]);
        }
      }
      return None;
    }
  }

  // ----- membership -----

  lemma {:induction false} NonConflictingMembers(s: seq<Binding>, b: Binding, c: Binding)
    ensures c in NonConflicting(s, b) <==> c in s && !Conflicts(c, b)
  {
    if s != [] {
      NonConflictingMembers(s[..|s| - 1], b, c);
      assert s == s[..|s| - 1] + [s[|s| - 1]];
    }
  }

  lemma {:induction false} WithoutMembers(s: seq<Binding>, spaceLabel: string, c: Binding)
    ensures c in Without(s, spaceLabel) <==> c in s && c.spaceLabel != spaceLabel
  {
    if s != [] {
      WithoutMembers(s[..|s| - 1], spaceLabel, c);
      assert s == s[..|s| - 1] + [s[|s| - 1]];
    }
  }

  lemma {:induction false} WithoutLength(s: seq<Binding>, spaceLabel: string)
    ensures |Without(s, spaceLabel)| <= |s|
    ensures |Without(s, spaceLabel)| == |s| <==> ByLabel(s, spaceLabel).None?
    ensures |Without(s, spaceLabel)| == |s| ==> Without(s, spaceLabel) == s
  {
    if s != [] {
      WithoutLength(s[..|s| - 1], spaceLabel);
      ByLabelMember(s, spaceLabel);
      ByLabelMember(s[..|s| - 1], spaceLabel);
      assert s == s[..|s| - 1] + [s[|s| - 1]];
    }
  }

  lemma {:induction false} ByLabelMember(s: seq<Binding>, spaceLabel: string)
    ensures ByLabel(s, spaceLabel).Some? <==> exists i | 0 <= i < |s| :: s[i].spaceLabel == spaceLabel
    ensures ByLabel(s, spaceLabel).Some? ==>
              ByLabel(s, spaceLabel).value in s && ByLabel(s, spaceLabel).value.spaceLabel == spaceLabel
  {
    if s != [] {
      ByLabelMember(s[1..], spaceLabel);
      assert s == [s[0]] + s[1..];
      if i :| 0 <= i < |s| && s[i].spaceLabel == spaceLabel {
        if i > 0 {
          assert s[1..][i - 1].spaceLabel == spaceLabel;
        }
      }
    }
  }

  lemma UniqueByLabel(s: seq<Binding>, b: Binding)
    requires Unique(s) && b in s
    ensures ByLabel(s, b.spaceLabel) == Some(b)
  {
  }

  // ----- uniqueness over runs -----

  lemma {:induction false} NonConflictingIsUnique(s: seq<Binding>, b: Binding)
    requires Unique(s)
    ensures Unique(NonConflicting(s, b))
  {
    if s != [] {
      var front := s[..|s| - 1];
      NonConflictingIsUnique(front, b);
      forall i | 0 <= i < |NonConflicting(front, b)|
        ensures !Conflicts(NonConflicting(front, b)[i], s[|s| - 1])
      {
        NonConflictingMembers(front, b, NonConflicting(front, b)[i]);
      }
    }
  }

  lemma InsertedIsUnique(s: seq<Binding>, b: Binding)
    requires Unique(s)
    ensures Unique(Inserted(s, b))
  {
    NonConflictingIsUnique(s, b);
    forall i | 0 <= i < |NonConflicting(s, b)|
      ensures !Conflicts(NonConflicting(s, b)[i], b)
    {
      NonConflictingMembers(s, b, NonConflicting(s, b)[i]);
    }
  }

  lemma {:induction false} WithoutIsUnique(s: seq<Binding>, spaceLabel: string)
    requires Unique(s)
    ensures Unique(Without(s, spaceLabel))
  {
    if s != [] {
      var front := s[..|s| - 1];
      WithoutIsUnique(front, spaceLabel);
      forall i | 0 <= i < |Without(front, spaceLabel)|
        ensures !Conflicts(Without(front, spaceLabel)[i], s[|s| - 1])
      {
        WithoutMembers(front, spaceLabel, Without(front, spaceLabel)[i]);
      }
    }
  }

  /** One locked step. The second half of a clear is the Put of whatever was read before. */
  datatype Step = PutStep(b: Binding) | DeleteStep(spaceLabel: string) | BackfillStep(roots: map<string, string>)

  function Apply(s: seq<Binding>, step: Step): seq<Binding>
  {
    match step
    case PutStep(b) => Inserted(s, b)
    case DeleteStep(spaceLabel) => Without(s, spaceLabel)
    case BackfillStep(roots) => Backfilled(s, roots)
  }

  function Run(s: seq<Binding>, steps: seq<Step>): seq<Binding>
    decreases |steps|
  {
    if steps == [] then s else Run(Apply(s, steps[0]), steps[1..])
  }

  /** Labels and handles stay unique, whatever the processes do and in whatever order. */
  lemma {:induction false} RunKeepsUnique(s: seq<Binding>, steps: seq<Step>)
    requires Unique(s)
    ensures Unique(Run(s, steps))
    decreases |steps|
  {
    if steps != [] {
      match steps[0] {
        case PutStep(b) => InsertedIsUnique(s, b);
        case DeleteStep(spaceLabel) => WithoutIsUnique(s, spaceLabel);
        case BackfillStep(roots) =>
      }
      RunKeepsUnique(Apply(s, steps[0]), steps[1..]);
    }
  }

  // ----- Put -----

  /** A Put is read back under both keys. */
  lemma PutThenGet(s: seq<Binding>, b: Binding)
    ensures ByLabel(Inserted(s, b), b.spaceLabel) == Some(b) && ByHandle(Inserted(s, b), b.handle) == Some(b)
  {
    forall i | 0 <= i < |NonConflicting(s, b)|
      ensures !Conflicts(NonConflicting(s, b)[i], b)
    {
      NonConflictingMembers(s, b, NonConflicting(s, b)[i]);
    }
    GetLast(NonConflicting(s, b), b);
  }

  lemma {:induction false} GetLast(s: seq<Binding>, b: Binding)
    requires forall i | 0 <= i < |s| :: !Conflicts(s[i], b)
    ensures ByLabel(s + [b], b.spaceLabel) == Some(b) && ByHandle(s + [b], b.handle) == Some(b)
  {
    if s != [] {
      GetLast(s[1..], b);
      assert (s + [b])[1..] == s[1..] + [b];
    }
  }

  /** How many of the first bindings a Put of `b` keeps, which is where the next one lands. */
  function Kept(s: seq<Binding>, b: Binding): nat
  {
    |NonConflicting(s, b)|
  }

  /** Put keeps each non-conflicting binding, at a place that grows with the place it had. */
  lemma {:induction false} PutKeepsOrder(s: seq<Binding>, b: Binding, i: nat)
    requires i < |s| && !Conflicts(s[i], b)
    ensures Kept(s[..i], b) < Kept(s[..i + 1], b) <= Kept(s, b) < |Inserted(s, b)|
    ensures Inserted(s, b)[Kept(s[..i], b)] == s[i]
  {
    if i == |s| - 1 {
      assert s[..i + 1] == s;
    } else {
      var front := s[..|s| - 1];
      PutKeepsOrder(front, b, i);
      assert front[..i] == s[..i] && front[..i + 1] == s[..i + 1];
    }
  }

  // ----- Backfill -----

  /** Backfill only ever fills an empty repo root, never a key, and once is enough. */
  lemma BackfillIsSafe(s: seq<Binding>, roots: map<string, string>)
    ensures |Backfilled(s, roots)| == |s|
    ensures forall i | 0 <= i < |s| ::
              var b := Backfilled(s, roots)[i];
              && b == s[i].(repoRoot := b.repoRoot)
              && (b.repoRoot != s[i].repoRoot ==>
                    s[i].repoRoot == "" && s[i].workspaceID in roots && b.repoRoot == roots[s[i].workspaceID])
    ensures Backfilled(Backfilled(s, roots), roots) == Backfilled(s, roots)
    ensures Changes(Backfilled(s, roots), roots) == 0
  {
    NothingLeft(Backfilled(s, roots), roots);
  }

  lemma {:induction false} NothingLeft(s: seq<Binding>, roots: map<string, string>)
    requires forall i | 0 <= i < |s| :: Filled(s[i], roots) == s[i]
    ensures Changes(s, roots) == 0
  {
    if s != [] {
      NothingLeft(s[..|s| - 1], roots);
    }
  }

  // ----- clearing without the lock -----

  /** What a clear would do if the read were under the lock too. */
  function ClearedIn(s: seq<Binding>, spaceLabel: string): seq<Binding>
  {
    var b := ByLabel(s, spaceLabel);
    if b.None? then s else Inserted(s, Cleared(b.value))
  }

  /**
    A clear that read `b` and puts it back into `now` is an atomic clear exactly when the stored
    binding still is `b`, up to the workspace ID.
   */
  lemma ClearIsAtomicIff(now: seq<Binding>, b: Binding)
    ensures Inserted(now, Cleared(b)) == ClearedIn(now, b.spaceLabel)
       <==> ByLabel(now, b.spaceLabel).Some? && Cleared(ByLabel(now, b.spaceLabel).value) == Cleared(b)
  {
    var c := ByLabel(now, b.spaceLabel);
    var put := Inserted(now, Cleared(b));
    assert put[|put| - 1] == Cleared(b);
    if c.None? {
      ByLabelMember(now, b.spaceLabel);
      assert forall i | 0 <= i < |now| :: now[i] != Cleared(b);
    } else {
      var atomic := Inserted(now, Cleared(c.value));
      assert atomic[|atomic| - 1] == Cleared(c.value);
    }
  }

  /** So a backfill between the read and the write of a clear is lost. */
  lemma ClearLosesBackfill(b: Binding, root: string)
    requires b.repoRoot == "" && b.workspaceID != "" && root != ""
    ensures
      var now := Apply([b], BackfillStep(map[b.workspaceID := root]));
      && ByLabel(now, b.spaceLabel).Some? && ByLabel(now, b.spaceLabel).value.repoRoot == root
      && Apply(now, PutStep(Cleared(b))) == [Cleared(b)] && Cleared(b).repoRoot == ""
  {
    var now := Backfilled([b], map[b.workspaceID := root]);
    assert now == [b.(repoRoot := root)];
    assert now[..0] == [];
    assert NonConflicting(now, Cleared(b)) == [];
  }
}
