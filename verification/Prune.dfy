/**
  space-prune: a destructive reconciler in two passes. The first is indexed by bindings; the second
  sweeps sandboxes no binding knows. Every ambiguity must resolve to keeping the sandbox.
 */
module Prune {
  import opened Bindings
  import opened Options
  import opened Sandboxes
  import opened Text

  datatype Listing<T> = Unavailable | Listed(items: seq<T>)

  /** A live herdr workspace; `title` is its label. */
  datatype Workspace = Workspace(id: string, title: string, checkout: string)

  /** The file-system probes and path functions the sweep relies on. */
  datatype Files = Files(isCommonDir: string -> bool, absent: string -> bool, clean: string -> string,
                         dir: string -> string)

  /** What a run does to the outside world, when it succeeds. */
  datatype Event = Removed(handle: string) | Closed(workspaceID: string) | VolumesRemoved(handle: string)

  // ----- the liveness predicates: what cannot be told counts as alive -----

  predicate ValidHandle(handle: string)
  {
    var parts := SplitN(handle, '/', 2);
    |parts| == 2 && parts[0] != "" && parts[1] != ""
  }

  predicate Named(sb: Sandbox)
  {
    sb.project != "" && sb.name != ""
  }

  predicate SandboxExists(l: Listing<Sandbox>, b: Binding)
  {
    || l.Unavailable?
    || !ValidHandle(b.handle)
    || exists sb | sb in l.items :: Named(sb) && Handle(sb) == b.handle
  }

  /** Unreadable, or nothing in it carries an ID: not understood. */
  predicate Blank(l: Listing<Workspace>)
  {
    l.Unavailable? || forall w | w in l.items :: w.id == ""
  }

  predicate WorkspaceExists(l: Listing<Workspace>, b: Binding)
  {
    || Blank(l)
    || b.workspaceID == ""
    || exists w | w in l.items :: w.id == b.workspaceID
  }

  /** What pass one goes by. In scoped mode the workspace is taken as gone. */
  datatype View = View(sandboxes: Listing<Sandbox>, workspaces: Listing<Workspace>, scoped: bool)

  predicate SandboxPresent(v: View, b: Binding)
  {
    SandboxExists(v.sandboxes, b)
  }

  predicate WorkspacePresent(v: View, b: Binding)
  {
    !v.scoped && WorkspaceExists(v.workspaces, b)
  }

  predicate Stale(v: View, b: Binding)
  {
    !SandboxPresent(v, b) || !WorkspacePresent(v, b)
  }

  /** Worktree VM still there, workspace gone. */
  predicate Reaps(v: View, b: Binding)
  {
    IsWorktreeManaged(b) && SandboxPresent(v, b) && !WorkspacePresent(v, b)
  }

  /** Any other VM still there, workspace gone: only the workspace ID goes. */
  predicate Clears(v: View, b: Binding)
  {
    !IsWorktreeManaged(b) && SandboxPresent(v, b) && !WorkspacePresent(v, b)
  }

  // ----- the same, said without them -----

  /** Something on either side of the first slash. */
  predicate SlashSplits(handle: string)
  {
    exists i | 0 < i < |handle| - 1 :: handle[i] == '/' && '/' !in handle[..i]
  }

  lemma ValidHandleIff(handle: string)
    ensures ValidHandle(handle) <==> SlashSplits(handle)
  {
    if '/' in handle {
      var i := FirstSlash(handle);
      CutAt(handle, i);
      if SlashSplits(handle) {
        var k :| 0 < k < |handle| - 1 && handle[k] == '/' && '/' !in handle[..k];
        CutAt(handle, k);
      }
    } else {
      SplitNFree(handle, '/', 2);
    }
  }

  lemma CutAt(s: string, i: nat)
    requires i < |s| && s[i] == '/' && '/' !in s[..i]
    ensures SplitN(s, '/', 2) == [s[..i], s[i + 1..]]
  {
    assert s == s[..i] + ['/'] + s[i + 1..];
    SplitNCut(s[..i], '/', s[i + 1..], 2);
  }

  lemma {:induction false} FirstSlash(s: string) returns (i: nat)
    requires '/' in s
    ensures i < |s| && s[i] == '/' && '/' !in s[..i]
  {
    if s[0] == '/' {
      i := 0;
    } else {
      i := FirstSlash(s[1..]);
      i := i + 1;
      assert s[..i] == [s[0]] + s[1..][..i - 1];
    }
  }

  /** The sandbox is listed, or it cannot be told. */
  predicate MayExist(v: View, b: Binding)
  {
    || v.sandboxes.Unavailable? || !SlashSplits(b.handle)
    || exists sb | sb in v.sandboxes.items ::
         sb.project != "" && sb.name != "" && sb.project + "/" + sb.name == b.handle
  }

  /** The workspace is known to be gone: it is the one being closed, or a list with IDs in it lacks its. */
  predicate IsGone(v: View, b: Binding)
  {
    || v.scoped
    || (&& v.workspaces.Listed? && b.workspaceID != "" && (exists w | w in v.workspaces.items :: w.id != "")
        && forall w | w in v.workspaces.items :: w.id != b.workspaceID)
  }

  /** What becomes of a binding, exactly. */
  lemma FateIff(v: View, b: Binding)
    ensures Stale(v, b) <==> !MayExist(v, b) || IsGone(v, b)
    ensures Reaps(v, b) <==> (b.worktreeManaged || HasPrefix(b.handle, "wt/")) && MayExist(v, b) && IsGone(v, b)
    ensures Clears(v, b) <==> !b.worktreeManaged && !HasPrefix(b.handle, "wt/") && MayExist(v, b) && IsGone(v, b)
  {
    ValidHandleIff(b.handle);
  }

  // ----- the outside world -----

  /** Calls that may fail; `oracle` decides each, in the order they are made. */
  class Host {
    var log: seq<Event>
    var clock: nat
    const oracle: nat -> bool

    constructor (oracle: nat -> bool)
      ensures log == [] && clock == 0 && this.oracle == oracle
    {
      log, clock := [], 0;
      this.oracle := oracle;
    }

    /** None of the calls from number `a` on, up to number `b`, fails. */
    ghost predicate Smooth(a: nat, b: nat)
    {
      forall n: nat | a <= n < b :: !oracle(n)
    }

    lemma SmoothParts(a: nat, b: nat, c: nat)
      requires a <= b <= c
      ensures Smooth(a, c) <==> Smooth(a, b) && Smooth(b, c)
    {
    }

    method Fault() returns (fault: bool)
      modifies this`clock
      ensures clock == old(clock) + 1 && fault == oracle(old(clock))
    {
      fault := oracle(clock);
      clock := clock + 1;
    }

    method Attempt(e: Event) returns (ok: bool)
      modifies this
      ensures log == if ok then old(log) + [e] else old(log)
      ensures clock == old(clock) + 1 && ok == !oracle(old(clock))
    {
      var fault := Fault();
      ok := !fault;
      if ok {
        log := log + [e];
      }
    }

    /** Closing a workspace without an ID is a successful no-op. */
    method Close(workspaceID: string) returns (ok: bool)
      modifies this
      ensures log == if ok && workspaceID != "" then old(log) + [Closed(workspaceID)] else old(log)
      ensures old(clock) <= clock && ok == Smooth(old(clock), clock)
    {
      if workspaceID == "" {
        return true;
      }
      ok := Attempt(Closed(workspaceID));
    }
  }

  // ----- pass one, one binding -----

  datatype Outcome = Retained | ClearedID | Deleted

  /** The events a stale binding may cause. */
  predicate Caused(v: View, b: Binding, e: Event)
  {
    match e
    case Removed(handle) => handle == b.handle && Reaps(v, b)
    case Closed(workspaceID) => workspaceID == b.workspaceID && !Clears(v, b)
    case VolumesRemoved(handle) => handle == b.handle && IsWorktreeManaged(b) && !WorkspacePresent(v, b)
  }

  /** What must have happened before a binding goes. */
  predicate Settled(v: View, b: Binding, events: seq<Event>)
  {
    && !Clears(v, b)
    && (b.workspaceID != "" ==> Closed(b.workspaceID) in events)
    && (Reaps(v, b) ==> Removed(b.handle) in events)
  }

  ghost predicate Replaced(before: seq<Binding>, after: seq<Binding>, b: Binding, c: Binding)
  {
    forall x :: x in after <==> (x in before && x != b) || x == c
  }

  ghost predicate Dropped(before: seq<Binding>, after: seq<Binding>, b: Binding)
  {
    forall x :: x in after <==> x in before && x != b
  }

  lemma ClearReplaces(s: seq<Binding>, b: Binding)
    requires Unique(s) && b in s
    ensures Replaced(s, Inserted(s, Cleared(b)), b, Cleared(b))
  {
    forall x
      ensures x in Inserted(s, Cleared(b)) <==> (x in s && x != b) || x == Cleared(b)
    {
      NonConflictingMembers(s, Cleared(b), x);
      OnlyConflict(s, b, x);
    }
  }

  lemma OnlyConflict(s: seq<Binding>, b: Binding, x: Binding)
    requires Unique(s) && b in s
    ensures x in s ==> (Conflicts(x, b) <==> x == b)
    ensures x in s ==> (x.spaceLabel == b.spaceLabel <==> x == b)
  {
  }

  lemma DeleteDrops(s: seq<Binding>, b: Binding)
    requires Unique(s) && b in s
    ensures Dropped(s, Without(s, b.spaceLabel), b)
  {
    forall x
      ensures x in Without(s, b.spaceLabel) <==> x in s && x != b
    {
      WithoutMembers(s, b.spaceLabel, x);
      OnlyConflict(s, b, x);
    }
  }

  /** What is done for a stale binding when no call fails, in order. */
  function Settling(v: View, b: Binding): seq<Event>
  {
    if Clears(v, b) then []
    else Duties(b, Reaps(v, b), IsWorktreeManaged(b) && !WorkspacePresent(v, b))
  }

  function Duties(b: Binding, reap: bool, volumes: bool): seq<Event>
  {
    (if reap then [Removed(b.handle)] else []) + (if volumes then [VolumesRemoved(b.handle)] else [])
    + (if b.workspaceID != "" then [Closed(b.workspaceID)] else [])
  }

  /** Whatever a stale binding may cause is done for it, but for a close without an ID. */
  lemma SettlingIff(v: View, b: Binding, e: Event)
    requires Stale(v, b)
    ensures e in Settling(v, b) <==> Caused(v, b, e) && e != Closed("")
  {
  }

  /** The steps before a binding may go: reap, remove volumes, close; nothing more once one fails. */
  method Settle(host: Host, b: Binding, reap: bool, volumes: bool) returns (ok: bool, ghost events: seq<Event>)
    modifies host
    ensures host.log == old(host.log) + events
    ensures forall e | e in events ::
              || (reap && e == Removed(b.handle)) || (volumes && e == VolumesRemoved(b.handle))
              || e == Closed(b.workspaceID)
    ensures reap && events != [] ==> events[0] == Removed(b.handle)
    ensures ok ==> (b.workspaceID != "" ==> Closed(b.workspaceID) in events) && (reap ==> Removed(b.handle) in events)
    ensures old(host.clock) <= host.clock
    ensures host.Smooth(old(host.clock), host.clock) ==> ok && events == Duties(b, reap, volumes)
  {
    events := [];
    if reap {
      var removed := host.Attempt(Removed(b.handle));
      if !removed {
        return false, events;
      }
      events := [Removed(b.handle)];
    }
    if volumes {
      // Best effort: a failure never retains the binding.
      var done := host.Attempt(VolumesRemoved(b.handle));
      events := events + if done then [VolumesRemoved(b.handle)] else [];
    }
    ok := host.Close(b.workspaceID);
    events := events + if ok && b.workspaceID != "" then [Closed(b.workspaceID)] else [];
  }

  method Reconcile(store: Store, host: Host, v: View, b: Binding) returns (outcome: Outcome, ghost events: seq<Event>)
    requires Unique(store.bindings) && b in store.bindings && Stale(v, b)
    modifies store, host
    ensures Unique(store.bindings)
    ensures host.log == old(host.log) + events && forall e | e in events :: Caused(v, b, e)
    ensures Reaps(v, b) && events != [] ==> events[0] == Removed(b.handle)
    ensures outcome.Retained? ==> store.bindings == old(store.bindings)
    ensures outcome.ClearedID? ==> Clears(v, b) && Replaced(old(store.bindings), store.bindings, b, Cleared(b))
    ensures outcome.Deleted? ==> Settled(v, b, events) && Dropped(old(store.bindings), store.bindings, b)
    ensures old(host.clock) <= host.clock
    ensures host.Smooth(old(host.clock), host.clock) ==>
              events == Settling(v, b) && outcome == if Clears(v, b) then ClearedID else Deleted
  {
    events := [];
    if Clears(v, b) {
      var fault := host.Fault();
      UniqueByLabel(store.bindings, b);
      ClearReplaces(store.bindings, b);
      var status := store.ClearWorkspaceID(b.spaceLabel, [], fault);
      outcome := if status.Done? then ClearedID else Retained;
    } else {
      var settled;
      ghost var clock := host.clock;
      settled, events := Settle(host, b, Reaps(v, b), IsWorktreeManaged(b) && !WorkspacePresent(v, b));
      if !settled {
        return Retained, events;
      }
      ghost var middle := host.clock;
      var deleted := Drop(store, host, b);
      outcome := if deleted then Deleted else Retained;
      host.SmoothParts(clock, middle, host.clock);
    }
  }

  /** The binding goes, unless its deletion fails. */
  method Drop(store: Store, host: Host, b: Binding) returns (deleted: bool)
    requires Unique(store.bindings) && b in store.bindings
    modifies store, host`clock
    ensures Unique(store.bindings)
    ensures if deleted then Dropped(old(store.bindings), store.bindings, b) else store.bindings == old(store.bindings)
    ensures old(host.clock) <= host.clock && (host.Smooth(old(host.clock), host.clock) ==> deleted)
  {
    var fault := host.Fault();
    UniqueByLabel(store.bindings, b);
    DeleteDrops(store.bindings, b);
    var status := store.Delete(b.spaceLabel, fault);
    deleted := !status.Failed?;
  }

  // ----- pass one, all bindings -----

  function StaleOf(v: View, s: seq<Binding>): seq<Binding>
  {
    if s == [] then []
    else StaleOf(v, s[..|s| - 1]) + if Stale(v, s[|s| - 1]) then [s[|s| - 1]] else []
  }

  lemma {:induction false} StaleMembers(v: View, s: seq<Binding>, b: Binding)
    ensures b in StaleOf(v, s) <==> b in s && Stale(v, b)
  {
    if s != [] {
      StaleMembers(v, s[..|s| - 1], b);
      assert s == s[..|s| - 1] + [s[|s| - 1]];
    }
  }

  lemma {:induction false} StaleIsUnique(v: View, s: seq<Binding>)
    requires Unique(s)
    ensures Unique(StaleOf(v, s))
  {
    if s != [] {
      var front := s[..|s| - 1];
      StaleIsUnique(v, front);
      forall i | 0 <= i < |StaleOf(v, front)|
        ensures !Conflicts(StaleOf(v, front)[i], s[|s| - 1])
      {
        StaleMembers(v, front, StaleOf(v, front)[i]);
      }
    }
  }

  /** How many of `s` are no longer, unchanged, in `now`. */
  function CountGone(s: seq<Binding>, now: seq<Binding>): nat
  {
    if s == [] then 0 else CountGone(s[..|s| - 1], now) + if s[|s| - 1] in now then 0 else 1
  }

  lemma {:induction false} CountGoneSame(s: seq<Binding>, a: seq<Binding>, b: seq<Binding>)
    requires forall x | x in s :: x in a <==> x in b
    ensures CountGone(s, a) == CountGone(s, b)
  {
    if s != [] {
      CountGoneSame(s[..|s| - 1], a, b);
    }
  }

  lemma {:induction false} CountGoneStale(v: View, s: seq<Binding>, now: seq<Binding>)
    requires forall x | x in s && !Stale(v, x) :: x in now
    ensures CountGone(StaleOf(v, s), now) == CountGone(s, now)
  {
    if s != [] {
      var front := s[..|s| - 1];
      CountGoneStale(v, front, now);
      if Stale(v, s[|s| - 1]) {
        assert StaleOf(v, s)[..|StaleOf(v, s)| - 1] == StaleOf(v, front);
      } else {
        assert StaleOf(v, s) == StaleOf(v, front);
        assert s[|s| - 1] in now;
      }
    }
  }

  /** The fate of a binding: untouched, its workspace ID cleared, or settled and gone. */
  predicate Accounted(v: View, b: Binding, now: seq<Binding>, events: seq<Event>)
  {
    || b in now
    || (Clears(v, b) && Cleared(b) in now)
    || (Stale(v, b) && Settled(v, b, events))
  }

  ghost predicate AllCaused(v: View, s: seq<Binding>, events: seq<Event>)
  {
    forall e | e in events :: exists b :: b in s && Stale(v, b) && Caused(v, b, e)
  }

  ghost predicate AllAccounted(v: View, s: seq<Binding>, now: seq<Binding>, events: seq<Event>)
  {
    forall b | b in s :: Accounted(v, b, now, events)
  }

  /** Nothing appears that was not there, but for cleared workspace IDs. */
  ghost predicate NothingNew(v: View, s: seq<Binding>, before: seq<Binding>, now: seq<Binding>)
  {
    forall x | x in now :: x in before || exists b :: b in s && Clears(v, b) && x == Cleared(b)
  }

  /** The state of the loop after the stale bindings `done`. */
  ghost predicate Progress(v: View, done: seq<Binding>, before: seq<Binding>, now: seq<Binding>,
                           events: seq<Event>, count: nat)
  {
    && Unique(now)
    && AllCaused(v, done, events)
    && AllAccounted(v, done, now, events)
    && NothingNew(v, done, before, now)
    && (forall x | x in before && x !in done :: x in now)
    && count == CountGone(done, now)
  }

  lemma ProgressRetained(v: View, done: seq<Binding>, b: Binding, before: seq<Binding>, now: seq<Binding>,
                         events: seq<Event>, more: seq<Event>, count: nat)
    requires Progress(v, done, before, now, events, count)
    requires b in now && Stale(v, b) && forall e | e in more :: Caused(v, b, e)
    ensures Progress(v, done + [b], before, now, events + more, count)
  {
  }

  /** The steps that change the store, from what they do to its members. */
  lemma ProgressChanged(v: View, done: seq<Binding>, b: Binding, before: seq<Binding>, now: seq<Binding>,
                        next: seq<Binding>,
                        events: seq<Event>, more: seq<Event>, count: nat)
    requires Progress(v, done, before, now, events, count)
    requires b in now && b !in done && Stale(v, b) && Unique(done + [b]) && Unique(next)
    requires forall e | e in more :: Caused(v, b, e)
    requires (Clears(v, b) && b.workspaceID != "" && Replaced(now, next, b, Cleared(b)))
          || (Settled(v, b, more) && Dropped(now, next, b))
    ensures Progress(v, done + [b], before, next, events + more, count + 1)
  {
    ProgressRetained(v, done, b, before, now, events, more, count);
    assert (done + [b])[..|done|] == done;
    forall x | x in done
      ensures x in now <==> x in next
      ensures Cleared(x) in now ==> Cleared(x) in next
    {
      NotTheSame(done, b, x);
    }
    CountGoneSame(done, now, next);
    assert b !in next;
    forall x | x in done + [b]
      ensures Accounted(v, x, next, events + more)
    {
      assert Accounted(v, x, now, events + more);
    }
    forall x | x in next && x !in before
      ensures exists y :: y in done + [b] && Clears(v, y) && x == Cleared(y)
    {
      if x == Cleared(b) && Clears(v, b) {
        assert b in done + [b];
      }
    }
  }

  lemma NotTheSame(done: seq<Binding>, b: Binding, x: Binding)
    requires Unique(done + [b]) && x in done
    ensures x != b && x != Cleared(b) && Cleared(x) != b
  {
    var i :| 0 <= i < |done| && done[i] == x;
    assert (done + [b])[i] == x && (done + [b])[|done|] == b;
  }

  /** What pass one may be asked to reconcile. */
  predicate Workable(v: View, stale: seq<Binding>, now: seq<Binding>)
  {
    && Unique(stale)
    && forall b | b in stale :: b in now && Stale(v, b) && (Clears(v, b) ==> b.workspaceID != "")
  }

  /** All that is done for `done` when no call fails. */
  function SettlingOf(v: View, done: seq<Binding>): seq<Event>
  {
    if done == [] then [] else SettlingOf(v, done[..|done| - 1]) + Settling(v, done[|done| - 1])
  }

  /** When no call fails, every stale binding is dealt with: gone, or cleared, and counted. */
  ghost predicate Handled(v: View, done: seq<Binding>, now: seq<Binding>, events: seq<Event>, count: nat)
  {
    && events == SettlingOf(v, done) && count == |done|
    && forall b | b in done :: b !in now && (Clears(v, b) ==> Cleared(b) in now)
  }

  lemma HandledStep(v: View, stale: seq<Binding>, i: nat, now: seq<Binding>, next: seq<Binding>,
                    events: seq<Event>, count: nat)
    requires i < |stale| && Unique(stale) && Handled(v, stale[..i], now, events, count)
    requires Clears(v, stale[i]) ==> stale[i].workspaceID != ""
    requires if Clears(v, stale[i]) then Replaced(now, next, stale[i], Cleared(stale[i]))
             else Dropped(now, next, stale[i])
    ensures Handled(v, stale[..i + 1], next, events + Settling(v, stale[i]), count + 1)
  {
    var b := stale[i];
    NotYetDone(stale, i);
    assert stale[..i + 1] == stale[..i] + [b] && stale[..i + 1][..i] == stale[..i];
    forall x | x in stale[..i + 1]
      ensures x !in next && (Clears(v, x) ==> Cleared(x) in next)
    {
      if x in stale[..i] {
        NotTheSame(stale[..i], b, x);
      }
    }
  }

  /** What one turn of the loop did. */
  datatype Turn = Turn(outcome: Outcome, events: seq<Event>)

  function TurnEvents(turns: seq<Turn>): seq<Event>
  {
    if turns == [] then [] else TurnEvents(turns[..|turns| - 1]) + turns[|turns| - 1].events
  }

  function TurnCount(turns: seq<Turn>): nat
  {
    if turns == [] then 0
    else TurnCount(turns[..|turns| - 1]) + if turns[|turns| - 1].outcome.Retained? then 0 else 1
  }

  /** A turn for `b` took the bindings from `now` to `next`. */
  ghost predicate TurnOk(v: View, b: Binding, now: seq<Binding>, next: seq<Binding>, turn: Turn)
  {
    && Unique(next) && (forall e | e in turn.events :: Caused(v, b, e))
    && (turn.outcome.Retained? ==> next == now)
    && (turn.outcome.ClearedID? ==> Clears(v, b) && Replaced(now, next, b, Cleared(b)))
    && (turn.outcome.Deleted? ==> Settled(v, b, turn.events) && Dropped(now, next, b))
  }

  ghost predicate TurnAt(v: View, stale: seq<Binding>, states: seq<seq<Binding>>, turns: seq<Turn>, k: nat)
    requires k < |turns| <= |stale| && |states| == |turns| + 1
  {
    TurnOk(v, stale[k], states[k], states[k + 1], turns[k])
  }

  /** Turn `k` did all there was to do. */
  predicate FullAt(v: View, stale: seq<Binding>, turns: seq<Turn>, k: nat)
    requires k < |turns| <= |stale|
  {
    turns[k] == Turn(if Clears(v, stale[k]) then ClearedID else Deleted, Settling(v, stale[k]))
  }

  ghost predicate Turns(v: View, stale: seq<Binding>, states: seq<seq<Binding>>, turns: seq<Turn>)
  {
    && |turns| <= |stale| && |states| == |turns| + 1 && Workable(v, stale, states[0]) && Unique(states[0])
    && forall k: nat | k < |turns| :: TurnAt(v, stale, states, turns, k)
  }

  lemma {:induction false} TurnsProgress(v: View, stale: seq<Binding>, states: seq<seq<Binding>>, turns: seq<Turn>)
    requires Turns(v, stale, states, turns)
    ensures Progress(v, stale[..|turns|], states[0], states[|turns|], TurnEvents(turns), TurnCount(turns))
    decreases |turns|
  {
    if turns == [] {
      NothingDone(v, stale, states[0]);
    } else {
      var n := |turns| - 1;
      TurnsBefore(v, stale, states, turns);
      TurnsProgress(v, stale, states[..n + 1], turns[..n]);
      assert TurnAt(v, stale, states, turns, n);
      ProgressStep(v, stale, n, states[0], states[n], states[n + 1], TurnEvents(turns[..n]), turns[n].events,
                   TurnCount(turns[..n]), turns[n].outcome);
    }
  }

  lemma TurnsBefore(v: View, stale: seq<Binding>, states: seq<seq<Binding>>, turns: seq<Turn>)
    requires Turns(v, stale, states, turns) && turns != []
    ensures Turns(v, stale, states[..|turns|], turns[..|turns| - 1])
  {
    var front, before := turns[..|turns| - 1], states[..|turns|];
    forall k: nat | k < |front|
      ensures TurnAt(v, stale, before, front, k)
    {
      assert TurnAt(v, stale, states, turns, k);
    }
  }

  lemma {:induction false} TurnsHandle(v: View, stale: seq<Binding>, states: seq<seq<Binding>>, turns: seq<Turn>)
    requires Turns(v, stale, states, turns) && forall k: nat | k < |turns| :: FullAt(v, stale, turns, k)
    ensures Handled(v, stale[..|turns|], states[|turns|], TurnEvents(turns), TurnCount(turns))
    decreases |turns|
  {
    if turns == [] {
      NothingDone(v, stale, states[0]);
    } else {
      var n := |turns| - 1;
      TurnsBefore(v, stale, states, turns);
      forall k: nat | k < n
        ensures FullAt(v, stale, turns[..n], k)
      {
        assert FullAt(v, stale, turns, k);
      }
      TurnsHandle(v, stale, states[..n + 1], turns[..n]);
      assert TurnAt(v, stale, states, turns, n) && FullAt(v, stale, turns, n);
      assert stale[n] in stale;
      HandledStep(v, stale, n, states[n], states[n + 1], TurnEvents(turns[..n]), TurnCount(turns[..n]));
    }
  }

  /** One turn more. */
  lemma TurnsGoOn(v: View, stale: seq<Binding>, states: seq<seq<Binding>>, turns: seq<Turn>, next: seq<Binding>,
                  turn: Turn)
    requires Turns(v, stale, states, turns) && |turns| < |stale|
    requires TurnAt(v, stale, states + [next], turns + [turn], |turns|)
    ensures Turns(v, stale, states + [next], turns + [turn])
    ensures TurnEvents(turns + [turn]) == TurnEvents(turns) + turn.events
    ensures TurnCount(turns + [turn]) == TurnCount(turns) + if turn.outcome.Retained? then 0 else 1
  {
    assert (turns + [turn])[..|turns|] == turns;
    var after, more := states + [next], turns + [turn];
    forall k: nat | k < |more|
      ensures TurnAt(v, stale, after, more, k)
    {
      if k < |turns| {
        assert TurnAt(v, stale, states, turns, k);
      }
    }
  }

  lemma FullGoesOn(v: View, stale: seq<Binding>, turns: seq<Turn>, turn: Turn)
    requires |turns| < |stale| && forall k: nat | k < |turns| :: FullAt(v, stale, turns, k)
    requires FullAt(v, stale, turns + [turn], |turns|)
    ensures forall k: nat | k < |turns| + 1 :: FullAt(v, stale, turns + [turn], k)
  {
    forall k: nat | k < |turns|
      ensures FullAt(v, stale, turns + [turn], k)
    {
      assert FullAt(v, stale, turns, k);
    }
  }

  lemma NothingDone(v: View, stale: seq<Binding>, before: seq<Binding>)
    requires Unique(before)
    ensures Progress(v, stale[..0], before, before, [], 0) && Handled(v, stale[..0], before, [], 0)
  {
    assert stale[..0] == [];
  }

  /** One turn of the loop. */
  method ReconcileNext(store: Store, host: Host, v: View, stale: seq<Binding>, i: nat,
                       ghost states: seq<seq<Binding>>, ghost turns: seq<Turn>)
    returns (outcome: Outcome, ghost turn: Turn)
    requires Turns(v, stale, states, turns) && i == |turns| < |stale| && store.bindings == states[i]
    modifies store, host
    ensures turn.outcome == outcome && host.log == old(host.log) + turn.events && old(host.clock) <= host.clock
    ensures Turns(v, stale, states + [store.bindings], turns + [turn])
    ensures TurnEvents(turns + [turn]) == TurnEvents(turns) + turn.events
    ensures TurnCount(turns + [turn]) == TurnCount(turns) + if outcome.Retained? then 0 else 1
    ensures host.Smooth(old(host.clock), host.clock) ==> FullAt(v, stale, turns + [turn], i)
  {
    TurnsProgress(v, stale, states, turns);
    NextIsThere(v, stale, i, states[0], states[i], TurnEvents(turns), TurnCount(turns));
    ghost var events;
    outcome, events := Reconcile(store, host, v, stale[i]);
    turn := Turn(outcome, events);
    assert (states + [store.bindings])[i] == states[i] && (turns + [turn])[i] == turn;
    TurnsGoOn(v, stale, states, turns, store.bindings, turn);
  }

  /** The loop over the stale bindings. */
  method ReconcileAll(store: Store, host: Host, v: View, stale: seq<Binding>)
    returns (deleted: nat, ghost events: seq<Event>)
    requires Unique(store.bindings) && Workable(v, stale, store.bindings)
    modifies store, host
    ensures host.log == old(host.log) + events
    ensures Progress(v, stale, old(store.bindings), store.bindings, events, deleted)
    ensures old(host.clock) <= host.clock
    ensures host.Smooth(old(host.clock), host.clock) ==> Handled(v, stale, store.bindings, events, deleted)
  {
    deleted := 0;
    ghost var states, turns: seq<Turn> := [store.bindings], [];
    for i := 0 to |stale|
      invariant Turns(v, stale, states, turns) && |turns| == i
      invariant states[0] == old(store.bindings) && states[i] == store.bindings
      invariant deleted == TurnCount(turns) && host.log == old(host.log) + TurnEvents(turns)
      invariant old(host.clock) <= host.clock
      invariant host.Smooth(old(host.clock), host.clock) ==> forall k: nat | k < i :: FullAt(v, stale, turns, k)
    {
      ghost var clock, turn := host.clock, Turn(Retained, []);
      var outcome;
      outcome, turn := ReconcileNext(store, host, v, stale, i, states, turns);
      host.SmoothParts(old(host.clock), clock, host.clock);
      if host.Smooth(old(host.clock), host.clock) {
        FullGoesOn(v, stale, turns, turn);
      }
      deleted := if outcome.Retained? then deleted else deleted + 1;
      states, turns := states + [store.bindings], turns + [turn];
    }
    events := TurnEvents(turns);
    assert stale[..|stale|] == stale;
    TurnsProgress(v, stale, states, turns);
    if host.Smooth(old(host.clock), host.clock) {
      TurnsHandle(v, stale, states, turns);
    }
  }

  lemma NextIsThere(v: View, stale: seq<Binding>, i: nat, before: seq<Binding>, now: seq<Binding>, events: seq<Event>,
                    count: nat)
    requires i < |stale| && Workable(v, stale, before) && Progress(v, stale[..i], before, now, events, count)
    ensures Unique(now) && stale[i] in now && Stale(v, stale[i])
  {
  }

  lemma ProgressStep(v: View, stale: seq<Binding>, i: nat, before: seq<Binding>, now: seq<Binding>, next: seq<Binding>,
                     events: seq<Event>, more: seq<Event>, count: nat, outcome: Outcome)
    requires i < |stale| && Workable(v, stale, before) && Progress(v, stale[..i], before, now, events, count)
    requires Unique(next) && forall e | e in more :: Caused(v, stale[i], e)
    requires outcome.Retained? ==> next == now
    requires outcome.ClearedID? ==> Clears(v, stale[i]) && Replaced(now, next, stale[i], Cleared(stale[i]))
    requires outcome.Deleted? ==> Settled(v, stale[i], more) && Dropped(now, next, stale[i])
    ensures Progress(v, stale[..i + 1], before, next, events + more, if outcome.Retained? then count else count + 1)
  {
    NextIsThere(v, stale, i, before, now, events, count);
    NotYetDone(stale, i);
    assert stale[i] in stale;
    assert stale[..i + 1] == stale[..i] + [stale[i]];
    if outcome.Retained? {
      ProgressRetained(v, stale[..i], stale[i], before, now, events, more, count);
    } else {
      ProgressChanged(v, stale[..i], stale[i], before, now, next, events, more, count);
    }
  }

  lemma NotYetDone(s: seq<Binding>, i: nat)
    requires Unique(s) && i < |s|
    ensures s[i] !in s[..i]
    ensures Unique(s[..i] + [s[i]])
  {
  }

  // ----- orphan workspaces -----

  predicate Orphan(now: seq<Binding>, w: Workspace)
  {
    HasPrefix(w.title, "nexus:") && forall b | b in now :: b.workspaceID != w.id
  }

  /** The closes of all orphans that have an ID, in order. */
  function OrphanCloses(now: seq<Binding>, ws: seq<Workspace>): seq<Event>
  {
    if ws == [] then []
    else
      var last := ws[|ws| - 1];
      OrphanCloses(now, ws[..|ws| - 1]) + if Orphan(now, last) && last.id != "" then [Closed(last.id)] else []
  }

  lemma {:induction false} OrphanCloseMembers(now: seq<Binding>, ws: seq<Workspace>, e: Event)
    ensures e in OrphanCloses(now, ws)
       <==> e.Closed? && e.workspaceID != "" && exists w :: w in ws && w.id == e.workspaceID && Orphan(now, w)
  {
    if ws != [] {
      var front, last := ws[..|ws| - 1], ws[|ws| - 1];
      assert ws == front + [last];
      OrphanCloseMembers(now, front, e);
    }
  }

  /** Closes "nexus:" workspaces no binding names by ID, all of them if no call fails. A failed read closes nothing. */
  method SweepOrphanWorkspaces(store: Store, host: Host, listing: Listing<Workspace>) returns (ghost events: seq<Event>)
    modifies host
    ensures host.log == old(host.log) + events && (listing.Unavailable? ==> events == [])
    ensures listing.Listed? ==> forall e | e in events :: e in OrphanCloses(store.bindings, listing.items)
    ensures old(host.clock) <= host.clock
    ensures host.Smooth(old(host.clock), host.clock) && listing.Listed? ==>
              events == OrphanCloses(store.bindings, listing.items)
  {
    events := [];
    var fault := host.Fault();
    if listing.Unavailable? || fault {
      return;
    }
    var ws := listing.items;
    ghost var all := [];
    for i := 0 to |ws|
      invariant all == OrphanCloses(store.bindings, ws[..i])
      invariant host.log == old(host.log) + events && old(host.clock) <= host.clock
      invariant forall e | e in events :: e in all
      invariant host.Smooth(old(host.clock), host.clock) ==> events == all
    {
      ghost var clock := host.clock;
      assert ws[..i + 1][..i] == ws[..i];
      if Orphan(store.bindings, ws[i]) {
        var closed := host.Close(ws[i].id);
        if ws[i].id != "" {
          all := all + [Closed(ws[i].id)];
          events := events + if closed then [Closed(ws[i].id)] else [];
        }
      }
      host.SmoothParts(old(host.clock), clock, host.clock);
    }
    assert ws[..|ws|] == ws;
  }

  // ----- pass two: sandboxes no binding knows -----

  predicate IsAbs(path: string)
  {
    HasPrefix(path, "/")
  }

  function Checkouts(f: Files, mounts: seq<Mount>): seq<string>
  {
    if mounts == [] then []
    else
      var m := mounts[|mounts| - 1];
      Checkouts(f, mounts[..|mounts| - 1])
      + if IsAbs(m.hostPath) && m.guestPath == WORKSPACE_GUEST_PATH then [f.clean(m.hostPath)] else []
  }

  function Commons(f: Files, mounts: seq<Mount>): seq<string>
  {
    if mounts == [] then []
    else
      var m := mounts[|mounts| - 1];
      Commons(f, mounts[..|mounts| - 1])
      + if IsAbs(m.hostPath) && m.guestPath != WORKSPACE_GUEST_PATH && m.hostPath == m.guestPath
        && f.isCommonDir(m.hostPath)
        then [f.clean(m.hostPath)] else []
  }

  /** G2: exactly one checkout, exactly one git common directory, and not the main checkout. */
  predicate WorktreeShaped(f: Files, mounts: seq<Mount>)
  {
    && |Checkouts(f, mounts)| == 1 && |Commons(f, mounts)| == 1
    && Checkouts(f, mounts)[0] != f.dir(Commons(f, mounts)[0])
  }

  lemma {:induction false} CheckoutsIff(f: Files, mounts: seq<Mount>, path: string)
    ensures path in Checkouts(f, mounts)
       <==> exists m | m in mounts ::
              HasPrefix(m.hostPath, "/") && m.guestPath == "/workspace" && f.clean(m.hostPath) == path
  {
    if mounts != [] {
      CheckoutsIff(f, mounts[..|mounts| - 1], path);
      assert mounts == mounts[..|mounts| - 1] + [mounts[|mounts| - 1]];
    }
  }

  lemma {:induction false} CommonsIff(f: Files, mounts: seq<Mount>, path: string)
    ensures path in Commons(f, mounts)
       <==> exists m | m in mounts ::
              && HasPrefix(m.hostPath, "/") && m.guestPath == m.hostPath != "/workspace"
              && f.isCommonDir(m.hostPath) && f.clean(m.hostPath) == path
  {
    if mounts != [] {
      CommonsIff(f, mounts[..|mounts| - 1], path);
      assert mounts == mounts[..|mounts| - 1] + [mounts[|mounts| - 1]];
    }
  }

  method MountShapeOf(f: Files, mounts: seq<Mount>) returns (checkout: Option<string>)
    ensures checkout == if WorktreeShaped(f, mounts) then Some(Checkouts(f, mounts)[0]) else None
  {
    var checkouts, commons := [], [];
    for i := 0 to |mounts|
      invariant checkouts == Checkouts(f, mounts[..i]) && commons == Commons(f, mounts[..i])
    {
      var m := mounts[i];
      assert mounts[..i + 1][..i] == mounts[..i];
      if !IsAbs(m.hostPath) {
        continue;
      }
      if m.guestPath == WORKSPACE_GUEST_PATH {
        checkouts := checkouts + [f.clean(m.hostPath)];
        continue;
      }
      if m.hostPath == m.guestPath && f.isCommonDir(m.hostPath) {
        commons := commons + [f.clean(m.hostPath)];
      }
    }
    assert mounts[..|mounts|] == mounts;
    if |checkouts| != 1 || |commons| != 1 || checkouts[0] == f.dir(commons[0]) {
      return None;
    }
    return Some(checkouts[0]);
  }

  function DisplayLabel(spaceLabel: string): string
  {
    if '/' in spaceLabel then "nexus:" + AfterLastSlash(spaceLabel) else spaceLabel
  }

  function AfterLastSlash(s: string): (r: string)
    requires '/' in s
    ensures '/' !in r && exists i | 0 <= i < |s| :: s[i] == '/' && r == s[i + 1..]
  {
    if s[|s| - 1] == '/' then
      assert s[|s|..] == "";
      ""
    else
      var front := AfterLastSlash(s[..|s| - 1]);
      assert exists i | 0 <= i < |s| :: s[i] == '/' && front + [s[|s| - 1]] == s[i + 1..] by {
        var i :| 0 <= i < |s| - 1 && s[..|s| - 1][i] == '/' && front == s[..|s| - 1][i + 1..];
        assert s[i + 1..] == front + [s[|s| - 1]];
      }
      front + [s[|s| - 1]]
  }

  /** G1: a binding row names the sandbox. */
  predicate BoundTo(sb: Sandbox, b: Binding)
  {
    b.handle == Handle(sb) || (b.sandboxID != "" && b.sandboxID == sb.id)
  }

  /** G3: affirmatively absent. */
  predicate PositivelyGone(f: Files, path: string)
  {
    path != "" && f.absent(path)
  }

  /** G4: a live workspace opens the checkout or is labelled for the sandbox. */
  predicate RefersTo(f: Files, w: Workspace, checkout: string, handle: string)
  {
    || (w.checkout != "" && f.clean(w.checkout) == checkout)
    || (w.title != "" && (w.title == "nexus:" + handle || w.title == DisplayLabel("nexus:" + handle)))
  }

  /** A workspace labelled with the sandbox's name refers to it, with or without the project. */
  lemma LabelRefers(f: Files, w: Workspace, checkout: string, sb: Sandbox)
    requires '/' !in sb.name && (w.title == "nexus:" + sb.name || w.title == "nexus:" + Handle(sb))
    ensures RefersTo(f, w, checkout, Handle(sb))
  {
    assert "nexus:" + Handle(sb) == "nexus:" + sb.project + "/" + sb.name;
    AfterOneSlash("nexus:" + sb.project, sb.name);
  }

  lemma {:induction false} AfterOneSlash(a: string, b: string)
    requires '/' !in b
    ensures AfterLastSlash(a + "/" + b) == b
  {
    var s := a + "/" + b;
    assert s[|a|] == '/';
    if b != "" {
      AfterOneSlash(a, b[..|b| - 1]);
      assert s[..|s| - 1] == a + "/" + b[..|b| - 1];
    }
  }

  /** All four guards. */
  predicate Collects(f: Files, sb: Sandbox, bindings: seq<Binding>, ws: seq<Workspace>)
  {
    && Named(sb)
    && (forall b | b in bindings :: !BoundTo(sb, b))
    && WorktreeShaped(f, sb.mounts)
    && PositivelyGone(f, Checkouts(f, sb.mounts)[0])
    && forall w | w in ws :: !RefersTo(f, w, Checkouts(f, sb.mounts)[0], Handle(sb))
  }

  method Classify(f: Files, sb: Sandbox, bindings: seq<Binding>, ws: seq<Workspace>) returns (collect: bool)
    ensures collect <==> Collects(f, sb, bindings, ws)
  {
    if !Named(sb) {
      return false;
    }
    for i := 0 to |bindings|
      invariant forall j | 0 <= j < i :: !BoundTo(sb, bindings[j])
    {
      if BoundTo(sb, bindings[i]) {
        assert bindings[i] in bindings;
        return false;
      }
    }
    var checkout := MountShapeOf(f, sb.mounts);
    if checkout.None? || !PositivelyGone(f, checkout.value) {
      return false;
    }
    for i := 0 to |ws|
      invariant forall j | 0 <= j < i :: !RefersTo(f, ws[j], checkout.value, Handle(sb))
    {
      if RefersTo(f, ws[i], checkout.value, Handle(sb)) {
        assert ws[i] in ws;
        return false;
      }
    }
    return true;
  }

  /** The removals of all collectable sandboxes, in order. */
  function Removals(f: Files, sandboxes: seq<Sandbox>, bindings: seq<Binding>, ws: seq<Workspace>): seq<Event>
  {
    if sandboxes == [] then []
    else
      var last := sandboxes[|sandboxes| - 1];
      Removals(f, sandboxes[..|sandboxes| - 1], bindings, ws)
      + if Collects(f, last, bindings, ws) then [Removed(Handle(last))] else []
  }

  lemma {:induction false} RemovalsMembers(f: Files, sandboxes: seq<Sandbox>, bindings: seq<Binding>,
                                           ws: seq<Workspace>, e: Event)
    ensures e in Removals(f, sandboxes, bindings, ws)
       <==> e.Removed? && exists sb :: sb in sandboxes && Handle(sb) == e.handle && Collects(f, sb, bindings, ws)
  {
    if sandboxes != [] {
      var front, last := sandboxes[..|sandboxes| - 1], sandboxes[|sandboxes| - 1];
      assert sandboxes == front + [last];
      RemovalsMembers(f, front, bindings, ws, e);
    }
  }

  lemma RemovalsNext(f: Files, sandboxes: seq<Sandbox>, bindings: seq<Binding>, ws: seq<Workspace>, i: nat)
    requires i < |sandboxes|
    ensures Removals(f, sandboxes[..i + 1], bindings, ws)
         == Removals(f, sandboxes[..i], bindings, ws)
            + if Collects(f, sandboxes[i], bindings, ws) then [Removed(Handle(sandboxes[i]))] else []
  {
    assert sandboxes[..i + 1][..i] == sandboxes[..i];
  }

  /** One sandbox of the sweep. */
  method Collect(host: Host, f: Files, sb: Sandbox, bindings: seq<Binding>, ws: seq<Workspace>, apply: bool)
    returns (collect: bool, removed: bool)
    modifies host
    ensures collect <==> Collects(f, sb, bindings, ws)
    ensures removed ==> collect && apply
    ensures old(host.clock) <= host.clock
    ensures collect && apply && host.Smooth(old(host.clock), host.clock) ==> removed
    ensures host.log == if removed then old(host.log) + [Removed(Handle(sb))] else old(host.log)
  {
    collect := Classify(f, sb, bindings, ws);
    removed := false;
    if collect && apply {
      removed := host.Attempt(Removed(Handle(sb)));
    }
  }

  /** The sweep removes only collectable sandboxes, and all of them if no call fails. */
  method SweepBindingless(host: Host, f: Files, sandboxes: seq<Sandbox>, bindings: seq<Binding>, ws: seq<Workspace>,
                          apply: bool)
    returns (collectable: nat, reaped: nat, ghost events: seq<Event>)
    modifies host
    ensures host.log == old(host.log) + events && reaped == |events| <= collectable
    ensures collectable == |Removals(f, sandboxes, bindings, ws)|
    ensures forall e | e in events :: e in Removals(f, sandboxes, bindings, ws)
    ensures !apply ==> events == []
    ensures old(host.clock) <= host.clock
    ensures apply && host.Smooth(old(host.clock), host.clock) ==> events == Removals(f, sandboxes, bindings, ws)
  {
    collectable, reaped, events := 0, 0, [];
    ghost var all := [];
    for i := 0 to |sandboxes|
      invariant all == Removals(f, sandboxes[..i], bindings, ws)
      invariant host.log == old(host.log) + events && reaped == |events| <= collectable == |all|
      invariant forall e | e in events :: e in all
      invariant !apply ==> events == []
      invariant old(host.clock) <= host.clock
      invariant apply && host.Smooth(old(host.clock), host.clock) ==> events == all
    {
      ghost var clock := host.clock;
      RemovalsNext(f, sandboxes, bindings, ws, i);
      var collect, removed := Collect(host, f, sandboxes[i], bindings, ws, apply);
      if collect {
        collectable, all := collectable + 1, all + [Removed(Handle(sandboxes[i]))];
      }
      if removed {
        reaped, events := reaped + 1, events + [Removed(Handle(sandboxes[i]))];
      }
      host.SmoothParts(old(host.clock), clock, host.clock);
    }
    assert sandboxes[..|sandboxes|] == sandboxes;
  }

  // ----- the whole run -----

  /** What a run is told; listings are fetched separately by each user and need not agree. */
  datatype Inputs = Inputs(apply: bool, scope: string, herdr: bool, sandboxes: Listing<Sandbox>,
                           workspaces: Listing<Workspace>,
                           orphanListing: Listing<Workspace>, sweepSandboxes: Listing<Sandbox>,
                           sweepListing: Listing<Workspace>)

  /** Without a herdr binary every workspace list fails. */
  function Seen(herdr: bool, l: Listing<Workspace>): Listing<Workspace>
  {
    if herdr then l else Unavailable
  }

  function ViewOf(p: Inputs): View
  {
    View(p.sandboxes, Seen(p.herdr, p.workspaces), p.scope != "")
  }

  function Scoped(s: seq<Binding>, scope: string): seq<Binding>
  {
    if s == [] then []
    else Scoped(s[..|s| - 1], scope) + if s[|s| - 1].workspaceID == scope then [s[|s| - 1]] else []
  }

  function Candidates(s: seq<Binding>, scope: string): seq<Binding>
  {
    if scope == "" then s else Scoped(s, scope)
  }

  lemma {:induction false} ScopedMembers(s: seq<Binding>, scope: string, b: Binding)
    ensures b in Scoped(s, scope) <==> b in s && b.workspaceID == scope
  {
    if s != [] {
      ScopedMembers(s[..|s| - 1], scope, b);
      assert s == s[..|s| - 1] + [s[|s| - 1]];
    }
  }

  lemma {:induction false} ScopedIsUnique(s: seq<Binding>, scope: string)
    requires Unique(s)
    ensures Unique(Scoped(s, scope))
  {
    if s != [] {
      var front := s[..|s| - 1];
      ScopedIsUnique(front, scope);
      forall i | 0 <= i < |Scoped(front, scope)|
        ensures !Conflicts(Scoped(front, scope)[i], s[|s| - 1])
      {
        ScopedMembers(front, scope, Scoped(front, scope)[i]);
      }
    }
  }

  /** Cause (a): a worktree-managed binding whose sandbox is there and whose workspace is gone. */
  ghost predicate ReapedBinding(p: Inputs, before: seq<Binding>, handle: string)
  {
    exists b :: b in Candidates(before, p.scope) && b.handle == handle && Reaps(ViewOf(p), b)
  }

  /** Cause (b): no binding at the start of the run knows the sandbox, and every guard clears. */
  ghost predicate ReapedBindingless(p: Inputs, f: Files, before: seq<Binding>, handle: string)
  {
    && p.scope == "" && p.sweepSandboxes.Listed? && p.herdr && p.sweepListing.Listed? && p.sweepListing.items != []
    && exists sb ::
         sb in p.sweepSandboxes.items && Handle(sb) == handle && Collects(f, sb, before, p.sweepListing.items)
  }

  /** Cause (c), of a close: an orphan once the bindings were settled. */
  ghost predicate ClosedOrphan(p: Inputs, now: seq<Binding>, e: Event)
  {
    && e.Closed? && p.scope == "" && p.orphanListing.Listed?
    && exists w :: w in p.orphanListing.items && w.id == e.workspaceID && Orphan(now, w)
  }

  /** What a run did, in order: for stale bindings, to orphan workspaces, to sandboxes without a binding. */
  datatype Trail = Trail(settling: seq<Event>, orphans: seq<Event>, bindingless: seq<Event>)

  function Events(t: Trail): seq<Event>
  {
    t.settling + t.orphans + t.bindingless
  }

  /**
    What pass one leaves behind: the count is of bindings really gone or cleared, every candidate is
    accounted for by what was done for the stale bindings, nothing else is touched, and everything
    done has its cause.
   */
  ghost predicate PassOne(p: Inputs, before: seq<Binding>, now: seq<Binding>, t: Trail, count: nat)
  {
    && Unique(now)
    && count == CountGone(Candidates(before, p.scope), now)
    && AllAccounted(ViewOf(p), Candidates(before, p.scope), now, t.settling)
    && AllCaused(ViewOf(p), Candidates(before, p.scope), t.settling)
    && (forall e | e in t.orphans :: ClosedOrphan(p, now, e))
    && NothingNew(ViewOf(p), Candidates(before, p.scope), before, now)
    && (forall x | x in before && !(x in Candidates(before, p.scope) && Stale(ViewOf(p), x)) :: x in now)
  }

  /**
    What pass one owes when no call fails: every stale candidate is gone, or cleared, and counted; what was
    done for them is exactly their duties, in order; and then exactly the orphans are closed.
   */
  ghost predicate AllHandled(p: Inputs, before: seq<Binding>, now: seq<Binding>, t: Trail, count: nat)
  {
    var stale := StaleOf(ViewOf(p), Candidates(before, p.scope));
    && Handled(ViewOf(p), stale, now, t.settling, count)
    && t.orphans == if p.scope == "" && stale != [] && p.orphanListing.Listed?
                    then OrphanCloses(now, p.orphanListing.items) else []
  }

  method PruneBindings(store: Store, host: Host, p: Inputs, bindings: seq<Binding>)
    returns (deleted: nat, ghost t: Trail)
    requires Unique(store.bindings) && bindings == Candidates(store.bindings, p.scope)
    modifies store, host
    ensures host.log == old(host.log) + Events(t) && t.bindingless == []
    ensures !p.apply ==> Events(t) == [] && store.bindings == old(store.bindings)
    ensures PassOne(p, old(store.bindings), store.bindings, t, deleted)
    ensures old(host.clock) <= host.clock
    ensures p.apply && host.Smooth(old(host.clock), host.clock) ==>
              AllHandled(p, old(store.bindings), store.bindings, t, deleted)
  {
    var stale := CollectStale(ViewOf(p), bindings);
    t := Trail([], [], []);
    if stale == [] || !p.apply {
      Untouched(p, store.bindings);
      return 0, t;
    }
    ghost var settling;
    deleted, settling := ReconcileStale(store, host, p, stale);
    t := Trail(settling, [], []);
    if p.scope == "" {
      ghost var clock := host.clock;
      ghost var closed := SweepOrphanWorkspaces(store, host, p.orphanListing);
      t := Trail(settling, closed, []);
      PassOneSwept(p, old(store.bindings), store.bindings, settling, closed, deleted);
      host.SmoothParts(old(host.clock), clock, host.clock);
    }
  }

  /** The loop, seen from all candidates. */
  method ReconcileStale(store: Store, host: Host, p: Inputs, stale: seq<Binding>)
    returns (deleted: nat, ghost settling: seq<Event>)
    requires Unique(store.bindings) && stale == StaleOf(ViewOf(p), Candidates(store.bindings, p.scope))
    modifies store, host
    ensures host.log == old(host.log) + settling && old(host.clock) <= host.clock
    ensures PassOne(p, old(store.bindings), store.bindings, Trail(settling, [], []), deleted)
    ensures host.Smooth(old(host.clock), host.clock) ==> Handled(ViewOf(p), stale, store.bindings, settling, deleted)
  {
    ghost var before := store.bindings;
    assert Workable(ViewOf(p), stale, before) by {
      StaleFacts(p, before);
    }
    deleted, settling := ReconcileAll(store, host, ViewOf(p), stale);
    PassOneSums(p, before, store.bindings, settling, deleted);
  }

  lemma PassOneSwept(p: Inputs, before: seq<Binding>, now: seq<Binding>, settling: seq<Event>, closed: seq<Event>,
                     count: nat)
    requires PassOne(p, before, now, Trail(settling, [], []), count) && p.scope == ""
    requires if p.orphanListing.Listed? then forall e | e in closed :: e in OrphanCloses(now, p.orphanListing.items)
             else closed == []
    ensures PassOne(p, before, now, Trail(settling, closed, []), count)
  {
    forall e | e in closed
      ensures ClosedOrphan(p, now, e)
    {
      OrphanCloseMembers(now, p.orphanListing.items, e);
    }
  }

  method CollectStale(v: View, bindings: seq<Binding>) returns (stale: seq<Binding>)
    ensures stale == StaleOf(v, bindings)
  {
    stale := [];
    for i := 0 to |bindings|
      invariant stale == StaleOf(v, bindings[..i])
    {
      assert bindings[..i + 1][..i] == bindings[..i];
      if !SandboxPresent(v, bindings[i]) || !WorkspacePresent(v, bindings[i]) {
        stale := stale + [bindings[i]];
      }
    }
    assert bindings[..|bindings|] == bindings;
  }

  lemma StaleFacts(p: Inputs, before: seq<Binding>)
    requires Unique(before)
    ensures Workable(ViewOf(p), StaleOf(ViewOf(p), Candidates(before, p.scope)), before)
    ensures forall b :: b in Candidates(before, p.scope) ==> b in before
    ensures forall b :: b in StaleOf(ViewOf(p), Candidates(before, p.scope))
                   <==> b in Candidates(before, p.scope) && Stale(ViewOf(p), b)
  {
    if p.scope != "" {
      ScopedIsUnique(before, p.scope);
    }
    StaleIsUnique(ViewOf(p), Candidates(before, p.scope));
    forall b
      ensures b in Candidates(before, p.scope) ==> b in before && (p.scope != "" ==> b.workspaceID == p.scope)
      ensures b in StaleOf(ViewOf(p), Candidates(before, p.scope))
              <==> b in Candidates(before, p.scope) && Stale(ViewOf(p), b)
    {
      ScopedMembers(before, p.scope, b);
      StaleMembers(ViewOf(p), Candidates(before, p.scope), b);
    }
  }

  lemma {:induction false} NoneGone(s: seq<Binding>, now: seq<Binding>)
    requires forall b | b in s :: b in now
    ensures CountGone(s, now) == 0
  {
    if s != [] {
      NoneGone(s[..|s| - 1], now);
      assert s[|s| - 1] in s;
    }
  }

  lemma Untouched(p: Inputs, before: seq<Binding>)
    requires Unique(before)
    ensures PassOne(p, before, before, Trail([], [], []), 0)
  {
    StaleFacts(p, before);
    NoneGone(Candidates(before, p.scope), before);
  }

  /** From the stale bindings to all candidates. */
  lemma PassOneSums(p: Inputs, before: seq<Binding>, now: seq<Binding>, events: seq<Event>, count: nat)
    requires Unique(before)
    requires Progress(ViewOf(p), StaleOf(ViewOf(p), Candidates(before, p.scope)), before, now, events, count)
    ensures PassOne(p, before, now, Trail(events, [], []), count)
  {
    var v, bindings := ViewOf(p), Candidates(before, p.scope);
    StaleFacts(p, before);
    CountGoneStale(v, bindings, now);
    forall x | x in now && x !in before
      ensures exists y :: y in bindings && Clears(v, y) && x == Cleared(y)
    {
      var y :| y in StaleOf(v, bindings) && Clears(v, y) && x == Cleared(y);
      assert y in bindings;
    }
    forall e | e in events
      ensures exists b :: b in bindings && Stale(v, b) && Caused(v, b, e)
    {
      var b :| b in StaleOf(v, bindings) && Stale(v, b) && Caused(v, b, e);
      assert b in bindings;
    }
  }

  /** What pass two removes when no call fails. */
  function BindinglessOf(p: Inputs, f: Files, snapshot: seq<Binding>): seq<Event>
  {
    if p.herdr && p.sweepListing.Listed? && p.sweepListing.items != [] && p.sweepSandboxes.Listed?
    then Removals(f, p.sweepSandboxes.items, snapshot, p.sweepListing.items) else []
  }

  /** The pass-two step: it refuses to run on a missing or empty workspace list. */
  method BindinglessStep(host: Host, f: Files, p: Inputs, snapshot: seq<Binding>) returns (ghost events: seq<Event>)
    requires p.scope == ""
    modifies host
    ensures host.log == old(host.log) + events && (!p.apply ==> events == [])
    ensures forall e | e in events :: e.Removed? && ReapedBindingless(p, f, snapshot, e.handle)
    ensures Seen(p.herdr, p.sweepListing).Unavailable? || p.sweepListing == Listed([]) ==> events == []
    ensures old(host.clock) <= host.clock
    ensures p.apply && host.Smooth(old(host.clock), host.clock) ==> events == BindinglessOf(p, f, snapshot)
  {
    events := [];
    var listing := Seen(p.herdr, p.sweepListing);
    if listing.Unavailable? || listing.items == [] || p.sweepSandboxes.Unavailable? {
      return;
    }
    var collectable, reaped;
    collectable, reaped, events := SweepBindingless(host, f, p.sweepSandboxes.items, snapshot, listing.items, p.apply);
    forall e | e in events
      ensures e.Removed? && ReapedBindingless(p, f, snapshot, e.handle)
    {
      RemovalsMembers(f, p.sweepSandboxes.items, snapshot, listing.items, e);
    }
  }

  datatype Report = Refused | ReadFailed | Pruned(deleted: nat)

  /**
    What a run leaves behind. Everything it did has its cause in what was there when it began; an
    unreadable or empty workspace list removes no sandbox; the reported count is of bindings really
    gone or cleared; every candidate is accounted for by what was done for stale bindings, before any
    sweep; nothing else is touched or added.
   */
  ghost predicate Reconciled(p: Inputs, f: Files, before: seq<Binding>, now: seq<Binding>, t: Trail, count: nat)
  {
    && PassOne(p, before, now, t, count)
    && (forall e | e in t.bindingless :: e.Removed? && ReapedBindingless(p, f, before, e.handle))
    && (p.scope == "" && Blank(Seen(p.herdr, p.workspaces))
        && (p.sweepListing.Unavailable? || p.sweepListing.items == []) ==>
          t.bindingless == [] && forall e | e in t.settling :: !e.Removed?)
    && count == CountGone(before, now)
  }

  /** One run. `snapshotRead` and `bindingsRead` say whether the two reads of the bindings succeed. */
  method SpacePrune(store: Store, host: Host, f: Files, p: Inputs, snapshotRead: bool, bindingsRead: bool)
    returns (r: Report, ghost t: Trail)
    requires Unique(store.bindings)
    modifies store, host
    ensures host.log == old(host.log) + Events(t)
    ensures !p.apply || !r.Pruned? ==> Events(t) == [] && store.bindings == old(store.bindings)
    ensures r.Refused? <==> p.apply && !p.herdr
    ensures r.ReadFailed? <==> !r.Refused? && !(if p.scope == "" then bindingsRead else snapshotRead)
    ensures r.Pruned? ==> Reconciled(p, f, old(store.bindings), store.bindings, t, r.deleted)
    ensures old(host.clock) <= host.clock
    ensures r.Pruned? && p.apply && host.Smooth(old(host.clock), host.clock) ==>
              && AllHandled(p, old(store.bindings), store.bindings, t, r.deleted)
              && t.bindingless == if p.scope == "" && snapshotRead then BindinglessOf(p, f, old(store.bindings)) else []
  {
    t := Trail([], [], []);
    if p.apply && !p.herdr {
      return Refused, t;
    }
    ghost var before := store.bindings;
    var snapshot := store.bindings;
    var bindings := store.bindings;
    if p.scope != "" {
      if !snapshotRead {
        return ReadFailed, t;
      }
      bindings := ScopedTo(store.bindings, p.scope);
    } else if !bindingsRead {
      return ReadFailed, t;
    }
    var deleted;
    deleted, t := BothPasses(store, host, f, p, snapshot, bindings, snapshotRead);
    r := Pruned(deleted);
  }

  method BothPasses(store: Store, host: Host, f: Files, p: Inputs, snapshot: seq<Binding>, bindings: seq<Binding>,
                    snapshotRead: bool)
    returns (deleted: nat, ghost t: Trail)
    requires Unique(store.bindings) && snapshot == store.bindings && bindings == Candidates(snapshot, p.scope)
    modifies store, host
    ensures host.log == old(host.log) + Events(t)
    ensures !p.apply ==> Events(t) == [] && store.bindings == old(store.bindings)
    ensures Reconciled(p, f, old(store.bindings), store.bindings, t, deleted)
    ensures old(host.clock) <= host.clock
    ensures p.apply && host.Smooth(old(host.clock), host.clock) ==>
              && AllHandled(p, old(store.bindings), store.bindings, t, deleted)
              && t.bindingless == if p.scope == "" && snapshotRead then BindinglessOf(p, f, old(store.bindings)) else []
  {
    ghost var first, removed := Trail([], [], []), [];
    deleted, first := PruneBindings(store, host, p, bindings);
    ghost var clock := host.clock;
    if p.scope == "" && snapshotRead {
      removed := BindinglessStep(host, f, p, snapshot);
    }
    host.SmoothParts(old(host.clock), clock, host.clock);
    t := Trail(first.settling, first.orphans, removed);
    assert Events(t) == Events(first) + removed;
    RunSums(p, f, snapshot, store.bindings, first, removed, deleted);
  }

  lemma RunSums(p: Inputs, f: Files, before: seq<Binding>, now: seq<Binding>, t: Trail, removed: seq<Event>, count: nat)
    requires PassOne(p, before, now, t, count)
    requires forall e | e in removed :: e.Removed? && ReapedBindingless(p, f, before, e.handle)
    ensures Reconciled(p, f, before, now, Trail(t.settling, t.orphans, removed), count)
    ensures AllHandled(p, before, now, t, count)
       <==> AllHandled(p, before, now, Trail(t.settling, t.orphans, removed), count)
  {
    NothingElseGone(p, before, now);
    UnderstoodOnly(p, before);
    forall e | e in t.settling && e.Removed?
      ensures ReapedBinding(p, before, e.handle)
    {
      var b :| b in Candidates(before, p.scope) && Stale(ViewOf(p), b) && Caused(ViewOf(p), b, e);
    }
    if removed != [] {
      assert ReapedBindingless(p, f, before, removed[0].handle);
    }
  }

  method ScopedTo(s: seq<Binding>, scope: string) returns (r: seq<Binding>)
    ensures r == Scoped(s, scope)
  {
    r := [];
    for i := 0 to |s|
      invariant r == Scoped(s[..i], scope)
    {
      assert s[..i + 1][..i] == s[..i];
      if s[i].workspaceID == scope {
        r := r + [s[i]];
      }
    }
    assert s[..|s|] == s;
  }

  lemma {:induction false} CountGoneScoped(s: seq<Binding>, scope: string, now: seq<Binding>)
    requires forall x | x in s && x.workspaceID != scope :: x in now
    ensures CountGone(Scoped(s, scope), now) == CountGone(s, now)
  {
    if s != [] {
      var front := s[..|s| - 1];
      CountGoneScoped(front, scope, now);
      if s[|s| - 1].workspaceID == scope {
        assert Scoped(s, scope)[..|Scoped(s, scope)| - 1] == Scoped(front, scope);
      } else {
        assert Scoped(s, scope) == Scoped(front, scope);
        assert s[|s| - 1] in now;
      }
    }
  }

  lemma NothingElseGone(p: Inputs, before: seq<Binding>, now: seq<Binding>)
    requires forall x | x in before && !(x in Candidates(before, p.scope) && Stale(ViewOf(p), x)) :: x in now
    ensures CountGone(Candidates(before, p.scope), now) == CountGone(before, now)
  {
    if p.scope != "" {
      forall x | x in before && x.workspaceID != p.scope
        ensures x in now
      {
        ScopedMembers(before, p.scope, x);
      }
      CountGoneScoped(before, p.scope, now);
    }
  }

  /** A workspace list that is not understood reaps nothing in pass one. */
  lemma UnderstoodOnly(p: Inputs, before: seq<Binding>)
    ensures p.scope == "" && Blank(Seen(p.herdr, p.workspaces)) ==> forall handle :: !ReapedBinding(p, before, handle)
  {
  }

  // ----- what the two passes call an empty list -----

  /** The first three guards: nothing but a workspace stands between the sandbox and its removal. */
  predicate Unclaimed(f: Files, sb: Sandbox, bindings: seq<Binding>)
  {
    && Named(sb) && (forall b | b in bindings :: !BoundTo(sb, b))
    && WorktreeShaped(f, sb.mounts) && PositivelyGone(f, Checkouts(f, sb.mounts)[0])
  }

  predicate RefersToSandbox(f: Files, w: Workspace, sb: Sandbox)
  {
    WorktreeShaped(f, sb.mounts) && RefersTo(f, w, Checkouts(f, sb.mounts)[0], Handle(sb))
  }

  /**
    Pass one takes a list whose entries all lack an ID for no list and reaps nothing. Pass two honours
    that, and removes nothing either, exactly when the list is empty, or each unclaimed sandbox is
    referred to by one of those entries.
   */
  lemma BlankIsHonouredIff(f: Files, sandboxes: seq<Sandbox>, bindings: seq<Binding>, ws: seq<Workspace>)
    requires Blank(Listed(ws))
    ensures ws == [] || Removals(f, sandboxes, bindings, ws) == []
       <==> ws == [] || forall sb | sb in sandboxes && Unclaimed(f, sb, bindings) ::
              exists w | w in ws :: RefersToSandbox(f, w, sb)
  {
    forall sb
      ensures Collects(f, sb, bindings, ws)
         <==> Unclaimed(f, sb, bindings) && !exists w | w in ws :: RefersToSandbox(f, w, sb)
    {
    }
    NoRemovalsIff(f, sandboxes, bindings, ws);
  }

  lemma {:induction false} NoRemovalsIff(f: Files, sandboxes: seq<Sandbox>, bindings: seq<Binding>, ws: seq<Workspace>)
    ensures Removals(f, sandboxes, bindings, ws) == []
       <==> forall sb | sb in sandboxes :: !Collects(f, sb, bindings, ws)
  {
    if sandboxes != [] {
      var front, last := sandboxes[..|sandboxes| - 1], sandboxes[|sandboxes| - 1];
      assert sandboxes == front + [last];
      NoRemovalsIff(f, front, bindings, ws);
    }
  }

  /** The failing input: one entry without ID, label or checkout, and an unclaimed sandbox is removed. */
  method BlankListStillSweeps(host: Host, f: Files, p: Inputs, snapshot: seq<Binding>, sb: Sandbox)
    requires p.apply && p.herdr && p.scope == "" && forall n: nat :: !host.oracle(n)
    requires p.sweepListing == Listed([Workspace("", "", "")]) && p.sweepSandboxes == Listed([sb])
             && Unclaimed(f, sb, snapshot)
    modifies host
    ensures host.log == old(host.log) + [Removed(Handle(sb))]
    ensures Blank(p.sweepListing) && forall b: Binding :: WorkspaceExists(p.sweepListing, b)
  {
    assert Collects(f, sb, snapshot, p.sweepListing.items);
    assert [sb][..0] == [];
    assert Removals(f, [sb], snapshot, p.sweepListing.items) == [Removed(Handle(sb))];
    ghost var events := BindinglessStep(host, f, p, snapshot);
    assert events == [Removed(Handle(sb))];
  }
}
