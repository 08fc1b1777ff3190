/**
  The environment of an exec'd process. Every layer is specified by first-match lookup, as in glibc's
  getenv. Starting the process drops all but the last entry of a name, which comes to the same where
  no name is bound twice.
 */
module Env {
  import opened Options
  import opened Text

  function Entry(k: string, v: string): string
  {
    k + "=" + v
  }

  predicate Binds(e: string, k: string)
  {
    HasPrefix(e, k + "=")
  }

  /** The value of the first entry that binds `k`. */
  function Lookup(env: seq<string>, k: string): Option<string>
  {
    if env == [] then None
    else if Binds(env[0], k) then Some(env[0][|k| + 1..])
    else Lookup(env[1..], k)
  }

  function Get(m: map<string, string>, k: string): Option<string>
  {
    if k in m then Some(m[k]) else None
  }

  function Or(a: Option<string>, b: Option<string>): Option<string>
  {
    if a.Some? then a else b
  }

  predicate Name(k: string)
  {
    '=' !in k
  }

  predicate Names(m: map<string, string>)
  {
    forall k | k in m :: Name(k)
  }

  // ----- one override -----

  /** The first entry that binds `k` is overwritten; without one, an entry is appended. */
  function Override(env: seq<string>, k: string, v: string): seq<string>
  {
    if env == [] then [Entry(k, v)]
    else if Binds(env[0], k) then [Entry(k, v)] + env[1..]
    else [env[0]] + Override(env[1..], k, v)
  }

  lemma EntryBinds(k: string, v: string)
    ensures Binds(Entry(k, v), k) && Entry(k, v)[|k| + 1..] == v
  {
  }

  lemma OneName(e: string, j: string, k: string)
    requires Name(j) && Name(k) && Binds(e, j) && Binds(e, k)
    ensures j == k
  {
    assert e[|j|] == (j + "=")[|j|] && e[|k|] == (k + "=")[|k|];
    assert forall i | 0 <= i < |j| :: e[i] == j[i];
    assert forall i | 0 <= i < |k| :: e[i] == k[i];
    assert |j| == |k|;
    assert j == e[..|j|] && k == e[..|k|];
  }

  lemma BindsNeedsEquals(e: string, j: string)
    ensures Binds(e, j) ==> '=' in e
  {
    if Binds(e, j) {
      assert e[|j|] == (j + "=")[|j|];
    }
  }

  lemma {:induction false} OverrideLookup(env: seq<string>, k: string, v: string, j: string)
    requires Name(k) && Name(j)
    ensures Lookup(Override(env, k, v), j) == if j == k then Some(v) else Lookup(env, j)
  {
    EntryBinds(k, v);
    if env == [] || Binds(env[0], k) {
      if Binds(Entry(k, v), j) {
        OneName(Entry(k, v), j, k);
      }
      if env != [] && Binds(env[0], j) {
        OneName(env[0], j, k);
      }
      assert Override(env, k, v)[1..] == if env == [] then [] else env[1..];
    } else {
      OverrideLookup(env[1..], k, v, j);
      assert Override(env, k, v)[1..] == Override(env[1..], k, v);
    }
  }

  /** The override law, as a caller states it. */
  ghost predicate Overrides(k: string, v: string)
  {
    forall env: seq<string>, j: string | Name(j) ::
      Lookup(Override(env, k, v), j) == if j == k then Some(v) else Lookup(env, j)
  }

  /** A name up to its first '='. */
  function Cut(s: string): (r: string)
    requires '=' in s
    ensures Name(r) && Binds(s, r)
  {
    if s[0] == '=' then ""
    else
      assert s[1..] + [] == s[1..] && s == [s[0]] + s[1..];
      [s[0]] + Cut(s[1..])
  }

  /** An override does what it says exactly for keys without '='. */
  lemma OverridesIff(k: string, v: string)
    ensures Overrides(k, v) <==> Name(k)
  {
    if Name(k) {
      forall env: seq<string>, j: string | Name(j)
        ensures Lookup(Override(env, k, v), j) == if j == k then Some(v) else Lookup(env, j)
      {
        OverrideLookup(env, k, v, j);
      }
    } else {
      var j := Cut(k);
      assert Binds(Entry(k, v), j);
      assert Override([], k, v) == [Entry(k, v)];
      assert Lookup([Entry(k, v)], j).Some?;
      assert Lookup([], j) == None;
    }
  }

  lemma {:induction false} OverrideAt(env: seq<string>, k: string, v: string, i: nat)
    requires i <= |env| && forall m | 0 <= m < i :: !Binds(env[m], k)
    ensures i == |env| ==> Override(env, k, v) == env + [Entry(k, v)]
    ensures i < |env| && Binds(env[i], k) ==> Override(env, k, v) == env[i := Entry(k, v)]
  {
    if env != [] && i > 0 {
      OverrideAt(env[1..], k, v, i - 1);
    }
  }

  // ----- every name once -----

  /** No two entries bind one name. */
  predicate BoundOnce(env: seq<string>)
  {
    forall i, j | 0 <= i < j < |env| && '=' in env[i] && '=' in env[j] :: Cut(env[i]) != Cut(env[j])
  }

  /** The value of the last entry that binds `k`, which is what the started process is given. */
  function LastLookup(env: seq<string>, k: string): Option<string>
  {
    if env == [] then None
    else if Binds(env[|env| - 1], k) then Some(env[|env| - 1][|k| + 1..])
    else LastLookup(env[..|env| - 1], k)
  }

  lemma BindsIsCut(e: string, k: string)
    requires Name(k)
    ensures Binds(e, k) <==> '=' in e && Cut(e) == k
  {
    BindsNeedsEquals(e, k);
    if Binds(e, k) {
      OneName(e, k, Cut(e));
    }
  }

  lemma {:induction false} Unbound(env: seq<string>, k: string)
    requires forall e | e in env :: !Binds(e, k)
    ensures Lookup(env, k) == None
  {
    if env != [] {
      Unbound(env[1..], k);
    }
  }

  /** Where no name is bound twice, the process sees the first entry, which is also the last. */
  lemma {:induction false} OnceIsEnough(env: seq<string>, k: string)
    requires BoundOnce(env) && Name(k)
    ensures LastLookup(env, k) == Lookup(env, k)
  {
    if env != [] {
      var n := |env| - 1;
      assert env == env[..n] + [env[n]];
      LookupConcat(env[..n], [env[n]], k);
      if Binds(env[n], k) {
        forall e | e in env[..n]
          ensures !Binds(e, k)
        {
          BindsIsCut(e, k);
          BindsIsCut(env[n], k);
        }
        Unbound(env[..n], k);
      } else {
        OnceIsEnough(env[..n], k);
      }
    }
  }

  /** Overwriting the first entry of `k`, or adding one where there is none, binds no name twice. */
  lemma OverrideBindsOnce(env: seq<string>, k: string, v: string, i: nat)
    requires BoundOnce(env) && Name(k) && i <= |env| && forall m | 0 <= m < i :: !Binds(env[m], k)
    ensures i == |env| ==> BoundOnce(env + [Entry(k, v)])
    ensures i < |env| && Binds(env[i], k) ==> BoundOnce(env[i := Entry(k, v)])
  {
    EntryBinds(k, v);
    BindsIsCut(Entry(k, v), k);
    forall m | 0 <= m < |env|
      ensures Binds(env[m], k) <==> '=' in env[m] && Cut(env[m]) == k
    {
      BindsIsCut(env[m], k);
    }
  }

  lemma EntryName(k: string, v: string)
    requires Name(k)
    ensures '=' in Entry(k, v) && Cut(Entry(k, v)) == k
  {
    EntryBinds(k, v);
    BindsIsCut(Entry(k, v), k);
  }

  /** HOME and PATH always, TMPDIR with a scratch disk, and nothing else. */
  lemma BuiltInValues(scratchDisk: bool, k: string)
    requires Name(k)
    ensures Lookup(BuiltIn(scratchDisk), k)
         == if k == "HOME" then Some("/root")
            else if k == "PATH" then Some("/usr/local/sbin:/usr/local/bin:/usr/sbin:/usr/bin:/sbin:/bin")
            else if k == "TMPDIR" && scratchDisk then Some("/tmp")
            else None
  {
    OnlyName("HOME", "/root", k);
    OnlyName("PATH", DEFAULT_PATH, k);
    OnlyName("TMPDIR", "/tmp", k);
    assert "HOME"[0] == 'H' && "PATH"[0] == 'P' && "TMPDIR"[0] == 'T';
    var tmp := if scratchDisk then [Entry("TMPDIR", "/tmp")] else [];
    assert BuiltIn(scratchDisk) == [Entry("HOME", "/root")] + ([Entry("PATH", DEFAULT_PATH)] + tmp);
    assert BuiltIn(scratchDisk)[1..] == [Entry("PATH", DEFAULT_PATH)] + tmp;
    assert ([Entry("PATH", DEFAULT_PATH)] + tmp)[1..] == tmp;
    assert Lookup(tmp, k) == if k == "TMPDIR" && scratchDisk then Some("/tmp") else None;
  }

  lemma OnlyName(name: string, v: string, k: string)
    requires Name(name) && Name(k)
    ensures Binds(Entry(name, v), k) <==> k == name
    ensures Entry(name, v)[|name| + 1..] == v
  {
    EntryBinds(name, v);
    if Binds(Entry(name, v), k) {
      OneName(Entry(name, v), name, k);
    }
  }

  lemma BuiltInBindsOnce(scratchDisk: bool)
    ensures BoundOnce(BuiltIn(scratchDisk))
  {
    EntryName("HOME", "/root");
    EntryName("PATH", DEFAULT_PATH);
    EntryName("TMPDIR", "/tmp");
    assert "HOME"[0] == 'H' && "PATH"[0] == 'P' && "TMPDIR"[0] == 'T';
    NamesApart(Entry("HOME", "/root"), Entry("PATH", DEFAULT_PATH), Entry("TMPDIR", "/tmp"));
  }

  lemma NamesApart(a: string, b: string, c: string)
    requires '=' in a && '=' in b && '=' in c
    requires Cut(a) != Cut(b) && Cut(a) != Cut(c) && Cut(b) != Cut(c)
    ensures BoundOnce([a, b] + []) && BoundOnce([a, b] + [c])
  {
  }

  // ----- merging a map, in any order -----

  /** The inner loop: find the first entry of `k`, and overwrite it or append. */
  method ReplaceOrAppend(env: seq<string>, k: string, v: string) returns (r: seq<string>)
    ensures r == Override(env, k, v) && |env| <= |r| <= |env| + 1
    ensures Name(k) && BoundOnce(env) ==> BoundOnce(r)
  {
    var i := 0;
    while i < |env| && !Binds(env[i], k)
      invariant i <= |env| && forall m | 0 <= m < i :: !Binds(env[m], k)
    {
      i := i + 1;
    }
    OverrideAt(env, k, v, i);
    if Name(k) && BoundOnce(env) {
      OverrideBindsOnce(env, k, v, i);
    }
    r := if i < |env| then env[i := Entry(k, v)] else env + [Entry(k, v)];
  }

  /** The keys of `extra` that are not in `rest` are merged into `base`. */
  ghost predicate Merged(base: seq<string>, extra: map<string, string>, rest: set<string>, env: seq<string>)
  {
    forall j | Name(j) :: Lookup(env, j) == if j in extra && j !in rest then Some(extra[j]) else Lookup(base, j)
  }

  lemma MergeOne(base: seq<string>, extra: map<string, string>, rest: set<string>, env: seq<string>, k: string)
    requires Names(extra) && k in rest && k in extra && Merged(base, extra, rest, env)
    ensures Merged(base, extra, rest - {k}, Override(env, k, extra[k]))
  {
    forall j | Name(j)
      ensures Lookup(Override(env, k, extra[k]), j)
           == if j in extra && j !in rest - {k} then Some(extra[j]) else Lookup(base, j)
    {
      OverrideLookup(env, k, extra[k], j);
    }
  }

  /** Go ranges over a map in an unspecified order; so does this loop. */
  method MergeEnv(base: seq<string>, extra: map<string, string>) returns (env: seq<string>)
    ensures Names(extra) ==> forall j | Name(j) :: Lookup(env, j) == Or(Get(extra, j), Lookup(base, j))
    ensures Names(extra) && BoundOnce(base) ==> BoundOnce(env)
    ensures |base| <= |env| <= |base| + |extra|
  {
    env := base;
    var rest := extra.Keys;
    while rest != {}
      invariant rest <= extra.Keys
      invariant Names(extra) ==> Merged(base, extra, rest, env)
      invariant Names(extra) && BoundOnce(base) ==> BoundOnce(env)
      invariant |base| <= |env| <= |base| + |extra| - |rest|
      decreases |rest|
    {
      var k :| k in rest;
      if Names(extra) {
        MergeOne(base, extra, rest, env, k);
      }
      env := ReplaceOrAppend(env, k, extra[k]);
      rest := rest - {k};
    }
  }

  /** With a key that holds '=', two iteration orders give two environments. */
  lemma OrderMatters()
    ensures
      var a, b := "A", "A=B";
      var ab := Override(Override([], a, "B=1"), b, "2");
      var ba := Override(Override([], b, "2"), a, "B=1");
      Lookup(ab, a) == Some("B=2") && Lookup(ba, a) == Some("B=1")
  {
    var a, b := "A", "A=B";
    assert Entry(a, "B=1") == "A=B=1" && Entry(b, "2") == "A=B=2";
    assert Override([], a, "B=1") == ["A=B=1"];
    assert Binds("A=B=1", b);
    assert Override(["A=B=1"], b, "2") == ["A=B=2"];
    assert Override([], b, "2") == ["A=B=2"];
    assert Binds("A=B=2", a) && "A=B=2"[2..] == "B=2" && "A=B=1"[2..] == "B=1";
    assert Override(["A=B=2"], a, "B=1") == ["A=B=1"];
  }

  // ----- the layers -----

  /** The first value of each name, as a map. */
  method EnvToMap(env: seq<string>) returns (m: map<string, string>)
    ensures Names(m)
    ensures forall j | Name(j) :: Get(m, j) == Lookup(env, j)
  {
    m := map[];
    for i := 0 to |env|
      invariant Names(m)
      invariant forall j | Name(j) :: Get(m, j) == Lookup(env[..i], j)
    {
      forall j
        ensures Lookup(env[..i + 1], j) == Or(Lookup(env[..i], j), Lookup([env[i]], j))
      {
        assert env[..i + 1] == env[..i] + [env[i]];
        LookupConcat(env[..i], [env[i]], j);
      }
      if '=' !in env[i] {
        forall j
          ensures Lookup([env[i]], j) == None
        {
          BindsNeedsEquals(env[i], j);
        }
        continue;
      }
      var k := Cut(env[i]);
      forall j | Name(j)
        ensures Lookup([env[i]], j) == if j == k then Some(env[i][|k| + 1..]) else None
      {
        if Binds(env[i], j) {
          OneName(env[i], j, k);
        }
      }
      if k !in m {
        m := m[k := env[i][|k| + 1..]];
      }
    }
    assert env[..|env|] == env;
  }

  lemma {:induction false} LookupConcat(a: seq<string>, b: seq<string>, j: string)
    ensures Lookup(a + b, j) == Or(Lookup(a, j), Lookup(b, j))
  {
    if a == [] {
      assert a + b == b;
    } else {
      assert (a + b)[1..] == a[1..] + b;
      LookupConcat(a[1..], b, j);
    }
  }

  lemma {:induction false} LookupMember(env: seq<string>, e: string, j: string)
    requires e in env && Binds(e, j)
    ensures Lookup(env, j).Some?
  {
    if !Binds(env[0], j) {
      LookupMember(env[1..], e, j);
    }
  }

  function Flatten(lists: seq<seq<string>>): seq<string>
  {
    if lists == [] then [] else Flatten(lists[..|lists| - 1]) + lists[|lists| - 1]
  }

  /** The add closure of bootSpecEnv: exact duplicates are dropped, which no lookup can see. */
  method AddPairs(env: seq<string>, pairs: seq<string>) returns (out: seq<string>)
    requires forall i, j | 0 <= i < j < |env| :: env[i] != env[j]
    ensures forall i, j | 0 <= i < j < |out| :: out[i] != out[j]
    ensures forall j :: Lookup(out, j) == Lookup(env + pairs, j)
  {
    out := env;
    assert env + pairs[..0] == env;
    for i := 0 to |pairs|
      invariant forall a, b | 0 <= a < b < |out| :: out[a] != out[b]
      invariant forall j :: Lookup(out, j) == Lookup(env + pairs[..i], j)
    {
      forall j
        ensures Lookup(env + pairs[..i + 1], j) == Or(Lookup(out, j), Lookup([pairs[i]], j))
        ensures Lookup(out + [pairs[i]], j) == Or(Lookup(out, j), Lookup([pairs[i]], j))
        ensures pairs[i] in out && Lookup([pairs[i]], j).Some? ==> Lookup(out, j).Some?
      {
        assert env + pairs[..i + 1] == env + pairs[..i] + [pairs[i]];
        LookupConcat(env + pairs[..i], [pairs[i]], j);
        LookupConcat(out, [pairs[i]], j);
        if pairs[i] in out && Binds(pairs[i], j) {
          LookupMember(out, pairs[i], j);
        }
      }
      if pairs[i] !in out {
        out := out + [pairs[i]];
      }
    }
    assert pairs[..|pairs|] == pairs;
  }

  /** The image-wide entries first, then each task's, in task order. */
  method BootSpecEnv(specEnv: seq<string>, taskEnvs: seq<seq<string>>) returns (env: seq<string>)
    ensures forall i, j | 0 <= i < j < |env| :: env[i] != env[j]
    ensures forall j :: Lookup(env, j) == Lookup(specEnv + Flatten(taskEnvs), j)
  {
    env := AddPairs([], specEnv);
    assert [] + specEnv == specEnv + Flatten(taskEnvs[..0]);
    for i := 0 to |taskEnvs|
      invariant forall a, b | 0 <= a < b < |env| :: env[a] != env[b]
      invariant forall j :: Lookup(env, j) == Lookup(specEnv + Flatten(taskEnvs[..i]), j)
    {
      ghost var before := env;
      env := AddPairs(env, taskEnvs[i]);
      forall j
        ensures Lookup(env, j) == Lookup(specEnv + Flatten(taskEnvs[..i + 1]), j)
      {
        LookupConcat(before, taskEnvs[i], j);
        LookupConcat(specEnv + Flatten(taskEnvs[..i]), taskEnvs[i], j);
        assert taskEnvs[..i + 1][..i] == taskEnvs[..i];
        assert specEnv + Flatten(taskEnvs[..i + 1]) == specEnv + Flatten(taskEnvs[..i]) + taskEnvs[i];
      }
    }
    assert taskEnvs[..|taskEnvs|] == taskEnvs;
  }

  /** hostuid.env: the last line that binds a non-empty name wins. */
  method ReadHostUID(lines: seq<string>) returns (m: map<string, string>)
    ensures Names(m) && "" !in m
    ensures forall k :: Get(m, k) == LastOf(lines, k)
  {
    m := map[];
    for i := 0 to |lines|
      invariant Names(m) && "" !in m
      invariant forall k :: Get(m, k) == LastOf(lines[..i], k)
    {
      assert lines[..i + 1][..i] == lines[..i];
      if '=' in lines[i] && Cut(lines[i]) != "" {
        m := m[Cut(lines[i]) := lines[i][|Cut(lines[i])| + 1..]];
      }
    }
    assert lines[..|lines|] == lines;
  }

  function LastOf(lines: seq<string>, k: string): Option<string>
  {
    if lines == [] then None
    else
      var e := lines[|lines| - 1];
      if k != "" && '=' in e && Cut(e) == k then Some(e[|k| + 1..])
      else LastOf(lines[..|lines| - 1], k)
  }

  const DEFAULT_PATH := "/usr/local/sbin:/usr/local/bin:/usr/sbin:/usr/bin:/sbin:/bin"

  function BuiltIn(scratchDisk: bool): seq<string>
  {
    [Entry("HOME", "/root"), Entry("PATH", DEFAULT_PATH)] + if scratchDisk then [Entry("TMPDIR", "/tmp")] else []
  }

  method GuestBaselineEnv(scratchDisk: bool, etcLines: seq<string>, hostUIDLines: seq<string>)
    returns (env: seq<string>)
    ensures BoundOnce(env)
    ensures forall j | Name(j) ::
              Lookup(env, j)
              == Or(LastOf(hostUIDLines, j), Or(EtcValue(etcLines, j), Lookup(BuiltIn(scratchDisk), j)))
  {
    BuiltInBindsOnce(scratchDisk);
    var etc := ReadEtcEnvironment(etcLines);
    var etcMap := EnvToMap(etc);
    env := MergeEnv(BuiltIn(scratchDisk), etcMap);
    var hostUID := ReadHostUID(hostUIDLines);
    if |hostUID| > 0 {
      env := MergeEnv(env, hostUID);
    } else {
      assert hostUID == map[];
      assert forall j :: Get(hostUID, j) == LastOf(hostUIDLines, j);
    }
  }

  /**
    Exec's environment, for every iteration order: the request over the image over the host UID over
    /etc/environment over the built-in defaults. An unreadable file has no lines; a request key
    with '=' in it gives no such promise.
   */
  method ExecEnv(scratchDisk: bool, etcLines: seq<string>, hostUIDLines: seq<string>, specEnv: seq<string>,
                 taskEnvs: seq<seq<string>>, request: map<string, string>) returns (env: seq<string>)
    ensures Names(request) ==> BoundOnce(env)
    ensures Names(request) ==>
              forall j | Name(j) ::
                Lookup(env, j) == LastLookup(env, j)
                == Or(Get(request, j),
                      Or(Lookup(specEnv + Flatten(taskEnvs), j),
                         Or(LastOf(hostUIDLines, j),
                            Or(EtcValue(etcLines, j), Lookup(BuiltIn(scratchDisk), j)))))
  {
    var base := GuestBaselineEnv(scratchDisk, etcLines, hostUIDLines);
    var image := BootSpecEnv(specEnv, taskEnvs);
    var imageMap := EnvToMap(image);
    env := MergeEnv(base, imageMap);
    env := MergeEnv(env, request);
    if Names(request) {
      forall j | Name(j)
        ensures LastLookup(env, j) == Lookup(env, j)
      {
        OnceIsEnough(env, j);
      }
    }
  }

  /** A session with a terminal gets its TERM appended. */
  function WithTerm(env: seq<string>, term: string): seq<string>
  {
    if term != "" then env + [Entry("TERM", term)] else env
  }

  /**
    What the process is given is the terminal's TERM over all layers, and everything else as before,
    although then TERM may be bound twice: exactly if some layer bound it.
   */
  lemma TermWins(env: seq<string>, term: string, j: string)
    requires BoundOnce(env) && Name(j)
    ensures LastLookup(WithTerm(env, term), j) == if term != "" && j == "TERM" then Some(term) else LastLookup(env, j)
    ensures BoundOnce(WithTerm(env, term)) <==> term == "" || Lookup(env, "TERM") == None
  {
    EntryName("TERM", term);
    if term != "" {
      LastAdded(env, "TERM", term, j);
      TermTwiceIff(env, term);
    }
  }

  lemma LastAdded(env: seq<string>, k: string, v: string, j: string)
    requires Name(j) && Name(k)
    ensures LastLookup(env + [Entry(k, v)], j) == if j == k then Some(v) else LastLookup(env, j)
  {
    EntryBinds(k, v);
    assert (env + [Entry(k, v)])[..|env|] == env;
    if Binds(Entry(k, v), j) {
      OneName(Entry(k, v), j, k);
    }
  }

  lemma TermTwiceIff(env: seq<string>, term: string)
    requires BoundOnce(env)
    ensures BoundOnce(env + [Entry("TERM", term)]) <==> Lookup(env, "TERM") == None
  {
    EntryName("TERM", term);
    if forall e | e in env :: !Binds(e, "TERM") {
      Unbound(env, "TERM");
      OverrideBindsOnce(env, "TERM", term, |env|);
    } else {
      var i :| 0 <= i < |env| && Binds(env[i], "TERM");
      LookupMember(env, env[i], "TERM");
      BindsIsCut(env[i], "TERM");
      var r := env + [Entry("TERM", term)];
      assert r[i] == env[i] && r[|env|] == Entry("TERM", term);
    }
  }

  // ----- /etc/environment -----

  function UnquoteEnvValue(v: string): (r: string)
    ensures r == v || exists q: char | q == '"' || q == '\'' :: v == [q] + r + [q]
    ensures forall q, inner | (q == '"' || q == '\'') && v == [q] + inner + [q] :: r == inner
  {
    if |v| >= 2 && (v[0] == '"' || v[0] == '\'') && v[|v| - 1] == v[0] then
      var r := v[1..|v| - 1];
      assert v == [v[0]] + r + [v[0]];
      r
    else v
  }

  predicate Assigns(line: string)
  {
    var s := TrimSpace(line);
    s != "" && s[0] != '#' && '=' in s
  }

  /** The value the first binding line of the file gives `k`, once trimmed and unquoted. */
  function EtcValue(lines: seq<string>, k: string): Option<string>
  {
    if lines == [] then None
    else if Assigns(lines[0]) && Cut(TrimSpace(lines[0])) == k then
      Some(UnquoteEnvValue(TrimSpace(lines[0])[|k| + 1..]))
    else EtcValue(lines[1..], k)
  }

  /** The entry a line becomes. */
  function EtcEntry(line: string): string
    requires Assigns(line)
  {
    var s := TrimSpace(line);
    Entry(Cut(s), UnquoteEnvValue(s[|Cut(s)| + 1..]))
  }

  lemma EtcLine(line: string, k: string)
    requires Name(k)
    ensures EtcValue([line], k) == if Assigns(line) then Lookup([EtcEntry(line)], k) else None
  {
    assert [line][1..] == [];
    if Assigns(line) {
      var s := TrimSpace(line);
      EntryBinds(Cut(s), UnquoteEnvValue(s[|Cut(s)| + 1..]));
      if Binds(EtcEntry(line), k) {
        OneName(EtcEntry(line), k, Cut(s));
      }
    }
  }

  /** A comment binds nothing, whatever it holds; nor does a line without '='. */
  lemma CommentBindsNothing(line: string, k: string)
    requires HasPrefix(TrimSpace(line), "#") || '=' !in TrimSpace(line)
    ensures EtcValue([line], k) == None
  {
    assert [line][1..] == [];
    assert HasPrefix(TrimSpace(line), "#") ==> TrimSpace(line)[0] == "#"[0];
  }

  /** A plain assignment binds its name to its value. */
  lemma PlainLineBinds(k: string, v: string)
    requires Name(k) && k != "" && k[0] != '#' && !Space(k[0]) && (v == "" || !Space(v[|v| - 1]))
    ensures EtcValue([Entry(k, v)], k) == Some(UnquoteEnvValue(v))
  {
    var line := Entry(k, v);
    assert line[0] == k[0] && line[|k|] == '=' && (v != "" ==> line[|line| - 1] == v[|v| - 1]);
    assert TrimSpace(line) == line;
    EntryBinds(k, v);
    OneName(line, Cut(line), k);
  }

  /** The entries read from `lines` bind what the lines do. */
  ghost predicate Reads(lines: seq<string>, env: seq<string>)
  {
    forall k | Name(k) :: Lookup(env, k) == EtcValue(lines, k)
  }

  lemma ReadOne(lines: seq<string>, env: seq<string>, line: string)
    requires Reads(lines, env)
    ensures Reads(lines + [line], if Assigns(line) then env + [EtcEntry(line)] else env)
  {
    forall k | Name(k)
      ensures Lookup(if Assigns(line) then env + [EtcEntry(line)] else env, k) == EtcValue(lines + [line], k)
    {
      EtcConcat(lines, [line], k);
      EtcLine(line, k);
      if Assigns(line) {
        LookupConcat(env, [EtcEntry(line)], k);
      }
    }
  }

  method ReadEtcEnvironment(lines: seq<string>) returns (env: seq<string>)
    ensures forall k | Name(k) :: Lookup(env, k) == EtcValue(lines, k)
  {
    env := [];
    for i := 0 to |lines|
      invariant Reads(lines[..i], env)
    {
      ReadOne(lines[..i], env, lines[i]);
      assert lines[..i + 1] == lines[..i] + [lines[i]];
      if Assigns(lines[i]) {
        env := env + [EtcEntry(lines[i])];
      }
    }
    assert lines[..|lines|] == lines;
  }

  lemma {:induction false} EtcConcat(a: seq<string>, b: seq<string>, k: string)
    ensures EtcValue(a + b, k) == Or(EtcValue(a, k), EtcValue(b, k))
  {
    if a == [] {
      assert a + b == b;
    } else {
      assert (a + b)[1..] == a[1..] + b;
      EtcConcat(a[1..], b, k);
    }
  }
}
