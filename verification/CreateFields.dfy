/** `sandbox create` options one by one: which values are accepted, and which field each option sets. */
module CreateFields {
  import opened CreateArgs
  import opened Flags
  import opened Options
  import opened Text

  // ----- which lists are accepted -----

  predicate IsNumber(k: Flag)
  {
    k == Memory || k == Vcpus || k == MemoryMax || k == VcpusMax || k == DiskMax || k == BuilderMemory
  }

  /** A value its flag can take. */
  predicate Usable(lib: Library, k: Flag, value: string)
  {
    && (k == Agent ==> lib.knownAgent(value))
    && (k == Repo ==> '/' in value)
    && (k == PolicyJSON ==> lib.decode(value).Some? && forall key | key in lib.decode(value).value.keys :: key == "")
    && (k == Egress ==> value == "open" || value == "closed")
    && (k == Label ==> '=' in value && value[0] != '=')
    && (k == CaptureMax ==> lib.bytes(value).Some?)
    && (IsNumber(k) ==> lib.number(value).Some?)
    && (k == BuilderMemory ==> lib.number(value) == Some(0) || lib.number(value).value >= 1024)
  }

  predicate AllUsable(lib: Library, groups: seq<Group>)
  {
    forall i | 0 <= i < |groups| && groups[i].Valued? :: Usable(lib, groups[i].flag, groups[i].value)
  }

  /** A label is cut at its first '='. */
  lemma {:induction false} CutAt(value: string)
    ensures var parts := SplitN(value, '=', 2);
            |parts| == 2 && parts[0] != "" <==> '=' in value && value[0] != '='
    ensures '=' in value ==> |SplitN(value, '=', 2)| == 2
  {
    if value != "" && value[0] != '=' {
      CutAt(value[1..]);
      if '=' in value {
        assert '=' in value[1..];
      }
    }
  }

  lemma AppliesIff(lib: Library, f: CreateFlags, g: Group)
    requires WellFormed(g)
    ensures Apply(lib, f, g).Some? <==> g.Valued? ==> Usable(lib, g.flag, g.value)
  {
    if g.Valued? && g.flag == Label {
      CutAt(g.value);
    }
  }

  lemma {:induction false} MeansIff(lib: Library, f: CreateFlags, groups: seq<Group>)
    requires AllWellFormed(groups)
    ensures Meaning(lib, f, groups).Some? <==> AllUsable(lib, groups)
    decreases |groups|
  {
    if groups != [] {
      AppliesIff(lib, f, groups[0]);
      if Apply(lib, f, groups[0]).Some? {
        MeansIff(lib, Apply(lib, f, groups[0]).value, groups[1..]);
        assert AllUsable(lib, groups) <==> AllUsable(lib, groups[1..]) by {
          assert forall i | 0 <= i < |groups| - 1 :: groups[1..][i] == groups[i + 1];
          assert forall i | 0 < i < |groups| :: groups[i] == groups[1..][i - 1];
        }
      }
    }
  }

  /** No ceiling is below what is asked for, and a closed egress has a repository to open for. */
  predicate Sensible(f: CreateFlags)
  {
    && (f.memoryMaxMiB == 0 || f.memoryMiB <= f.memoryMaxMiB)
    && (f.vcpusMax == 0 || f.vcpus <= f.vcpusMax)
    && (f.egressClosed ==> f.allowedRepo != "")
  }

  /** A list is accepted exactly when every value is one its flag can take, and together they make sense. */
  lemma AcceptedIff(lib: Library, groups: seq<Group>)
    requires AllWellFormed(groups)
    ensures Meaning(lib, NO_FLAGS, groups).Some? <==> AllUsable(lib, groups)
    ensures ParsedArgs(lib, PrintAll(groups)).Some?
       <==> AllUsable(lib, groups) && Sensible(Meaning(lib, NO_FLAGS, groups).value)
  {
    ParsePrinted(lib, NO_FLAGS, groups);
    MeansIff(lib, NO_FLAGS, groups);
  }

  lemma {:induction false} ParsePrefix(lib: Library, f: CreateFlags, groups: seq<Group>, rest: seq<string>)
    requires AllWellFormed(groups)
    ensures ParseFrom(lib, f, PrintAll(groups) + rest)
         == if Meaning(lib, f, groups).None? then None else ParseFrom(lib, Meaning(lib, f, groups).value, rest)
    decreases |groups|
  {
    if groups == [] {
      assert PrintAll(groups) + rest == rest;
    } else {
      assert PrintAll(groups) + rest == Print(groups[0]) + (PrintAll(groups[1..]) + rest);
      ParseOne(lib, f, groups[0], PrintAll(groups[1..]) + rest);
      var g := Apply(lib, f, groups[0]);
      if g.Some? {
        ParsePrefix(lib, g.value, groups[1..], rest);
      }
    }
  }

  /** After whatever list: a flag that takes a value and has none is refused, and so is what looks like a flag. */
  lemma IsRefused(lib: Library, groups: seq<Group>, k: Flag, arg: string, rest: seq<string>)
    requires AllWellFormed(groups)
    ensures !IsSwitch(k) ==> ParsedArgs(lib, PrintAll(groups) + [Spelling(k)]) == None
    ensures Recognise(arg) == Unknown ==> ParsedArgs(lib, PrintAll(groups) + ([arg] + rest)) == None
  {
    SpelledFlag(k);
    ParsePrefix(lib, NO_FLAGS, groups, [Spelling(k)]);
    ParsePrefix(lib, NO_FLAGS, groups, [arg] + rest);
  }

  // ----- which field each option sets, every other field staying as it is -----

  /** Texts are replaced. */
  lemma TextFlags(lib: Library, f: CreateFlags, v: string)
    ensures Apply(lib, f, Valued(Image, v)) == Some(f.(imageRef := v))
    ensures Apply(lib, f, Valued(Rootfs, v)) == Some(f.(rootfsPath := v))
    ensures Apply(lib, f, Valued(File, v)) == Some(f.(filePath := v))
    ensures Apply(lib, f, Valued(Dockerfile, v)) == Some(f.(dockerfilePath := v))
    ensures Apply(lib, f, Valued(Workspace, v)) == Some(f.(workspacePath := v))
    ensures lib.knownAgent(v) ==> Apply(lib, f, Valued(Agent, v)) == Some(f.(agentName := v))
    ensures '/' in v ==> Apply(lib, f, Valued(Repo, v)) == Some(f.(allowedRepo := v))
  {
  }

  /** Lists grow at the end. */
  lemma ListFlags(lib: Library, f: CreateFlags, v: string)
    ensures Apply(lib, f, Valued(Secret, v)) == Some(f.(secrets := f.secrets + [v]))
    ensures Apply(lib, f, Valued(AllowHost, v)) == Some(f.(allowHosts := f.allowHosts + [v]))
    ensures Apply(lib, f, Valued(MountNamed, v)) == Some(f.(mountNamed := f.mountNamed + [v]))
    ensures Apply(lib, f, Valued(Mount, v)) == Some(f.(mountLive := f.mountLive + [v]))
    ensures Apply(lib, f, Word(v)) == Some(f.(positionals := f.positionals + [v]))
  {
  }

  /** Numbers are replaced; the builder's memory is 0 or at least 1024. */
  lemma NumberFlags(lib: Library, f: CreateFlags, v: string, n: nat)
    requires lib.number(v) == Some(n)
    ensures Apply(lib, f, Valued(Memory, v)) == Some(f.(memoryMiB := n))
    ensures Apply(lib, f, Valued(Vcpus, v)) == Some(f.(vcpus := n))
    ensures Apply(lib, f, Valued(MemoryMax, v)) == Some(f.(memoryMaxMiB := n))
    ensures Apply(lib, f, Valued(VcpusMax, v)) == Some(f.(vcpusMax := n))
    ensures Apply(lib, f, Valued(DiskMax, v)) == Some(f.(diskMaxGiB := n))
    ensures n == 0 || n >= 1024 ==> Apply(lib, f, Valued(BuilderMemory, v)) == Some(f.(builderMemoryMiB := n))
  {
  }

  lemma SwitchFlags(lib: Library, f: CreateFlags)
    ensures Apply(lib, f, Switch(Rm)) == Some(f.(rm := true))
    ensures Apply(lib, f, Switch(Force)) == Some(f.(force := true))
    ensures Apply(lib, f, Switch(Nested)) == Some(f.(nested := true))
    ensures Apply(lib, f, Switch(NoShareSettings)) == Some(f.(noShareSettings := true))
    ensures Apply(lib, f, Switch(NoUserMounts)) == Some(f.(noUserMounts := true))
  {
  }

  /** One label, by its key. */
  lemma LabelFlag(lib: Library, f: CreateFlags, key: string, v: string)
    requires key != "" && '=' !in key
    ensures Apply(lib, f, Valued(Label, key + "=" + v)) == Some(f.(labels := f.labels[key := v]))
  {
    SplitNCut(key, '=', v, 2);
  }

  /** The egress mode, the policies and the capture limit. */
  lemma OtherFlags(lib: Library, f: CreateFlags, v: string, pp: Policies, n: int)
    ensures Apply(lib, f, Valued(Egress, "open")) == Some(f.(egressExplicit := true, egressClosed := false))
    ensures Apply(lib, f, Valued(Egress, "closed")) == Some(f.(egressExplicit := true, egressClosed := true))
    ensures lib.decode(v) == Some(pp) && (forall k | k in pp.keys :: k == "") ==>
              Apply(lib, f, Valued(PolicyJSON, v)) == Some(f.(policies := Some(pp)))
    ensures lib.bytes(v) == Some(n) ==> Apply(lib, f, Valued(CaptureMax, v)) == Some(f.(captureMaxBytes := n))
  {
    assert |"open"| != |"closed"|;
  }
}
