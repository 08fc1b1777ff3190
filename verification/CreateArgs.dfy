/**
  The `sandbox create` subprocess: the argument list the worktree flow builds, and the parser on
  the other side of the process boundary.
 */
module CreateArgs {
  import opened Flags
  import opened Names
  import opened Options
  import opened Text
  import opened Volumes

  /** Egress policies by placeholder key; the rules are whatever the JSON codec carries. */
  datatype Policies = Policies(keys: set<string>, rules: string)

  /** Library calls: number and size parsing, the agent registry, the JSON codec. */
  datatype Library = Library(number: string -> Option<nat>, bytes: string -> Option<int>, knownAgent: string -> bool,
                             encode: Policies -> Option<string>, decode: string -> Option<Policies>)

  datatype CreateFlags = CreateFlags(
    rm: bool, force: bool, imageRef: string, rootfsPath: string, filePath: string, dockerfilePath: string,
    memoryMiB: nat, vcpus: nat, labels: map<string, string>, nested: bool, workspacePath: string, captureMaxBytes: int,
    memoryMaxMiB: nat, vcpusMax: nat, diskMaxGiB: nat, builderMemoryMiB: nat, secrets: seq<string>, egressClosed: bool,
    egressExplicit: bool, agentName: string, allowHosts: seq<string>, allowedRepo: string, policies: Option<Policies>,
    mountNamed: seq<string>, mountLive: seq<string>, noShareSettings: bool, noUserMounts: bool,
    positionals: seq<string>)

  const NO_FLAGS := CreateFlags(false, false, "", "", "", "", 0, 0, map[], false, "", 0, 0, 0, 0, 0, [], false, false,
                                "", [], "", None, [], [], false, false, [])

  // ----- the parser -----

  function SetSwitch(f: CreateFlags, k: Flag): CreateFlags
  {
    match k
    case Rm => f.(rm := true)
    case Force => f.(force := true)
    case Nested => f.(nested := true)
    case NoShareSettings => f.(noShareSettings := true)
    case NoUserMounts => f.(noUserMounts := true)
    case _ => f
  }

  /** A flag with its value; None is a usage error. */
  function SetValue(lib: Library, f: CreateFlags, k: Flag, value: string): Option<CreateFlags>
  {
    match k
    case Image => Some(f.(imageRef := value))
    case Rootfs => Some(f.(rootfsPath := value))
    case File => Some(f.(filePath := value))
    case Dockerfile => Some(f.(dockerfilePath := value))
    case Workspace => Some(f.(workspacePath := value))
    case Secret => Some(f.(secrets := f.secrets + [value]))
    case AllowHost => Some(f.(allowHosts := f.allowHosts + [value]))
    case MountNamed => Some(f.(mountNamed := f.mountNamed + [value]))
    case Mount => Some(f.(mountLive := f.mountLive + [value]))
    case Agent => if lib.knownAgent(value) then Some(f.(agentName := value)) else None
    case Repo => if '/' in value then Some(f.(allowedRepo := value)) else None
    case PolicyJSON =>
      var pp := lib.decode(value);
      if pp.None? || exists key | key in pp.value.keys :: key != "" then None else Some(f.(policies := pp))
    case Egress =>
      if value == "open" then Some(f.(egressExplicit := true, egressClosed := false))
      else if value == "closed" then Some(f.(egressExplicit := true, egressClosed := true))
      else None
    case Label =>
      var parts := SplitN(value, '=', 2);
      if |parts| < 2 || parts[0] == "" then None else Some(f.(labels := f.labels[parts[0] := parts[1]]))
    case CaptureMax =>
      var n := lib.bytes(value);
      if n.None? then None else Some(f.(captureMaxBytes := n.value))
    case _ =>
      var n := lib.number(value);
      if n.None? then None else SetNumber(f, k, n.value)
  }

  function SetNumber(f: CreateFlags, k: Flag, n: nat): Option<CreateFlags>
  {
    match k
    case Memory => Some(f.(memoryMiB := n))
    case Vcpus => Some(f.(vcpus := n))
    case MemoryMax => Some(f.(memoryMaxMiB := n))
    case VcpusMax => Some(f.(vcpusMax := n))
    case DiskMax => Some(f.(diskMaxGiB := n))
    case BuilderMemory => if 0 < n < 1024 then None else Some(f.(builderMemoryMiB := n))
    case _ => None
  }

  function ParseFrom(lib: Library, f: CreateFlags, args: seq<string>): Option<CreateFlags>
    decreases |args|
  {
    if args == [] then Some(f)
    else
      match Recognise(args[0])
      case Unknown => None
      case Positional => ParseFrom(lib, f.(positionals := f.positionals + [args[0]]), args[1..])
      case Known(k) =>
        if IsSwitch(k) then ParseFrom(lib, SetSwitch(f, k), args[1..])
        else if |args| < 2 then None
        else
          var g := SetValue(lib, f, k, args[1]);
          if g.None? then None else ParseFrom(lib, g.value, args[2..])
  }

  /** The checks after the loop. */
  predicate Consistent(f: CreateFlags)
  {
    && !(f.memoryMaxMiB > 0 && f.memoryMiB > 0 && f.memoryMaxMiB < f.memoryMiB)
    && !(f.vcpusMax > 0 && f.vcpus > 0 && f.vcpusMax < f.vcpus)
    && !(f.egressClosed && f.allowedRepo == "")
  }

  function ParsedArgs(lib: Library, args: seq<string>): Option<CreateFlags>
  {
    var f := ParseFrom(lib, NO_FLAGS, args);
    if f.Some? && Consistent(f.value) then f else None
  }

  method ParseSandboxCreateArgs(lib: Library, args: seq<string>) returns (r: Option<CreateFlags>)
    ensures r == ParsedArgs(lib, args)
  {
    var f := NO_FLAGS;
    var i := 0;
    while i < |args|
      invariant 0 <= i <= |args|
      invariant ParseFrom(lib, NO_FLAGS, args) == ParseFrom(lib, f, args[i..])
    {
      var arg := args[i];
      assert args[i..][1..] == args[i + 1..];
      match Recognise(arg) {
        case Unknown => return None;
        case Positional => f := f.(positionals := f.positionals + [arg]);
        case Known(k) =>
          if IsSwitch(k) {
            f := SetSwitch(f, k);
          } else {
            if i + 1 >= |args| {
              return None;
            }
            assert args[i..][2..] == args[i + 2..];
            i := i + 1;
            var g := SetValue(lib, f, k, args[i]);
            if g.None? {
              return None;
            }
            f := g.value;
          }
      }
      i := i + 1;
    }
    return if Consistent(f) then Some(f) else None;
  }

  // ----- printing and parsing in general -----

  /** What an argument list is made of. */
  datatype Group = Valued(flag: Flag, value: string) | Switch(flag: Flag) | Word(text: string)

  function Print(g: Group): seq<string>
  {
    match g
    case Valued(k, value) => [Spelling(k), value]
    case Switch(k) => [Spelling(k)]
    case Word(text) => [text]
  }

  function PrintAll(groups: seq<Group>): seq<string>
  {
    if groups == [] then [] else Print(groups[0]) + PrintAll(groups[1..])
  }

  predicate WellFormed(g: Group)
  {
    match g
    case Valued(k, _) => !IsSwitch(k)
    case Switch(k) => IsSwitch(k)
    case Word(text) => text == "" || text[0] != '-'
  }

  predicate AllWellFormed(groups: seq<Group>)
  {
    forall i | 0 <= i < |groups| :: WellFormed(groups[i])
  }

  function Apply(lib: Library, f: CreateFlags, g: Group): Option<CreateFlags>
  {
    match g
    case Valued(k, value) => SetValue(lib, f, k, value)
    case Switch(k) => Some(SetSwitch(f, k))
    case Word(text) => Some(f.(positionals := f.positionals + [text]))
  }

  /** What the groups mean, one after the other. */
  function Meaning(lib: Library, f: CreateFlags, groups: seq<Group>): Option<CreateFlags>
    decreases |groups|
  {
    if groups == [] then Some(f)
    else
      var g := Apply(lib, f, groups[0]);
      if g.None? then None else Meaning(lib, g.value, groups[1..])
  }

  lemma ParseOne(lib: Library, f: CreateFlags, g: Group, rest: seq<string>)
    requires WellFormed(g)
    ensures ParseFrom(lib, f, Print(g) + rest)
         == if Apply(lib, f, g).None? then None else ParseFrom(lib, Apply(lib, f, g).value, rest)
  {
    var args := Print(g) + rest;
    match g {
      case Valued(k, value) =>
        SpelledFlag(k);
        assert args[0] == Spelling(k) && args[1] == value && args[2..] == rest;
      case Switch(k) =>
        SpelledFlag(k);
        assert args[0] == Spelling(k) && args[1..] == rest;
      case Word(text) =>
        PlainWord(text);
        assert args[0] == text && args[1..] == rest;
    }
  }

  /** Any list of options and words means what was printed, values that look like flags included. */
  lemma {:induction false} ParsePrinted(lib: Library, f: CreateFlags, groups: seq<Group>)
    requires AllWellFormed(groups)
    ensures ParseFrom(lib, f, PrintAll(groups)) == Meaning(lib, f, groups)
    decreases |groups|
  {
    if groups != [] {
      ParseOne(lib, f, groups[0], PrintAll(groups[1..]));
      var g := Apply(lib, f, groups[0]);
      if g.Some? {
        ParsePrinted(lib, g.value, groups[1..]);
      }
    }
  }

  lemma {:induction false} MeaningConcat(lib: Library, f: CreateFlags, a: seq<Group>, b: seq<Group>)
    ensures Meaning(lib, f, a + b)
         == if Meaning(lib, f, a).None? then None else Meaning(lib, Meaning(lib, f, a).value, b)
    decreases |a|
  {
    if a == [] {
      assert a + b == b;
    } else {
      assert (a + b)[1..] == a[1..] + b;
      var g := Apply(lib, f, a[0]);
      if g.Some? {
        MeaningConcat(lib, g.value, a[1..], b);
      }
    }
  }

  lemma {:induction false} PrintConcat(a: seq<Group>, b: seq<Group>)
    ensures PrintAll(a + b) == PrintAll(a) + PrintAll(b)
  {
    if a == [] {
      assert a + b == b;
    } else {
      assert (a + b)[1..] == a[1..] + b;
      PrintConcat(a[1..], b);
    }
  }

  // ----- the worktree flow's arguments -----

  datatype ImageSource = FromImage(ref: string) | FromFile(path: string)

  datatype Spec = Spec(handle: string, image: ImageSource, mountSpec: string, extraMounts: seq<string>,
                       secrets: seq<string>,
                       allowedRepo: string, policies: Policies, nested: bool, agent: string)

  function AllValued(k: Flag, values: seq<string>): seq<Group>
  {
    seq(|values|, i requires 0 <= i < |values| => Valued(k, values[i]))
  }

  /** The volumes of a worktree sandbox, with their sizes in GiB. */
  datatype VolumePlan = VolumePlan(name: string, guestPath: string, gib: nat)

  function EarlyVolumes(s: Spec): seq<VolumePlan>
  {
    (if s.image.FromFile? then [VolumePlan(Slug(s.handle) + "-docker", "/var/lib/docker", 20)] else [])
    + [VolumePlan(Slug(s.handle) + "-agentcfg", "/var/lib/nexus/agentcfg", 2),
       VolumePlan(Slug(s.handle) + "-gocache", "/root/.cache", 10),
       VolumePlan(Slug(s.handle) + "-gopath", "/root/go", 10)]
  }

  function NestedVolumes(s: Spec): seq<VolumePlan>
  {
    if s.nested then [VolumePlan(Slug(s.handle) + "-nexusstate", "/root/.local/state/nexus", 24)] else []
  }

  function VolumeSpecs(plans: seq<VolumePlan>): seq<string>
  {
    seq(|plans|, i requires 0 <= i < |plans| => SizedSpec(plans[i].name, plans[i].guestPath, plans[i].gib))
  }

  /** The policy text on the command line, if one is sent. */
  function PolicyText(lib: Library, s: Spec): Option<string>
  {
    if s.policies.keys == {} then None else lib.encode(s.policies)
  }

  function Head(s: Spec): seq<Group>
  {
    [if s.image.FromFile? then Valued(File, s.image.path) else Valued(Image, s.image.ref), Valued(Mount, s.mountSpec)]
  }

  function Optional(lib: Library, s: Spec): seq<Group>
  {
    (if s.allowedRepo != "" then [Valued(Repo, s.allowedRepo)] else [])
    + (if PolicyText(lib, s).Some? then [Valued(PolicyJSON, PolicyText(lib, s).value)] else [])
    + (if s.nested then [Switch(Nested)] else [])
  }

  function Tail(s: Spec): seq<Group>
  {
    [Valued(Agent, s.agent), Valued(Egress, "open"), Word(s.handle)]
  }

  function Groups(lib: Library, s: Spec): seq<Group>
  {
    Head(s) + AllValued(Mount, s.extraMounts) + AllValued(MountNamed, VolumeSpecs(EarlyVolumes(s)))
    + AllValued(Secret, s.secrets) + Optional(lib, s) + AllValued(MountNamed, VolumeSpecs(NestedVolumes(s))) + Tail(s)
  }

  /** A repeatable flag, one pair per value. */
  method AppendAll(args: seq<string>, k: Flag, values: seq<string>) returns (out: seq<string>)
    ensures out == args + PrintAll(AllValued(k, values))
  {
    out := args;
    assert AllValued(k, values[..0]) == [];
    for i := 0 to |values|
      invariant out == args + PrintAll(AllValued(k, values[..i]))
    {
      assert AllValued(k, values[..i + 1]) == AllValued(k, values[..i]) + [Valued(k, values[i])];
      PrintConcat(AllValued(k, values[..i]), [Valued(k, values[i])]);
      assert PrintAll([Valued(k, values[i])]) == [Spelling(k), values[i]] by {
        assert [Valued(k, values[i])][1..] == [];
      }
      out := out + [Spelling(k), values[i]];
    }
    assert values[..|values|] == values;
  }

  method WorktreeSandboxCreateArgs(lib: Library, s: Spec) returns (args: seq<string>)
    ensures args == PrintAll(Groups(lib, s))
  {
    args := PrintAll(Head(s));
    args := AppendAll(args, Mount, s.extraMounts);
    args := AppendAll(args, MountNamed, VolumeSpecs(EarlyVolumes(s)));
    args := AppendAll(args, Secret, s.secrets);
    args := args + PrintAll(Optional(lib, s));
    args := AppendAll(args, MountNamed, VolumeSpecs(NestedVolumes(s)));
    args := args + PrintAll(Tail(s));
    PrintGroups(lib, s);
  }

  lemma PrintGroups(lib: Library, s: Spec)
    ensures PrintAll(Groups(lib, s))
         == PrintAll(Head(s)) + PrintAll(AllValued(Mount, s.extraMounts))
            + PrintAll(AllValued(MountNamed, VolumeSpecs(EarlyVolumes(s)))) + PrintAll(AllValued(Secret, s.secrets))
            + PrintAll(Optional(lib, s)) + PrintAll(AllValued(MountNamed, VolumeSpecs(NestedVolumes(s))))
            + PrintAll(Tail(s))
  {
    PrintSeven(Head(s), AllValued(Mount, s.extraMounts), AllValued(MountNamed, VolumeSpecs(EarlyVolumes(s))),
               AllValued(Secret, s.secrets), Optional(lib, s), AllValued(MountNamed, VolumeSpecs(NestedVolumes(s))),
               Tail(s));
  }

  lemma PrintSeven(a: seq<Group>, b: seq<Group>, c: seq<Group>, d: seq<Group>, e: seq<Group>, f: seq<Group>,
                   g: seq<Group>)
    ensures PrintAll(a + b + c + d + e + f + g)
         == PrintAll(a) + PrintAll(b) + PrintAll(c) + PrintAll(d) + PrintAll(e) + PrintAll(f) + PrintAll(g)
  {
    PrintConcat(a, b);
    PrintConcat(a + b, c);
    PrintConcat(a + b + c, d);
    PrintConcat(a + b + c + d, e);
    PrintConcat(a + b + c + d + e, f);
    PrintConcat(a + b + c + d + e + f, g);
  }

  // ----- the round trip -----

  /** What the parser accepts of a policy text. */
  predicate Enforceable(lib: Library, text: string)
  {
    lib.decode(text).Some? && forall key | key in lib.decode(text).value.keys :: key == ""
  }

  /** A repository of the form owner/name, if any, and enforceable policies. */
  predicate Sendable(lib: Library, s: Spec)
  {
    && (s.allowedRepo == "" || '/' in s.allowedRepo)
    && (PolicyText(lib, s).Some? ==> Enforceable(lib, PolicyText(lib, s).value))
  }

  /** The request is acceptable: that, and a known agent. */
  predicate Accepts(lib: Library, s: Spec)
  {
    Sendable(lib, s) && lib.knownAgent(s.agent)
  }

  /** What the parser is meant to recover. */
  function Expected(lib: Library, s: Spec): CreateFlags
  {
    NO_FLAGS.(imageRef := if s.image.FromImage? then s.image.ref else "",
              filePath := if s.image.FromFile? then s.image.path else "",
              mountLive := [s.mountSpec] + s.extraMounts,
              mountNamed := VolumeSpecs(EarlyVolumes(s) + NestedVolumes(s)),
              secrets := s.secrets,
              allowedRepo := s.allowedRepo,
              policies := if PolicyText(lib, s).Some? then lib.decode(PolicyText(lib, s).value) else None,
              nested := s.nested,
              agentName := s.agent,
              egressExplicit := true,
              positionals := [s.handle])
  }

  /** A repeatable flag's list, with values appended. */
  function Extended(f: CreateFlags, k: Flag, values: seq<string>): CreateFlags
  {
    match k
    case Mount => f.(mountLive := f.mountLive + values)
    case MountNamed => f.(mountNamed := f.mountNamed + values)
    case Secret => f.(secrets := f.secrets + values)
    case _ => f
  }

  lemma ExtendTwice(f: CreateFlags, k: Flag, a: seq<string>, b: seq<string>)
    ensures Extended(Extended(f, k, a), k, b) == Extended(f, k, a + b)
  {
  }

  lemma ExtendNone(f: CreateFlags, k: Flag)
    ensures Extended(f, k, []) == f
  {
  }

  lemma AppliesAsExtended(lib: Library, f: CreateFlags, k: Flag, value: string)
    requires k.Mount? || k.MountNamed? || k.Secret?
    ensures Apply(lib, f, Valued(k, value)) == Some(Extended(f, k, [value]))
  {
  }

  lemma {:induction false} RepeatMeans(lib: Library, f: CreateFlags, k: Flag, values: seq<string>)
    requires k.Mount? || k.MountNamed? || k.Secret?
    ensures Meaning(lib, f, AllValued(k, values)) == Some(Extended(f, k, values))
    decreases |values|
  {
    if values == [] {
      ExtendNone(f, k);
    } else {
      assert AllValued(k, values)[1..] == AllValued(k, values[1..]);
      AppliesAsExtended(lib, f, k, values[0]);
      RepeatMeans(lib, Extended(f, k, [values[0]]), k, values[1..]);
      ExtendTwice(f, k, [values[0]], values[1..]);
      assert [values[0]] + values[1..] == values;
    }
  }

  lemma MeaningOne(lib: Library, f: CreateFlags, g: Group)
    ensures Meaning(lib, f, [g]) == Apply(lib, f, g)
  {
  }

  function AfterHead(s: Spec): CreateFlags
  {
    NO_FLAGS.(imageRef := if s.image.FromImage? then s.image.ref else "",
              filePath := if s.image.FromFile? then s.image.path else "",
              mountLive := [s.mountSpec])
  }

  lemma HeadMeans(lib: Library, s: Spec)
    ensures Meaning(lib, NO_FLAGS, Head(s)) == Some(AfterHead(s))
  {
    var g := Head(s)[0];
    assert Head(s) == [g] + [Head(s)[1]];
    MeaningConcat(lib, NO_FLAGS, [g], [Head(s)[1]]);
    MeaningOne(lib, NO_FLAGS, g);
    MeaningOne(lib, Apply(lib, NO_FLAGS, g).value, Head(s)[1]);
    assert [] + [s.mountSpec] == [s.mountSpec];
  }

  lemma RepoMeans(lib: Library, f: CreateFlags, repo: string)
    requires f.allowedRepo == ""
    ensures Meaning(lib, f, if repo != "" then [Valued(Repo, repo)] else [])
         == if repo == "" || '/' in repo then Some(f.(allowedRepo := repo)) else None
  {
  }

  lemma PolicyMeans(lib: Library, f: CreateFlags, text: Option<string>)
    requires f.policies == None
    ensures Meaning(lib, f, if text.Some? then [Valued(PolicyJSON, text.value)] else [])
         == if text.None? then Some(f)
            else if Enforceable(lib, text.value) then Some(f.(policies := lib.decode(text.value)))
            else None
  {
  }

  lemma NestedMeans(lib: Library, f: CreateFlags, nested: bool)
    requires !f.nested
    ensures Meaning(lib, f, if nested then [Switch(Nested)] else []) == Some(f.(nested := nested))
  {
  }

  function AfterOptional(lib: Library, f: CreateFlags, s: Spec): CreateFlags
  {
    f.(allowedRepo := s.allowedRepo,
       policies := if PolicyText(lib, s).Some? then lib.decode(PolicyText(lib, s).value) else None,
       nested := s.nested)
  }

  lemma OptionalMeans(lib: Library, f: CreateFlags, s: Spec)
    requires f.allowedRepo == "" && f.policies == None && !f.nested
    ensures Meaning(lib, f, Optional(lib, s))
         == if Sendable(lib, s) then Some(AfterOptional(lib, f, s)) else None
  {
    var repo := if s.allowedRepo != "" then [Valued(Repo, s.allowedRepo)] else [];
    var policy := if PolicyText(lib, s).Some? then [Valued(PolicyJSON, PolicyText(lib, s).value)] else [];
    var nested := if s.nested then [Switch(Nested)] else [];
    MeaningConcat(lib, f, repo + policy, nested);
    MeaningConcat(lib, f, repo, policy);
    RepoMeans(lib, f, s.allowedRepo);
    var g := f.(allowedRepo := s.allowedRepo);
    PolicyMeans(lib, g, PolicyText(lib, s));
    NestedMeans(lib, g, s.nested);
    if PolicyText(lib, s).Some? {
      NestedMeans(lib, g.(policies := lib.decode(PolicyText(lib, s).value)), s.nested);
    }
  }

  lemma TailMeans(lib: Library, f: CreateFlags, s: Spec)
    requires f.positionals == []
    ensures Meaning(lib, f, Tail(s))
         == if lib.knownAgent(s.agent)
            then Some(f.(agentName := s.agent, egressExplicit := true, egressClosed := false,
                         positionals := [s.handle]))
            else None
  {
    assert Tail(s) == [Tail(s)[0]] + ([Tail(s)[1]] + [Tail(s)[2]]);
    MeaningConcat(lib, f, [Tail(s)[0]], [Tail(s)[1]] + [Tail(s)[2]]);
    MeaningOne(lib, f, Tail(s)[0]);
    if lib.knownAgent(s.agent) {
      var g := f.(agentName := s.agent);
      MeaningConcat(lib, g, [Tail(s)[1]], [Tail(s)[2]]);
      MeaningOne(lib, g, Tail(s)[1]);
      MeaningOne(lib, g.(egressExplicit := true, egressClosed := false), Tail(s)[2]);
      assert [] + [s.handle] == [s.handle];
    }
  }

  /** Everything before the optional flags. */
  function Front(s: Spec): seq<Group>
  {
    Head(s) + AllValued(Mount, s.extraMounts) + AllValued(MountNamed, VolumeSpecs(EarlyVolumes(s)))
      + AllValued(Secret, s.secrets)
  }

  function AfterFront(s: Spec): CreateFlags
  {
    AfterHead(s).(mountLive := [s.mountSpec] + s.extraMounts, mountNamed := VolumeSpecs(EarlyVolumes(s)),
                  secrets := s.secrets)
  }

  lemma MountsMean(lib: Library, s: Spec)
    ensures Meaning(lib, NO_FLAGS, Head(s) + AllValued(Mount, s.extraMounts))
         == Some(AfterHead(s).(mountLive := [s.mountSpec] + s.extraMounts))
  {
    MeaningConcat(lib, NO_FLAGS, Head(s), AllValued(Mount, s.extraMounts));
    HeadMeans(lib, s);
    RepeatMeans(lib, AfterHead(s), Mount, s.extraMounts);
  }

  lemma VolumesMean(lib: Library, s: Spec)
    ensures Meaning(lib, NO_FLAGS, Head(s) + AllValued(Mount, s.extraMounts)
                    + AllValued(MountNamed, VolumeSpecs(EarlyVolumes(s))))
         == Some(AfterHead(s).(mountLive := [s.mountSpec] + s.extraMounts, mountNamed := VolumeSpecs(EarlyVolumes(s))))
  {
    var volumes := VolumeSpecs(EarlyVolumes(s));
    MeaningConcat(lib, NO_FLAGS, Head(s) + AllValued(Mount, s.extraMounts), AllValued(MountNamed, volumes));
    MountsMean(lib, s);
    RepeatMeans(lib, AfterHead(s).(mountLive := [s.mountSpec] + s.extraMounts), MountNamed, volumes);
    assert [] + volumes == volumes;
  }

  lemma FrontMeans(lib: Library, s: Spec)
    ensures Meaning(lib, NO_FLAGS, Front(s)) == Some(AfterFront(s))
  {
    var volumes := VolumeSpecs(EarlyVolumes(s));
    MeaningConcat(lib, NO_FLAGS, Head(s) + AllValued(Mount, s.extraMounts) + AllValued(MountNamed, volumes),
                  AllValued(Secret, s.secrets));
    VolumesMean(lib, s);
    RepeatMeans(lib, AfterHead(s).(mountLive := [s.mountSpec] + s.extraMounts, mountNamed := volumes), Secret,
                s.secrets);
    assert [] + s.secrets == s.secrets;
  }

  /** All but the last three arguments. */
  lemma BodyMeans(lib: Library, s: Spec)
    ensures Meaning(lib, NO_FLAGS, Front(s) + Optional(lib, s))
         == if Sendable(lib, s) then Some(AfterOptional(lib, AfterFront(s), s)) else None
  {
    MeaningConcat(lib, NO_FLAGS, Front(s), Optional(lib, s));
    FrontMeans(lib, s);
    OptionalMeans(lib, AfterFront(s), s);
  }

  lemma VolumesJoin(s: Spec)
    ensures VolumeSpecs(EarlyVolumes(s)) + VolumeSpecs(NestedVolumes(s))
            == VolumeSpecs(EarlyVolumes(s) + NestedVolumes(s))
  {
  }

  lemma AlmostMeans(lib: Library, s: Spec)
    ensures Meaning(lib, NO_FLAGS, Front(s) + Optional(lib, s) + AllValued(MountNamed, VolumeSpecs(NestedVolumes(s))))
         == if Sendable(lib, s)
            then Some(AfterOptional(lib, AfterFront(s), s).(
                        mountNamed := VolumeSpecs(EarlyVolumes(s) + NestedVolumes(s))))
            else None
  {
    MeaningConcat(lib, NO_FLAGS, Front(s) + Optional(lib, s), AllValued(MountNamed, VolumeSpecs(NestedVolumes(s))));
    BodyMeans(lib, s);
    RepeatMeans(lib, AfterOptional(lib, AfterFront(s), s), MountNamed, VolumeSpecs(NestedVolumes(s)));
    VolumesJoin(s);
  }

  lemma GroupsMean(lib: Library, s: Spec)
    ensures Meaning(lib, NO_FLAGS, Groups(lib, s)) == if Accepts(lib, s) then Some(Expected(lib, s)) else None
  {
    MeaningConcat(lib, NO_FLAGS,
                  Front(s) + Optional(lib, s) + AllValued(MountNamed, VolumeSpecs(NestedVolumes(s))), Tail(s));
    AlmostMeans(lib, s);
    var volumes := VolumeSpecs(EarlyVolumes(s) + NestedVolumes(s));
    TailMeans(lib, AfterOptional(lib, AfterFront(s), s).(mountNamed := volumes), s);
  }

  lemma PiecesAreWellFormed(lib: Library, s: Spec)
    requires s.handle != "" && s.handle[0] != '-'
    ensures AllWellFormed(Head(s)) && AllWellFormed(Optional(lib, s)) && AllWellFormed(Tail(s))
  {
  }

  lemma RepeatIsWellFormed(k: Flag, values: seq<string>)
    requires !IsSwitch(k)
    ensures AllWellFormed(AllValued(k, values))
  {
  }

  lemma GroupsAreWellFormed(lib: Library, s: Spec)
    requires s.handle != "" && s.handle[0] != '-'
    ensures AllWellFormed(Groups(lib, s))
  {
    PiecesAreWellFormed(lib, s);
    RepeatIsWellFormed(Mount, s.extraMounts);
    RepeatIsWellFormed(MountNamed, VolumeSpecs(EarlyVolumes(s)));
    RepeatIsWellFormed(Secret, s.secrets);
    RepeatIsWellFormed(MountNamed, VolumeSpecs(NestedVolumes(s)));
    WellFormedSeven(Head(s), AllValued(Mount, s.extraMounts), AllValued(MountNamed, VolumeSpecs(EarlyVolumes(s))),
                    AllValued(Secret, s.secrets), Optional(lib, s),
                    AllValued(MountNamed, VolumeSpecs(NestedVolumes(s))), Tail(s));
  }

  lemma WellFormedSeven(a: seq<Group>, b: seq<Group>, c: seq<Group>, d: seq<Group>, e: seq<Group>, f: seq<Group>,
                        g: seq<Group>)
    requires AllWellFormed(a) && AllWellFormed(b) && AllWellFormed(c) && AllWellFormed(d) && AllWellFormed(e)
    requires AllWellFormed(f) && AllWellFormed(g)
    ensures AllWellFormed(a + b + c + d + e + f + g)
  {
  }

  /** The codec gives these policies back. */
  predicate Inverts(lib: Library, pp: Policies)
  {
    lib.encode(pp).Some? && lib.decode(lib.encode(pp).value) == Some(pp)
  }

  /** The policies of the request; a request without any sends none. */
  function Requested(s: Spec): Option<Policies>
  {
    if s.policies.keys == {} then None else Some(s.policies)
  }

  /** What a request must be to be accepted, in its own terms: only the wildcard key is enforced. */
  predicate Allowed(lib: Library, s: Spec)
  {
    && lib.knownAgent(s.agent)
    && (s.allowedRepo == "" || '/' in s.allowedRepo)
    && forall key | key in s.policies.keys :: key == ""
  }

  /**
    Parsing the built arguments recovers the handle, image source, mounts in order, volumes, secrets,
    repository, policies and nesting, or refuses, exactly as the request is acceptable.
   */
  lemma CreateRoundTrip(lib: Library, s: Spec)
    requires s.handle != "" && s.handle[0] != '-'
    ensures ParsedArgs(lib, PrintAll(Groups(lib, s))) == if Accepts(lib, s) then Some(Expected(lib, s)) else None
    ensures s.policies.keys == {} || Inverts(lib, s.policies) ==>
              ParsedArgs(lib, PrintAll(Groups(lib, s)))
              == if Allowed(lib, s) then Some(Expected(lib, s).(policies := Requested(s))) else None
  {
    GroupsAreWellFormed(lib, s);
    ParsePrinted(lib, NO_FLAGS, Groups(lib, s));
    GroupsMean(lib, s);
  }

  /** The whole request arrives, for the handle of any repository and branch. */
  lemma WorktreeRoundTrip(lib: Library, s: Spec, repoName: string, branch: string)
    requires s.handle == WorktreeHandle(repoName, branch)
    ensures ParsedArgs(lib, PrintAll(Groups(lib, s))) == if Accepts(lib, s) then Some(Expected(lib, s)) else None
    ensures s.policies.keys == {} || Inverts(lib, s.policies) ==>
              ParsedArgs(lib, PrintAll(Groups(lib, s)))
              == if Allowed(lib, s) then Some(Expected(lib, s).(policies := Requested(s))) else None
  {
    HandleIsUsable(repoName, branch);
    CreateRoundTrip(lib, s);
  }

  // ----- the volumes -----

  lemma VolumeNameIsPlain(handle: string, suffix: string)
    requires ':' !in suffix
    ensures Slug(handle) + suffix != "" && ':' !in Slug(handle) + suffix
  {
    SlugIsLegal(handle);
  }

  predicate PlainPath(path: string)
  {
    path != "" && ':' !in path && ('.' !in path || 'g' !in path)
  }

  lemma DockerPath()
    ensures PlainPath("/var/lib/docker")
  {
  }

  lemma AgentPath()
    ensures PlainPath("/var/lib/nexus/agentcfg")
  {
  }

  lemma GoPaths()
    ensures PlainPath("/root/.cache") && PlainPath("/root/go")
  {
  }

  lemma StatePath()
    ensures PlainPath("/root/.local/state/nexus")
  {
  }

  lemma PlannedPaths(s: Spec, i: nat)
    requires i < |EarlyVolumes(s) + NestedVolumes(s)|
    ensures var v := (EarlyVolumes(s) + NestedVolumes(s))[i]; PlainPath(v.guestPath) && v.gib < 25
  {
    DockerPath();
    AgentPath();
    GoPaths();
    StatePath();
  }

  lemma PlannedNames(s: Spec, i: nat)
    requires i < |EarlyVolumes(s) + NestedVolumes(s)|
    ensures var v := (EarlyVolumes(s) + NestedVolumes(s))[i]; v.name != "" && ':' !in v.name
  {
    VolumeNameIsPlain(s.handle, "-docker");
    VolumeNameIsPlain(s.handle, "-agentcfg");
    VolumeNameIsPlain(s.handle, "-gocache");
    VolumeNameIsPlain(s.handle, "-gopath");
    VolumeNameIsPlain(s.handle, "-nexusstate");
  }

  /** Every generated --mount-named value parses, to the disk and the size that was meant. */
  lemma VolumesParse(s: Spec, i: nat)
    requires i < |EarlyVolumes(s) + NestedVolumes(s)|
    ensures var v := (EarlyVolumes(s) + NestedVolumes(s))[i];
            Parsed(VolumeSpecs(EarlyVolumes(s) + NestedVolumes(s))[i])
            == Some(NamedMount(v.name, v.guestPath, Disk, false, v.gib * 0x4000_0000))
  {
    var v := (EarlyVolumes(s) + NestedVolumes(s))[i];
    PlannedPaths(s, i);
    PlannedNames(s, i);
    NoGitComponent(v.guestPath);
    SizedRoundTrip(v.name, v.guestPath, v.gib);
  }
}
