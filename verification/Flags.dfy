/** The flags of `sandbox create` and their spellings. */
module Flags {

  datatype Flag =
    | Rm
    | Force
    | Nested
    | NoShareSettings
    | NoUserMounts
    | Image
    | Rootfs
    | File
    | Memory
    | Vcpus
    | Label
    | Dockerfile
    | Workspace
    | CaptureMax
    | MemoryMax
    | VcpusMax
    | DiskMax
    | Secret
    | Egress
    | Agent
    | AllowHost
    | Repo
    | PolicyJSON
    | MountNamed
    | Mount
    | BuilderMemory

  datatype Argument = Known(flag: Flag) | Unknown | Positional

  predicate IsSwitch(k: Flag)
  {
    k.Rm? || k.Force? || k.Nested? || k.NoShareSettings? || k.NoUserMounts?
  }

  function Spelling(k: Flag): string
  {
    match k
    case Rm => "--rm"
    case Force => "--force"
    case Nested => "--nested"
    case NoShareSettings => "--no-share-settings"
    case NoUserMounts => "--no-user-mounts"
    case Image => "--image"
    case Rootfs => "--rootfs"
    case File => "--file"
    case Memory => "--memory"
    case Vcpus => "--vcpus"
    case Label => "--label"
    case Dockerfile => "--dockerfile"
    case Workspace => "--workspace"
    case CaptureMax => "--capture-max"
    case MemoryMax => "--memory-max"
    case VcpusMax => "--vcpus-max"
    case DiskMax => "--disk-max"
    case Secret => "--secret"
    case Egress => "--egress"
    case Agent => "--agent"
    case AllowHost => "--allow-host"
    case Repo => "--repo"
    case PolicyJSON => "--egress-policy-json"
    case MountNamed => "--mount-named"
    case Mount => "--mount"
    case BuilderMemory => "--builder-memory"
  }

  /** What the parser takes an argument for, in flag position. */
  function Recognise(arg: string): Argument
  {
    if arg == "--rm" then Known(Rm)
    else if arg == "--force" then Known(Force)
    else if arg == "--nested" then Known(Nested)
    else if arg == "--no-share-settings" then Known(NoShareSettings)
    else if arg == "--no-user-mounts" then Known(NoUserMounts)
    else if arg == "--image" then Known(Image)
    else if arg == "--rootfs" then Known(Rootfs)
    else if arg == "--file" then Known(File)
    else if arg == "--memory" then Known(Memory)
    else if arg == "--vcpus" then Known(Vcpus)
    else if arg == "--label" then Known(Label)
    else if arg == "--dockerfile" then Known(Dockerfile)
    else if arg == "--workspace" then Known(Workspace)
    else if arg == "--capture-max" then Known(CaptureMax)
    else if arg == "--memory-max" then Known(MemoryMax)
    else if arg == "--vcpus-max" then Known(VcpusMax)
    else if arg == "--disk-max" then Known(DiskMax)
    else if arg == "--secret" then Known(Secret)
    else if arg == "--egress" then Known(Egress)
    else if arg == "--agent" then Known(Agent)
    else if arg == "--allow-host" then Known(AllowHost)
    else if arg == "--repo" then Known(Repo)
    else if arg == "--egress-policy-json" then Known(PolicyJSON)
    else if arg == "--mount-named" then Known(MountNamed)
    else if arg == "--mount" then Known(Mount)
    else if arg == "--builder-memory" then Known(BuilderMemory)
    else if arg == "-f" then Known(Dockerfile)
    else if |arg| > 1 && arg[0] == '-' then Unknown
    else Positional
  }

  /** Spellings differ in length or in the character after the dashes. */
  lemma SpelledFlag(k: Flag)
    ensures Recognise(Spelling(k)) == Known(k)
  {
    if k.Rm? || k.Force? || k.Nested? || k.NoShareSettings? || k.NoUserMounts? || k.Image? || k.Rootfs? {
      SpelledFirst(k);
    } else if k.File? || k.Memory? || k.Vcpus? || k.Label? || k.Dockerfile? || k.Workspace? || k.CaptureMax? {
      SpelledSecond(k);
    } else if k.MemoryMax? || k.VcpusMax? || k.DiskMax? || k.Secret? || k.Egress? || k.Agent? {
      SpelledThird(k);
    } else {
      SpelledLast(k);
    }
  }

  lemma SpelledFirst(k: Flag)
    requires k.Rm? || k.Force? || k.Nested? || k.NoShareSettings? || k.NoUserMounts? || k.Image? || k.Rootfs?
    ensures Recognise(Spelling(k)) == Known(k)
  {
  }

  lemma SpelledSecond(k: Flag)
    requires k.File? || k.Memory? || k.Vcpus? || k.Label? || k.Dockerfile? || k.Workspace? || k.CaptureMax?
    ensures Recognise(Spelling(k)) == Known(k)
  {
  }

  lemma SpelledThird(k: Flag)
    requires k.MemoryMax? || k.VcpusMax? || k.DiskMax? || k.Secret? || k.Egress? || k.Agent?
    ensures Recognise(Spelling(k)) == Known(k)
  {
    assert |Spelling(k)| > 2;
    match k {
      case MemoryMax => assert Spelling(k)[2] == 'm';
      case VcpusMax => assert Spelling(k)[2] == 'v';
      case DiskMax => assert Spelling(k)[2] == 'd';
      case Secret => assert Spelling(k)[2] == 's';
      case Egress => assert Spelling(k)[2] == 'e';
      case Agent => assert Spelling(k)[2] == 'a';
    }
  }

  lemma SpelledLast(k: Flag)
    requires k.AllowHost? || k.Repo? || k.PolicyJSON? || k.MountNamed? || k.Mount? || k.BuilderMemory?
    ensures Recognise(Spelling(k)) == Known(k)
  {
    assert |Spelling(k)| > 2;
    match k {
      case AllowHost => assert Spelling(k)[2] == 'a';
      case Repo => assert Spelling(k)[2] == 'r';
      case PolicyJSON => assert Spelling(k)[2] == 'e';
      case MountNamed => assert Spelling(k)[2] == 'm';
      case Mount => assert Spelling(k)[2] == 'm';
      case BuilderMemory => assert Spelling(k)[2] == 'b';
    }
  }

  lemma ShortForm()
    ensures Recognise("-f") == Recognise("--dockerfile")
  {
  }

  /** What is no flag's spelling is unknown if it starts with a dash and goes on, and else a word. */
  lemma OthersAre(arg: string)
    requires arg != "-f" && forall k :: arg != Spelling(k)
    ensures Recognise(arg) == if |arg| > 1 && arg[0] == '-' then Unknown else Positional
  {
    NoneOfFirst(arg);
    NoneOfLast(arg);
  }

  lemma NoneOfFirst(arg: string)
    requires forall k :: arg != Spelling(k)
    ensures arg != "--rm" && arg != "--force" && arg != "--nested" && arg != "--no-share-settings"
    ensures arg != "--no-user-mounts" && arg != "--image" && arg != "--rootfs" && arg != "--file" && arg != "--memory"
    ensures arg != "--vcpus" && arg != "--label" && arg != "--dockerfile" && arg != "--workspace"
  {
    assert arg != Spelling(Rm) && arg != Spelling(Force) && arg != Spelling(Nested) && arg != Spelling(NoShareSettings);
    assert arg != Spelling(NoUserMounts) && arg != Spelling(Image) && arg != Spelling(Rootfs) && arg != Spelling(File);
    assert arg != Spelling(Memory) && arg != Spelling(Vcpus) && arg != Spelling(Label) && arg != Spelling(Dockerfile);
    assert arg != Spelling(Workspace);
  }

  lemma NoneOfLast(arg: string)
    requires forall k :: arg != Spelling(k)
    ensures arg != "--capture-max" && arg != "--memory-max" && arg != "--vcpus-max" && arg != "--disk-max"
    ensures arg != "--secret" && arg != "--egress" && arg != "--agent" && arg != "--allow-host" && arg != "--repo"
    ensures arg != "--egress-policy-json" && arg != "--mount-named" && arg != "--mount" && arg != "--builder-memory"
  {
    assert arg != Spelling(CaptureMax) && arg != Spelling(MemoryMax) && arg != Spelling(VcpusMax);
    assert arg != Spelling(DiskMax) && arg != Spelling(Secret) && arg != Spelling(Egress) && arg != Spelling(Agent);
    assert arg != Spelling(AllowHost) && arg != Spelling(Repo) && arg != Spelling(PolicyJSON);
    assert arg != Spelling(MountNamed) && arg != Spelling(Mount) && arg != Spelling(BuilderMemory);
  }

  lemma PlainWord(arg: string)
    requires arg == "" || arg[0] != '-'
    ensures Recognise(arg) == Positional
  {
  }
}
