/**
  The device-index contract: which disk sits at which guest device, what the host prints for it,
  what the guest derives from the letter, and what the host's governor believes.
 */
module Disks {
  import opened Boot
  import opened Options
  import opened Text

  datatype Volume = Volume(name: string, guestPath: string, readOnly: bool, isDisk: bool)

  datatype Shadow = Shadow(hostPath: string, guestTarget: string)

  datatype LiveMount = LiveMount(guestPath: string, readOnly: bool, isFile: bool, baseName: string)

  /**
    What `sandbox create` asks for. A `workspacePath` makes it capture the tree at `source`, to be
    mounted at `guestPath`.
   */
  datatype Plan = Plan(volumes: seq<Volume>, shadows: seq<Shadow>, workspacePath: string, source: string,
                       guestPath: string,
                       noScratchDisk: bool, live: seq<LiveMount>)

  predicate HasWorkspace(p: Plan)
  {
    p.workspacePath != ""
  }

  datatype Disk = NamedDisk(name: string) | ShadowDisk(hostPath: string) | WorkspaceDisk | ScratchDisk

  datatype ResizableDisk = ResizableDisk(index: nat, mountPath: string)

  // ----- the host: disks in attachment order -----

  /** A live mount at or below /workspace. */
  predicate HasWorkspaceMount(live: seq<LiveMount>)
  {
    exists i | 0 <= i < |live| :: live[i].guestPath == "/workspace" || HasPrefix(live[i].guestPath, "/workspace/")
  }

  /** It is one of these paths, and not merely one that starts alike. */
  lemma WorkspaceMountIff(m: LiveMount)
    ensures HasWorkspaceMount([m])
       <==> m.guestPath == "/workspace" || exists below :: m.guestPath == "/workspace" + ("/" + below)
  {
    var p := m.guestPath;
    assert [m][0] == m;
    if HasPrefix(p, "/workspace/") {
      assert p == "/workspace" + ("/" + p[11..]);
    }
    forall below | p == "/workspace" + ("/" + below)
      ensures HasPrefix(p, "/workspace/")
    {
    }
  }

  /** Whether the service attaches a scratch disk. */
  predicate HostScratch(p: Plan)
  {
    ((HasWorkspace(p) && p.source != "") || HasWorkspaceMount(p.live)) && !p.noScratchDisk
  }

  /** Whether the CLI tells the guest there is one. */
  predicate CliScratch(p: Plan)
  {
    p.workspacePath != "" || HasWorkspaceMount(p.live)
  }

  /** Whether, and where, the CLI tells the supervisor there is one. */
  predicate SupervisorScratch(p: Plan)
  {
    HasWorkspace(p)
  }

  function SupervisorScratchIndex(p: Plan): nat
  {
    NumNamed(p) + |p.shadows| + 1
  }

  function DiskVolumes(volumes: seq<Volume>): seq<Volume>
  {
    if volumes == [] then []
    else
      var front := DiskVolumes(volumes[..|volumes| - 1]);
      if volumes[|volumes| - 1].isDisk then front + [volumes[|volumes| - 1]] else front
  }

  function NamedDisks(volumes: seq<Volume>): seq<Disk>
  {
    var disks := DiskVolumes(volumes);
    seq(|disks|, i requires 0 <= i < |disks| => NamedDisk(disks[i].name))
  }

  function ShadowDisks(shadows: seq<Shadow>): seq<Disk>
  {
    seq(|shadows|, i requires 0 <= i < |shadows| => ShadowDisk(shadows[i].hostPath))
  }

  /**
    CreateAndBoot: the caller supplies the shadow disks, the workspace image is appended, the named
    disks are prepended in declaration order, the scratch disk is appended.
    ExtraDisks[i] is attached as DevicePath(i).
   */
  method ExtraDisks(p: Plan) returns (disks: seq<Disk>)
    ensures disks == Attached(p)
  {
    disks := ShadowDisks(p.shadows);
    if HasWorkspace(p) {
      disks := disks + [WorkspaceDisk];
    }
    var named: seq<Disk> := [];
    for i := 0 to |p.volumes|
      invariant named == NamedDisks(p.volumes[..i])
    {
      assert p.volumes[..i + 1][..i] == p.volumes[..i];
      if p.volumes[i].isDisk {
        named := named + [NamedDisk(p.volumes[i].name)];
      }
    }
    assert p.volumes[..|p.volumes|] == p.volumes;
    disks := named + disks;
    if HostScratch(p) {
      disks := disks + [ScratchDisk];
    }
  }

  function WorkspaceDisks(p: Plan): seq<Disk>
  {
    if HasWorkspace(p) then [WorkspaceDisk] else []
  }

  function Attached(p: Plan): seq<Disk>
  {
    NamedDisks(p.volumes) + (ShadowDisks(p.shadows) + WorkspaceDisks(p))
      + (if HostScratch(p) then [ScratchDisk] else [])
  }

  // ----- the host: guest mounts -----

  function NamedMount(v: Volume, index: nat): GuestMount
  {
    GuestMount(DevicePath(index), v.guestPath, "ext4", v.readOnly, false, true, false, "")
  }

  function NamedMounts(volumes: seq<Volume>): seq<GuestMount>
  {
    var disks := DiskVolumes(volumes);
    seq(|disks|, i requires 0 <= i < |disks| => NamedMount(disks[i], i))
  }

  method NamedDiskGuestMounts(volumes: seq<Volume>) returns (out: seq<GuestMount>)
    ensures out == NamedMounts(volumes)
  {
    out := [];
    for i := 0 to |volumes|
      invariant out == NamedMounts(volumes[..i])
    {
      assert volumes[..i + 1][..i] == volumes[..i];
      if !volumes[i].isDisk {
        continue;
      }
      out := out + [NamedMount(volumes[i], |out|)];
    }
    assert volumes[..|volumes|] == volumes;
  }

  function ShadowMounts(shadows: seq<Shadow>, offset: nat): seq<GuestMount>
  {
    seq(|shadows|, i requires 0 <= i < |shadows| =>
          GuestMount(DevicePath(offset + i), shadows[i].guestTarget, "ext4", false, false, false, false, ""))
  }

  function WorkspaceMount(guestPath: string, index: nat): GuestMount
  {
    GuestMount(DevicePath(index), guestPath, "ext4", false, true, false, false, "")
  }

  function LiveMounts(live: seq<LiveMount>): seq<GuestMount>
  {
    seq(|live|, i requires 0 <= i < |live| =>
          GuestMount("nxfs" + Decimal(i), live[i].guestPath, "virtiofs", live[i].readOnly, false, false,
                     live[i].isFile, if live[i].isFile then live[i].baseName else ""))
  }

  function NumNamed(p: Plan): nat
  {
    |DiskVolumes(p.volumes)|
  }

  function WorkspaceMounts(p: Plan): seq<GuestMount>
  {
    if HasWorkspace(p) then [WorkspaceMount(p.guestPath, NumNamed(p) + |p.shadows|)] else []
  }

  /** The mounts on the command line: named, shadow, workspace, live. */
  function GuestMounts(p: Plan): seq<GuestMount>
  {
    NamedMounts(p.volumes) + (ShadowMounts(p.shadows, NumNamed(p)) + WorkspaceMounts(p)) + LiveMounts(p.live)
  }

  /** The index on the command line, negative for none. */
  function ScratchIndex(p: Plan): int
  {
    if CliScratch(p) then |Attached(p)| - 1 else -1
  }

  /** Every named disk, then the workspace disk, which comes after the shadow disks. */
  function IndexList(numNamedDisks: nat, hasWorkspace: bool, workspaceDiskIndex: nat): seq<nat>
  {
    seq(numNamedDisks, i => i) + (if hasWorkspace then [numNamedDisks + workspaceDiskIndex] else [])
  }

  method ResizableDiskIndices(numNamedDisks: nat, hasWorkspace: bool, workspaceDiskIndex: nat) returns (out: seq<nat>)
    ensures out == IndexList(numNamedDisks, hasWorkspace, workspaceDiskIndex)
  {
    out := [];
    for i := 0 to numNamedDisks
      invariant out == seq(i, j => j)
    {
      out := out + [i];
    }
    if hasWorkspace {
      out := out + [numNamedDisks + workspaceDiskIndex];
    }
  }

  /** The host governor's list for a plan. */
  function HostIndices(p: Plan): seq<nat>
  {
    IndexList(NumNamed(p), HasWorkspace(p), |p.shadows|)
  }

  // ----- the guest -----

  function DiskIndexFromDevice(device: string): Option<nat>
  {
    if |device| != 8 || !HasPrefix(device, "/dev/vd") || device[7] < 'b' || device[7] > 'z' then None
    else Some((device[7] as int) - 98)
  }

  /** What one mount contributes to the telemetry list. */
  function Telemetry(m: GuestMount): seq<ResizableDisk>
  {
    var index := DiskIndexFromDevice(m.device);
    if (m.isWorkspace || m.resizable) && index.Some? then [ResizableDisk(index.value, m.target)] else []
  }

  function TelemetryDisks(mounts: seq<GuestMount>): seq<ResizableDisk>
  {
    if mounts == [] then []
    else TelemetryDisks(mounts[..|mounts| - 1]) + Telemetry(mounts[|mounts| - 1])
  }

  method ResizableDisksFromMounts(mounts: seq<GuestMount>) returns (out: seq<ResizableDisk>)
    ensures out == TelemetryDisks(mounts)
  {
    out := [];
    for i := 0 to |mounts|
      invariant out == TelemetryDisks(mounts[..i])
    {
      assert mounts[..i + 1][..i] == mounts[..i];
      if !mounts[i].isWorkspace && !mounts[i].resizable {
        continue;
      }
      var index := DiskIndexFromDevice(mounts[i].device);
      if index.None? {
        continue;
      }
      out := out + [ResizableDisk(index.value, mounts[i].target)];
    }
    assert mounts[..|mounts|] == mounts;
  }

  datatype Selection = NoWorkspace | Workspace(mount: GuestMount) | Ambiguous

  /** The one workspace mount, whose position is unique; none; or a refusal when there are several. */
  method SelectWorkspaceMount(mounts: seq<GuestMount>) returns (r: Selection)
    ensures r.NoWorkspace? <==> forall i | 0 <= i < |mounts| :: !mounts[i].isWorkspace
    ensures r.Ambiguous? <==> exists i, j | 0 <= i < j < |mounts| :: mounts[i].isWorkspace && mounts[j].isWorkspace
    ensures r.Workspace? ==> r.mount in mounts && r.mount.isWorkspace
  {
    var found, count: nat := 0, 0;
    ghost var first := 0;
    for i := 0 to |mounts|
      invariant count == 0 <==> forall j | 0 <= j < i :: !mounts[j].isWorkspace
      invariant count >= 1 ==> 0 <= first <= found < i && mounts[first].isWorkspace && mounts[found].isWorkspace
      invariant count == 1 ==> forall j | 0 <= j < i && j != found :: !mounts[j].isWorkspace
      invariant count >= 2 ==> first < found
    {
      if mounts[i].isWorkspace {
        first := if count == 0 then i else first;
        found := i;
        count := count + 1;
      }
    }
    r := if count == 0 then NoWorkspace else if count == 1 then Workspace(mounts[found]) else Ambiguous;
  }

  /** handleDiskGrow: the device a grow request names, or a refusal. */
  function GrowDevice(index: int): Option<string>
  {
    if index < 0 || index > 25 then None else Some(DevicePath(index))
  }

  // ----- the contract -----

  /** The letter round trip holds exactly for the letters b to z. */
  lemma DeviceRoundTrip(index: nat)
    ensures DiskIndexFromDevice(DevicePath(index)) == if index <= 24 then Some(index) else None
  {
  }

  /** Distinct indices below the surrogates have distinct devices. */
  lemma DevicesDiffer(i: nat, j: nat)
    requires i != j && i < 0xD800 - 98 && j < 0xD800 - 98
    ensures DevicePath(i) != DevicePath(j)
  {
    assert DevicePath(i)[7] == DiskLetter(i) && DevicePath(j)[7] == DiskLetter(j);
  }

  /** The guard of a grow request admits one index the telemetry never reports. */
  lemma GrowGuard(index: int)
    ensures GrowDevice(index).Some? <==> 0 <= index <= 25
    ensures GrowDevice(index).Some? && DiskIndexFromDevice(GrowDevice(index).value) == Some(index) <==> 0 <= index <= 24
  {
  }

  /** The disk a mount on the command line is meant for. */
  function Intended(p: Plan, i: nat): Disk
    requires i < NumNamed(p) + |p.shadows| + |WorkspaceMounts(p)|
  {
    if i < NumNamed(p) then NamedDisk(DiskVolumes(p.volumes)[i].name)
    else if i < NumNamed(p) + |p.shadows| then ShadowDisk(p.shadows[i - NumNamed(p)].hostPath)
    else WorkspaceDisk
  }

  /** Every block-device mount names the device at which its own disk is attached. */
  lemma MountsFindTheirDisks(p: Plan, i: nat)
    requires i < NumNamed(p) + |p.shadows| + |WorkspaceMounts(p)|
    ensures i < |Attached(p)| && i < |GuestMounts(p)|
    ensures GuestMounts(p)[i].device == DevicePath(i) && Attached(p)[i] == Intended(p, i)
  {
  }

  lemma {:induction false} DiskVolumesSplit(a: seq<Volume>, b: seq<Volume>)
    ensures DiskVolumes(a + b) == DiskVolumes(a) + DiskVolumes(b)
  {
    if b == [] {
      assert a + b == a;
    } else {
      assert (a + b)[..|a + b| - 1] == a + b[..|b| - 1];
      DiskVolumesSplit(a, b[..|b| - 1]);
    }
  }

  /** A named disk volume is mounted writable or not as asked, after the disk volumes before it, and may grow. */
  lemma NamedVolumeIsMounted(p: Plan, i: nat)
    requires i < |p.volumes| && p.volumes[i].isDisk
    ensures var m, v, at := GuestMounts(p), p.volumes[i], |DiskVolumes(p.volumes[..i])|;
            && at < |m| && m[at].target == v.guestPath && (m[at].readOnly <==> v.readOnly)
            && m[at].fsType == "ext4" && m[at].resizable && !m[at].isWorkspace && !m[at].isFile && m[at].fileName == ""
  {
    var before, v, after := p.volumes[..i], p.volumes[i], p.volumes[i + 1..];
    assert p.volumes == before + [v] + after;
    assert [v][..0] == [];
    DiskVolumesSplit(before, [v]);
    DiskVolumesSplit(before + [v], after);
    assert DiskVolumes(p.volumes)[|DiskVolumes(before)|] == v;
  }

  /** A shadow is mounted at its own target, after the named disks, writable and never resized. */
  lemma ShadowIsMounted(p: Plan, i: nat)
    requires i < |p.shadows|
    ensures var m, at := GuestMounts(p), NumNamed(p) + i;
            && at < |m| && m[at].target == p.shadows[i].guestTarget && !m[at].readOnly
            && m[at].fsType == "ext4" && !m[at].resizable && !m[at].isWorkspace && !m[at].isFile && m[at].fileName == ""
  {
  }

  /** A captured workspace is mounted at its guest path, after the shadows, and it alone is the workspace. */
  lemma WorkspaceIsMounted(p: Plan, i: nat)
    requires i < |GuestMounts(p)|
    ensures GuestMounts(p)[i].isWorkspace <==> HasWorkspace(p) && i == NumNamed(p) + |p.shadows|
    ensures GuestMounts(p)[i].isWorkspace ==>
              && GuestMounts(p)[i].target == p.guestPath && !GuestMounts(p)[i].readOnly
              && GuestMounts(p)[i].fsType == "ext4" && !GuestMounts(p)[i].resizable
              && !GuestMounts(p)[i].isFile && GuestMounts(p)[i].fileName == ""
  {
  }

  /** A live mount comes after the disks, by the tag of its position; only a file carries its name. */
  lemma LiveIsMounted(p: Plan, i: nat)
    requires i < |p.live|
    ensures var m, l, at := GuestMounts(p), p.live[i], |GuestMounts(p)| - |p.live| + i;
            && 0 <= at < |m| && m[at].device == "nxfs" + Decimal(i) && m[at].target == l.guestPath
            && (m[at].readOnly <==> l.readOnly) && m[at].fsType == "virtiofs" && !m[at].resizable
            && (m[at].isFile <==> l.isFile) && (l.isFile ==> m[at].fileName == l.baseName)
            && (!l.isFile ==> m[at].fileName == "")
  {
  }

  lemma LiveTagIsNoDevice(tail: string, index: nat)
    ensures "nxfs" + tail != DevicePath(index)
  {
    assert ("nxfs" + tail)[0] == 'n' && DevicePath(index)[0] == '/';
  }

  /**
    The CLI and the service decide separately whether there is a scratch disk. They agree exactly
    when no workspace comes with NoScratchDisk and no captured workspace lacks its source.
   */
  lemma ScratchAgreesIff(p: Plan)
    ensures (CliScratch(p) <==> HostScratch(p))
       <==> !(CliScratch(p) && p.noScratchDisk) && !(HasWorkspace(p) && p.source == "" && !HasWorkspaceMount(p.live))
  {
  }

  /** `sandbox create` never sets NoScratchDisk and captures an absolute path, so there they agree. */
  lemma CreateAgrees(p: Plan)
    requires !p.noScratchDisk && (HasWorkspace(p) ==> p.source != "")
    ensures CliScratch(p) <==> HostScratch(p)
  {
    ScratchAgreesIff(p);
  }

  /** The supervisor's flag and index are right exactly when the workspace is not a live mount only. */
  lemma SupervisorAgreesIff(p: Plan)
    requires !p.noScratchDisk && (HasWorkspace(p) ==> p.source != "")
    ensures (SupervisorScratch(p) <==> HostScratch(p)) <==> HasWorkspace(p) || !HasWorkspaceMount(p.live)
    ensures SupervisorScratch(p) ==> SupervisorScratchIndex(p) == ScratchIndex(p)
  {
  }

  /** The failing plan: a live mount at /workspace and nothing else. */
  lemma LiveWorkspaceIsMissed(p: Plan)
    requires p == Plan([], [], "", "", "", false, [LiveMount("/workspace", false, false, "")])
    ensures CliScratch(p) && HostScratch(p) && ScratchIndex(p) == 0 && Attached(p) == [ScratchDisk]
    ensures !SupervisorScratch(p)
  {
    assert p.live[0].guestPath == "/workspace";
    assert HasWorkspaceMount(p.live);
  }

  /** The agent reformats a disk at every boot; this says when that disk is mounted somewhere. */
  ghost predicate WipesMounted(p: Plan)
  {
    && ScratchIndex(p) >= 0
    && exists i | 0 <= i < |GuestMounts(p)| :: GuestMounts(p)[i].device == DevicePath(ScratchIndex(p))
  }

  /**
    The disk the guest is told to reformat is mounted exactly when the CLI promises a scratch disk,
    the service attaches none, and some other disk is there.
   */
  lemma WipesMountedIff(p: Plan)
    requires |Attached(p)| <= 0xD800 - 98
    ensures WipesMounted(p) <==> CliScratch(p) && !HostScratch(p) && Attached(p) != []
  {
    if CliScratch(p) && HostScratch(p) {
      forall i: nat | i < |GuestMounts(p)|
        ensures GuestMounts(p)[i].device != DevicePath(ScratchIndex(p))
      {
        ScratchIsNeverMounted(p, i);
      }
    } else if CliScratch(p) && Attached(p) != [] {
      MountsFindTheirDisks(p, ScratchIndex(p));
    }
  }

  /**
    The failing plan: one named volume and a live workspace with NoScratchDisk, which nothing but tests sets.
    The volume is reformatted.
   */
  lemma VolumeIsWiped(p: Plan, v: Volume)
    requires v.isDisk && p == Plan([v], [], "", "", "", true, [LiveMount("/workspace", false, false, "")])
    ensures Attached(p) == [NamedDisk(v.name)] && ScratchIndex(p) == 0 && WipesMounted(p)
    ensures GuestMounts(p) != [] && GuestMounts(p)[0].device == DevicePath(0) && GuestMounts(p)[0].target == v.guestPath
  {
    assert p.live[0].guestPath == "/workspace";
    assert HasWorkspaceMount(p.live);
    assert p.volumes[..0] == [];
    assert DiskVolumes([]) == [];
    assert DiskVolumes([v]) == [v];
    assert NamedDisks([v]) == [NamedDisk(v.name)];
    WipesMountedIff(p);
  }

  /**
    Where the two agree, the scratch disk is the last disk, and no mount on the command line names
    its device.
   */
  lemma ScratchIsNeverMounted(p: Plan, i: nat)
    requires CliScratch(p) && HostScratch(p) && |Attached(p)| <= 0xD800 - 98 && i < |GuestMounts(p)|
    ensures 0 <= ScratchIndex(p) < |Attached(p)| && Attached(p)[ScratchIndex(p)] == ScratchDisk
    ensures GuestMounts(p)[i].device != DevicePath(ScratchIndex(p))
  {
    var blocks := NumNamed(p) + |p.shadows| + |WorkspaceMounts(p)|;
    if i < blocks {
      MountsFindTheirDisks(p, i);
      DevicesDiffer(i, ScratchIndex(p));
    } else {
      LiveTagIsNoDevice(Decimal(i - blocks), ScratchIndex(p));
      assert GuestMounts(p)[i] == LiveMounts(p.live)[i - blocks];
    }
  }

  function Indices(disks: seq<ResizableDisk>): seq<nat>
  {
    seq(|disks|, i requires 0 <= i < |disks| => disks[i].index)
  }

  /** The indices a letter can express. */
  function Lettered(indices: seq<nat>): seq<nat>
  {
    if indices == [] then []
    else Lettered(indices[..|indices| - 1]) + (if indices[|indices| - 1] <= 24 then [indices[|indices| - 1]] else [])
  }

  lemma {:induction false} TelemetryConcat(a: seq<GuestMount>, b: seq<GuestMount>)
    ensures TelemetryDisks(a + b) == TelemetryDisks(a) + TelemetryDisks(b)
  {
    if b == [] {
      assert a + b == a;
    } else {
      assert (a + b)[..|a + b| - 1] == a + b[..|b| - 1];
      TelemetryConcat(a, b[..|b| - 1]);
    }
  }

  lemma {:induction false} PlainMountsReportNothing(mounts: seq<GuestMount>)
    requires forall i | 0 <= i < |mounts| :: !mounts[i].isWorkspace && !mounts[i].resizable
    ensures TelemetryDisks(mounts) == []
  {
    if mounts != [] {
      PlainMountsReportNothing(mounts[..|mounts| - 1]);
    }
  }

  lemma {:induction false} NamedTelemetry(mounts: seq<GuestMount>)
    requires forall i | 0 <= i < |mounts| :: mounts[i].resizable && mounts[i].device == DevicePath(i)
    ensures Indices(TelemetryDisks(mounts)) == Lettered(seq(|mounts|, i => i))
  {
    if mounts != [] {
      var n := |mounts| - 1;
      NamedTelemetry(mounts[..n]);
      DeviceRoundTrip(n);
      assert seq(|mounts|, i => i)[..n] == seq(n, i => i);
    }
  }

  lemma TelemetryFour(a: seq<GuestMount>, b: seq<GuestMount>, c: seq<GuestMount>, d: seq<GuestMount>)
    requires TelemetryDisks(b) == [] && TelemetryDisks(d) == []
    ensures TelemetryDisks(a + (b + c) + d) == TelemetryDisks(a) + TelemetryDisks(c)
  {
    TelemetryConcat(a + (b + c), d);
    TelemetryConcat(a, b + c);
    TelemetryConcat(b, c);
  }

  lemma TelemetryOfPlan(p: Plan)
    ensures TelemetryDisks(GuestMounts(p))
         == TelemetryDisks(NamedMounts(p.volumes)) + TelemetryDisks(WorkspaceMounts(p))
  {
    var shadow, live := ShadowMounts(p.shadows, NumNamed(p)), LiveMounts(p.live);
    PlainMountsReportNothing(live);
    PlainMountsReportNothing(shadow);
    TelemetryFour(NamedMounts(p.volumes), shadow, WorkspaceMounts(p), live);
  }

  /**
    What the guest reports is what the host registered, less the indices past the letter z,
    which the guest drops rather than misreport.
   */
  lemma TelemetryIsLettered(p: Plan)
    ensures Indices(TelemetryDisks(GuestMounts(p))) == Lettered(HostIndices(p))
  {
    TelemetryOfPlan(p);
    NamedTelemetry(NamedMounts(p.volumes));
    WorkspaceTelemetry(p);
    IndicesConcat(TelemetryDisks(NamedMounts(p.volumes)), TelemetryDisks(WorkspaceMounts(p)));
  }

  lemma IndicesConcat(a: seq<ResizableDisk>, b: seq<ResizableDisk>)
    ensures Indices(a + b) == Indices(a) + Indices(b)
  {
  }

  lemma WorkspaceTelemetry(p: Plan)
    ensures Lettered(HostIndices(p)) == Lettered(seq(NumNamed(p), i => i)) + Indices(TelemetryDisks(WorkspaceMounts(p)))
  {
    var named := seq(NumNamed(p), i => i);
    if HasWorkspace(p) {
      DeviceRoundTrip(NumNamed(p) + |p.shadows|);
      assert HostIndices(p)[..NumNamed(p)] == named;
      assert WorkspaceMounts(p)[..0] == [];
    } else {
      assert HostIndices(p) == named;
    }
  }

  lemma {:induction false} LetteredIff(indices: seq<nat>)
    ensures |Lettered(indices)| <= |indices|
    ensures Lettered(indices) == indices <==> forall i | 0 <= i < |indices| :: indices[i] <= 24
  {
    if indices != [] {
      var n := |indices| - 1;
      LetteredIff(indices[..n]);
      assert indices == indices[..n] + [indices[n]];
      if indices[n] <= 24 && Lettered(indices) == indices {
        assert Lettered(indices)[..n] == indices[..n];
        assert Lettered(indices[..n]) == Lettered(indices)[..n];
      }
    }
  }

  /** The host's and the guest's lists agree exactly when every resizable disk has a letter up to z. */
  lemma IndicesAgreeIff(p: Plan)
    ensures Indices(TelemetryDisks(GuestMounts(p))) == HostIndices(p)
       <==> NumNamed(p) <= 25 && (HasWorkspace(p) ==> NumNamed(p) + |p.shadows| <= 24)
  {
    TelemetryIsLettered(p);
    LetteredIff(HostIndices(p));
    if NumNamed(p) > 25 {
      assert HostIndices(p)[25] == 25;
    }
    if HasWorkspace(p) {
      assert HostIndices(p)[NumNamed(p)] == NumNamed(p) + |p.shadows|;
    }
  }

  /**
    End to end: over the printed command line, the guest reports exactly the host's indices, and
    is told to reformat the device of the host's scratch index, if there is one.
   */
  lemma BootTelemetry(p: Plan, pid1Args: seq<string>, handle: string)
    requires NumNamed(p) <= 25 && (HasWorkspace(p) ==> NumNamed(p) + |p.shadows| <= 24)
    requires (forall m | m in GuestMounts(p) :: Printable(m)) && forall a | a in pid1Args :: Plain(a)
    ensures
      var args := InitArgs(Split(GuestBootCmdline(GuestMounts(p), pid1Args, handle, ScratchIndex(p)), ' '));
      && Indices(TelemetryDisks(ScanMounts(args))) == HostIndices(p)
      && (ScanScratch(args) == if ScratchIndex(p) >= 0 then DevicePath(ScratchIndex(p)) else "")
  {
    BootRoundTrip(GuestMounts(p), pid1Args, handle, ScratchIndex(p));
    IndicesAgreeIff(p);
  }
}
