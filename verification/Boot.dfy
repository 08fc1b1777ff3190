/**
  The boot contract between the host CLI, which prints the kernel command line, and the guest
  agent, which parses it: mounts, disk indices and the scratch disk.
 */
module Boot {
  import opened Options
  import opened Text

  datatype GuestMount = GuestMount(
    device: string, target: string, fsType: string, readOnly: bool, isWorkspace: bool,
    resizable: bool, isFile: bool, fileName: string)

  const WORKSPACE_MOUNT := "--workspace-mount="
  const SCRATCH_DISK := "--scratch-disk="
  const SANDBOX_HANDLE := "--sandbox-handle="
  const DISK_BOOT_CMDLINE_BASE := "root=/dev/vda" + " " + "rw" + " " + "init=/sbin/nexus-agent" + " " + "console=ttyS0"

  // ----- the host side: printing -----

  function BoolText(b: bool): string
  {
    if b then "true" else "false"
  }

  function Fields(m: GuestMount): seq<string>
  {
    [m.device, m.target, m.fsType, BoolText(m.readOnly), BoolText(m.isWorkspace), BoolText(m.resizable)]
    + if m.isFile then [m.fileName] else []
  }

  function MountArg(m: GuestMount): string
  {
    WORKSPACE_MOUNT + Join(Fields(m), ':')
  }

  function MountArgs(mounts: seq<GuestMount>): seq<string>
  {
    seq(|mounts|, i requires 0 <= i < |mounts| => MountArg(mounts[i]))
  }

  /** Arguments as they are appended to a command line, each after a space. */
  function Spaced(args: seq<string>): string
  {
    if args == [] then "" else [' '] + args[0] + Spaced(args[1..])
  }

  method WorkspaceMountCmdline(mounts: seq<GuestMount>) returns (b: string)
    ensures b == DISK_BOOT_CMDLINE_BASE + " --" + Spaced(MountArgs(mounts))
  {
    b := DISK_BOOT_CMDLINE_BASE + " --";
    assert b == DISK_BOOT_CMDLINE_BASE + " --" + Spaced(MountArgs(mounts)[..0]);
    for i := 0 to |mounts|
      invariant b == DISK_BOOT_CMDLINE_BASE + " --" + Spaced(MountArgs(mounts)[..i])
    {
      SpacedAppend(MountArgs(mounts)[..i], MountArg(mounts[i]));
      assert MountArgs(mounts)[..i + 1] == MountArgs(mounts)[..i] + [MountArg(mounts[i])];
      b := b + " " + MountArg(mounts[i]);
    }
    assert MountArgs(mounts)[..|mounts|] == MountArgs(mounts);
  }

  lemma {:induction false} SpacedAppend(args: seq<string>, a: string)
    ensures Spaced(args + [a]) == Spaced(args) + " " + a
  {
    if args == [] {
      assert args + [a] == [a];
    } else {
      assert (args + [a])[1..] == args[1..] + [a];
      SpacedAppend(args[1..], a);
    }
  }

  lemma {:induction false} SpacedConcat(a: seq<string>, b: seq<string>)
    ensures Spaced(a + b) == Spaced(a) + Spaced(b)
  {
    if a == [] {
      assert a + b == b;
    } else {
      assert (a + b)[1..] == a[1..] + b;
      SpacedConcat(a[1..], b);
    }
  }

  /** `string(rune('b' + index))`: Go replaces what is not a code point by U+FFFD. */
  function DiskLetter(index: nat): char
  {
    var x := 98 + index;
    if x < 0xD800 || 0xE000 <= x < 0x11_0000 then x as char else '\U{FFFD}'
  }

  /** The guest device of ExtraDisks[index]. */
  function DevicePath(index: nat): string
  {
    "/dev/vd" + [DiskLetter(index)]
  }

  function ScratchArgs(index: int): seq<string>
  {
    if index < 0 then [] else [SCRATCH_DISK + DevicePath(index)]
  }

  function Lower(c: char): char
  {
    if 'A' <= c <= 'Z' then (c as int + 32) as char else c
  }

  /** sandboxHandleHostname: [a-z0-9-], at most 63 bytes. */
  function Hostname(handle: string): string
  {
    var b := seq(|handle|, i requires 0 <= i < |handle| =>
                   var c := Lower(handle[i]);
                   if 'a' <= c <= 'z' || '0' <= c <= '9' || c == '-' then c else '-');
    if |b| > 63 then b[..63] else b
  }

  /** At most 63 letters, digits and hyphens: the handle's own as far as it has them, lower-cased, else '-'. */
  lemma HostnameIsLegal(handle: string, i: nat)
    ensures |Hostname(handle)| == if |handle| < 63 then |handle| else 63
    ensures i < |Hostname(handle)| ==>
              var c, r := handle[i], Hostname(handle)[i];
              && ('a' <= r <= 'z' || '0' <= r <= '9' || r == '-')
              && ('a' <= c <= 'z' || '0' <= c <= '9' ==> r == c)
              && ('A' <= c <= 'Z' ==> r as int == c as int + 32)
              && (r == '-' <==> !('a' <= c <= 'z') && !('A' <= c <= 'Z') && !('0' <= c <= '9'))
  {
  }

  /** guestBootCmdline; `pid1Args` are the arguments the auto-resize configuration adds. */
  function GuestBootCmdline(mounts: seq<GuestMount>, pid1Args: seq<string>, handle: string, scratchIndex: int): string
  {
    DISK_BOOT_CMDLINE_BASE + " --" + Spaced(MountArgs(mounts)) + Spaced(pid1Args)
    + Spaced(ScratchArgs(scratchIndex)) + (" " + (SANDBOX_HANDLE + Hostname(handle)))
  }

  // ----- the guest side: parsing -----

  /** What the agent reads off the colon-separated fields. */
  function FromFields(parts: seq<string>): Option<GuestMount>
  {
    if |parts| < 4 || parts[0] == "" || parts[1] == "" || parts[2] == "" then None
    else
      var fileName := if |parts| == 7 then parts[6] else "";
      Some(GuestMount(parts[0], parts[1], parts[2], parts[3] == "true",
                      |parts| >= 5 && parts[4] == "true",
                      |parts| >= 6 && parts[5] == "true",
                      fileName != "", fileName))
  }

  function ParseWorkspaceMountArg(arg: string): Option<GuestMount>
  {
    if !HasPrefix(arg, WORKSPACE_MOUNT) then None
    else FromFields(SplitN(TrimPrefix(arg, WORKSPACE_MOUNT), ':', 7))
  }

  function ParseScratchDiskArg(arg: string): Option<string>
  {
    if HasPrefix(arg, SCRATCH_DISK) && TrimPrefix(arg, SCRATCH_DISK) != "" then Some(TrimPrefix(arg, SCRATCH_DISK))
    else None
  }

  /** The values among options, in order. */
  function Values<T>(options: seq<Option<T>>): seq<T>
  {
    if options == [] then [] else (if options[0].Some? then [options[0].value] else []) + Values(options[1..])
  }

  function ParseEach(args: seq<string>): seq<Option<GuestMount>>
  {
    seq(|args|, i requires 0 <= i < |args| => ParseWorkspaceMountArg(args[i]))
  }

  function ScanMounts(args: seq<string>): seq<GuestMount>
  {
    Values(ParseEach(args))
  }

  /** The last well-formed --scratch-disk wins; "" when there is none. */
  function ScanScratch(args: seq<string>): string
  {
    if args == [] then ""
    else
      var dev := ParseScratchDiskArg(args[|args| - 1]);
      if dev.Some? then dev.value else ScanScratch(args[..|args| - 1])
  }

  /** The last --sandbox-handle; "" when there is none. */
  function ScanHandle(args: seq<string>): string
  {
    if args == [] then ""
    else if HasPrefix(args[|args| - 1], SANDBOX_HANDLE) then TrimPrefix(args[|args| - 1], SANDBOX_HANDLE)
    else ScanHandle(args[..|args| - 1])
  }

  /** The words the kernel passes to init: those after "--". */
  function InitArgs(words: seq<string>): seq<string>
  {
    if words == [] then [] else if words[0] == "--" then words[1..] else InitArgs(words[1..])
  }

  /** main's loop over its arguments, as far as mounts, scratch disk and handle go. */
  method ParseArgs(args: seq<string>) returns (mounts: seq<GuestMount>, scratch: string, handle: string)
    ensures mounts == ScanMounts(args) && scratch == ScanScratch(args) && handle == ScanHandle(args)
  {
    mounts, scratch, handle := [], "", "";
    for i := 0 to |args|
      invariant mounts == ScanMounts(args[..i]) && scratch == ScanScratch(args[..i]) && handle == ScanHandle(args[..i])
    {
      PrefixesDiffer(args[i]);
      assert args[..i + 1] == args[..i] + [args[i]];
      ScanMountsConcat(args[..i], [args[i]]);
      ScanOne(args[i]);
      if HasPrefix(args[i], SCRATCH_DISK) {
        var dev := ParseScratchDiskArg(args[i]);
        if dev.Some? {
          scratch := dev.value;
        }
      } else if HasPrefix(args[i], SANDBOX_HANDLE) {
        handle := TrimPrefix(args[i], SANDBOX_HANDLE);
      } else if HasPrefix(args[i], WORKSPACE_MOUNT) {
        var m := ParseWorkspaceMountArg(args[i]);
        if m.Some? {
          mounts := mounts + [m.value];
        }
      }
    }
    assert args[..|args|] == args;
  }

  lemma PrefixesDiffer(arg: string)
    ensures !(HasPrefix(arg, SCRATCH_DISK) && HasPrefix(arg, WORKSPACE_MOUNT))
    ensures HasPrefix(arg, SANDBOX_HANDLE) ==> !HasPrefix(arg, SCRATCH_DISK) && !HasPrefix(arg, WORKSPACE_MOUNT)
  {
    assert SCRATCH_DISK[3] == 'c' && WORKSPACE_MOUNT[3] == 'o' && SANDBOX_HANDLE[3] == 'a';
  }

  lemma {:induction false} ValuesConcat<T>(a: seq<Option<T>>, b: seq<Option<T>>)
    ensures Values(a + b) == Values(a) + Values(b)
  {
    if a == [] {
      assert a + b == b;
    } else {
      var head := if a[0].Some? then [a[0].value] else [];
      assert (a + b)[0] == a[0] && (a + b)[1..] == a[1..] + b;
      ValuesConcat(a[1..], b);
      assert head + (Values(a[1..]) + Values(b)) == (head + Values(a[1..])) + Values(b);
    }
  }

  lemma ScanMountsConcat(a: seq<string>, b: seq<string>)
    ensures ScanMounts(a + b) == ScanMounts(a) + ScanMounts(b)
  {
    ValuesConcat(ParseEach(a), ParseEach(b));
    assert ParseEach(a + b) == ParseEach(a) + ParseEach(b);
  }

  lemma ValuesOfOne<T>(o: Option<T>)
    ensures Values([o]) == if o.Some? then [o.value] else []
  {
  }

  lemma ScanOne(arg: string)
    ensures ScanMounts([arg])
         == if ParseWorkspaceMountArg(arg).Some? then [ParseWorkspaceMountArg(arg).value] else []
  {
    assert ParseEach([arg]) == [ParseWorkspaceMountArg(arg)];
    ValuesOfOne(ParseWorkspaceMountArg(arg));
  }

  lemma {:induction false} ValuesOfSome<T>(options: seq<Option<T>>, values: seq<T>)
    requires |options| == |values| && forall i | 0 <= i < |values| :: options[i] == Some(values[i])
    ensures Values(options) == values
  {
    if values != [] {
      ValuesOfSome(options[1..], values[1..]);
    }
  }

  lemma {:induction false} ValuesOfNone<T>(options: seq<Option<T>>)
    requires forall i | 0 <= i < |options| :: options[i] == None
    ensures Values(options) == []
  {
    if options != [] {
      ValuesOfNone(options[1..]);
    }
  }

  // ----- the round trip -----

  predicate Field(f: string)
  {
    f != "" && ':' !in f
  }

  /** A mount the argument's colon-separated form can carry. */
  predicate Carried(m: GuestMount)
  {
    && Field(m.device) && Field(m.target) && Field(m.fsType)
    && (m.isFile <==> m.fileName != "")
  }

  /** Nothing at which the kernel cuts or quotes its command line. */
  predicate Unbroken(s: string)
  {
    forall i | 0 <= i < |s| :: !Space(s[i]) && s[i] != '"'
  }

  /** A mount the command line can carry. */
  predicate Printable(m: GuestMount)
  {
    Carried(m) && Unbroken(m.device) && Unbroken(m.target) && Unbroken(m.fsType) && Unbroken(m.fileName)
  }

  predicate Plain(arg: string)
  {
    Unbroken(arg) && !HasPrefix(arg, WORKSPACE_MOUNT) && !HasPrefix(arg, SCRATCH_DISK)
  }

  lemma BoolRoundTrip(b: bool)
    ensures (BoolText(b) == "true") == b && ':' !in BoolText(b) && ' ' !in BoolText(b)
  {
  }

  lemma ParseJoined(fields: seq<string>)
    requires 1 <= |fields| <= 7 && forall i | 0 <= i < |fields| && i < 6 :: ':' !in fields[i]
    ensures ParseWorkspaceMountArg(WORKSPACE_MOUNT + Join(fields, ':')) == FromFields(fields)
  {
    SplitNJoin(fields, ':', 7);
    TrimPrefixed(WORKSPACE_MOUNT, Join(fields, ':'));
  }

  lemma TrimPrefixed(prefix: string, rest: string)
    ensures HasPrefix(prefix + rest, prefix) && TrimPrefix(prefix + rest, prefix) == rest
  {
  }

  lemma ParsePrinted(m: GuestMount)
    requires Carried(m)
    ensures ParseWorkspaceMountArg(MountArg(m)) == Some(m)
  {
    BoolRoundTrip(m.readOnly);
    BoolRoundTrip(m.isWorkspace);
    BoolRoundTrip(m.resizable);
    ParseJoined(Fields(m));
  }

  /** Exactly the mounts without a colon in the wrong place survive printing and parsing. */
  lemma PrintParseIff(m: GuestMount)
    ensures ParseWorkspaceMountArg(MountArg(m)) == Some(m) <==> Carried(m)
  {
    if Carried(m) {
      ParsePrinted(m);
    }
    var fields := Join(Fields(m), ':');
    TrimPrefixed(WORKSPACE_MOUNT, fields);
    SplitNParts(fields, ':', 7);
  }

  lemma {:induction false} NoSpaceJoin(parts: seq<string>, c: char)
    requires c != ' ' && forall i | 0 <= i < |parts| :: ' ' !in parts[i]
    ensures ' ' !in Join(parts, c)
  {
    if |parts| > 1 {
      NoSpaceJoin(parts[1..], c);
    }
  }

  lemma MountArgHasNoSpace(m: GuestMount)
    requires Printable(m)
    ensures ' ' !in MountArg(m)
  {
    BoolRoundTrip(m.readOnly);
    BoolRoundTrip(m.isWorkspace);
    BoolRoundTrip(m.resizable);
    NoSpaceJoin(Fields(m), ':');
  }

  lemma ScanPrinted(mounts: seq<GuestMount>)
    requires forall m | m in mounts :: Printable(m)
    ensures ScanMounts(MountArgs(mounts)) == mounts
  {
    forall i | 0 <= i < |mounts|
      ensures ParseEach(MountArgs(mounts))[i] == Some(mounts[i])
    {
      assert mounts[i] in mounts;
      ParsePrinted(mounts[i]);
    }
    ValuesOfSome(ParseEach(MountArgs(mounts)), mounts);
  }

  lemma ScanPlain(args: seq<string>)
    requires forall a | a in args :: Plain(a) || HasPrefix(a, SCRATCH_DISK)
    ensures ScanMounts(args) == []
  {
    forall i | 0 <= i < |args|
      ensures ParseEach(args)[i] == None
    {
      assert args[i] in args;
      PrefixesDiffer(args[i]);
    }
    ValuesOfNone(ParseEach(args));
  }

  lemma {:induction false} ScratchSkips(args: seq<string>, rest: seq<string>)
    requires forall a | a in rest :: ParseScratchDiskArg(a) == None
    ensures ScanScratch(args + rest) == ScanScratch(args)
  {
    if rest == [] {
      assert args + rest == args;
    } else {
      assert (args + rest)[..|args + rest| - 1] == args + rest[..|rest| - 1];
      ScratchSkips(args, rest[..|rest| - 1]);
    }
  }

  lemma {:induction false} SplitSpaced(w: string, args: seq<string>)
    requires ' ' !in w && forall a | a in args :: ' ' !in a
    ensures Split(w + Spaced(args), ' ') == [w] + args
    decreases |args|
  {
    if args == [] {
      assert w + Spaced(args) == w;
      SplitFree(w, ' ');
    } else {
      assert w + Spaced(args) == w + [' '] + (args[0] + Spaced(args[1..]));
      SplitCut(w, ' ', args[0] + Spaced(args[1..]));
      SplitSpaced(args[0], args[1..]);
    }
  }

  /** Everything after "--" on the printed command line. */
  function PrintedArgs(mounts: seq<GuestMount>, pid1Args: seq<string>, handle: string, scratchIndex: int): seq<string>
  {
    MountArgs(mounts) + pid1Args + ScratchArgs(scratchIndex) + [SANDBOX_HANDLE + Hostname(handle)]
  }

  /** Five words, then lists of arguments, as one list. */
  lemma SpacedParts(w: seq<string>, a: seq<string>, b: seq<string>, c: seq<string>, last: string)
    requires |w| == 5
    ensures w[0] + " " + w[1] + " " + w[2] + " " + w[3] + (" " + w[4]) + Spaced(a) + Spaced(b) + Spaced(c)
            + (" " + last)
         == w[0] + Spaced(w[1..] + (a + b + c + [last]))
  {
    SpacedFive(w);
    SpacedTail(w[0] + Spaced(w[1..]), a, b, c, last);
    SpacedConcat(w[1..], a + b + c + [last]);
    assert w[0] + Spaced(w[1..]) + Spaced(a + b + c + [last]) == w[0] + (Spaced(w[1..]) + Spaced(a + b + c + [last]));
  }

  lemma SpacedTail(x: string, a: seq<string>, b: seq<string>, c: seq<string>, last: string)
    ensures x + Spaced(a) + Spaced(b) + Spaced(c) + (" " + last) == x + Spaced(a + b + c + [last])
  {
    SpacedAppend(a + b + c, last);
    SpacedConcat(a + b, c);
    SpacedConcat(a, b);
  }

  lemma SpacedFive(w: seq<string>)
    requires |w| == 5
    ensures w[0] + " " + w[1] + " " + w[2] + " " + w[3] + (" " + w[4]) == w[0] + Spaced(w[1..])
  {
    var rest := w[1..];
    assert Spaced(rest[3..]) == " " + w[4] + Spaced([]);
    assert Spaced(rest[2..]) == " " + w[3] + Spaced(rest[3..]);
    assert Spaced(rest[1..]) == " " + w[2] + Spaced(rest[2..]);
  }

  lemma InitArgsAfter(w: seq<string>, args: seq<string>)
    requires |w| == 5 && w[4] == "--" && forall i | 0 <= i < 4 :: w[i] != "--"
    ensures InitArgs(w + args) == args
  {
    var words := w + args;
    assert words[1..][1..] == words[2..] && words[2..][1..] == words[3..] && words[3..][1..] == words[4..];
    assert InitArgs(words[4..]) == words[4..][1..] == args;
    assert InitArgs(words[3..]) == InitArgs(words[4..]);
    assert InitArgs(words[2..]) == InitArgs(words[3..]);
  }

  lemma BaseWords() returns (w: seq<string>)
    ensures w == ["root=/dev/vda", "rw", "init=/sbin/nexus-agent", "console=ttyS0", "--"]
    ensures DISK_BOOT_CMDLINE_BASE + " --" == w[0] + " " + w[1] + " " + w[2] + " " + w[3] + (" " + w[4])
    ensures forall i | 0 <= i < 4 :: w[i] != "--"
    ensures forall i | 0 <= i < 5 :: ' ' !in w[i]
  {
    w := ["root=/dev/vda", "rw", "init=/sbin/nexus-agent", "console=ttyS0", "--"];
  }

  lemma PrintedHaveNoSpace(mounts: seq<GuestMount>, pid1Args: seq<string>, handle: string, scratchIndex: int)
    requires (forall m | m in mounts :: Printable(m)) && forall a | a in pid1Args :: Plain(a)
    ensures forall a | a in PrintedArgs(mounts, pid1Args, handle, scratchIndex) :: ' ' !in a
  {
    forall a | a in MountArgs(mounts)
      ensures ' ' !in a
    {
      var i :| 0 <= i < |mounts| && a == MountArg(mounts[i]);
      MountArgHasNoSpace(mounts[i]);
    }
    HandleIsPlain(handle);
    ScratchHasNoSpace(scratchIndex);
  }

  lemma ScratchHasNoSpace(scratchIndex: int)
    ensures forall a | a in ScratchArgs(scratchIndex) :: ' ' !in a
  {
  }

  /** Split on spaces, the printed command line hands init exactly the printed arguments. */
  lemma InitGetsPrintedArgs(mounts: seq<GuestMount>, pid1Args: seq<string>, handle: string, scratchIndex: int)
    requires (forall m | m in mounts :: Printable(m)) && forall a | a in pid1Args :: Plain(a)
    ensures InitArgs(Split(GuestBootCmdline(mounts, pid1Args, handle, scratchIndex), ' '))
         == PrintedArgs(mounts, pid1Args, handle, scratchIndex)
  {
    var args := PrintedArgs(mounts, pid1Args, handle, scratchIndex);
    PrintedHaveNoSpace(mounts, pid1Args, handle, scratchIndex);
    var w := BaseWords();
    SpacedParts(w, MountArgs(mounts), pid1Args, ScratchArgs(scratchIndex), SANDBOX_HANDLE + Hostname(handle));
    SplitWords(w, args);
    InitArgsAfter(w, args);
  }

  lemma SplitWords(w: seq<string>, args: seq<string>)
    requires |w| == 5 && (forall i | 0 <= i < 5 :: ' ' !in w[i]) && forall a | a in args :: ' ' !in a
    ensures Split(w[0] + Spaced(w[1..] + args), ' ') == w + args
  {
    SplitSpaced(w[0], w[1..] + args);
    assert [w[0]] + (w[1..] + args) == w + args;
  }

  lemma ScanPrintedMounts(mounts: seq<GuestMount>, pid1Args: seq<string>, scratch: seq<string>, last: string)
    requires (forall m | m in mounts :: Printable(m)) && (forall a | a in pid1Args :: Plain(a)) && Plain(last)
    requires forall a | a in scratch :: HasPrefix(a, SCRATCH_DISK)
    ensures ScanMounts(MountArgs(mounts) + pid1Args + scratch + [last]) == mounts
  {
    ScanMountsConcat(MountArgs(mounts) + pid1Args + scratch, [last]);
    ScanMountsConcat(MountArgs(mounts) + pid1Args, scratch);
    ScanMountsConcat(MountArgs(mounts), pid1Args);
    ScanPrinted(mounts);
    ScanPlain(pid1Args);
    ScanPlain(scratch);
    ScanPlain([last]);
  }

  lemma MountArgIsNoScratch(m: GuestMount)
    ensures ParseScratchDiskArg(MountArg(m)) == None
  {
    TrimPrefixed(WORKSPACE_MOUNT, Join(Fields(m), ':'));
    PrefixesDiffer(MountArg(m));
  }

  lemma ScanPrintedScratch(front: seq<string>, scratchIndex: int, last: string)
    requires (forall a | a in front :: ParseScratchDiskArg(a) == None) && ParseScratchDiskArg(last) == None
    ensures ScanScratch(front + ScratchArgs(scratchIndex) + [last])
         == if scratchIndex < 0 then "" else DevicePath(scratchIndex)
  {
    ScratchSkips(front + ScratchArgs(scratchIndex), [last]);
    if scratchIndex >= 0 {
      TrimPrefixed(SCRATCH_DISK, DevicePath(scratchIndex));
      assert (front + ScratchArgs(scratchIndex))[|front|] == SCRATCH_DISK + DevicePath(scratchIndex);
    } else {
      assert [] + front == front + ScratchArgs(scratchIndex);
      ScratchSkips([], front);
    }
  }

  /**
    The boot round trip: what the guest parses from the printed command line is the mounts the
    host printed, in order, the scratch device the host chose, if any, and the hostname.
   */
  lemma BootRoundTrip(mounts: seq<GuestMount>, pid1Args: seq<string>, handle: string, scratchIndex: int)
    requires (forall m | m in mounts :: Printable(m)) && forall a | a in pid1Args :: Plain(a)
    ensures
      var args := InitArgs(Split(GuestBootCmdline(mounts, pid1Args, handle, scratchIndex), ' '));
      && ScanMounts(args) == mounts
      && ScanHandle(args) == Hostname(handle)
      && ScanScratch(args) == if scratchIndex < 0 then "" else DevicePath(scratchIndex)
  {
    InitGetsPrintedArgs(mounts, pid1Args, handle, scratchIndex);
    var last := SANDBOX_HANDLE + Hostname(handle);
    HandleIsPlain(handle);
    ScanLastHandle(MountArgs(mounts) + pid1Args + ScratchArgs(scratchIndex), Hostname(handle));
    ScanPrintedMounts(mounts, pid1Args, ScratchArgs(scratchIndex), last);
    forall a | a in MountArgs(mounts)
      ensures ParseScratchDiskArg(a) == None
    {
      var i :| 0 <= i < |mounts| && a == MountArg(mounts[i]);
      MountArgIsNoScratch(mounts[i]);
    }
    ScanPrintedScratch(MountArgs(mounts) + pid1Args, scratchIndex, last);
  }

  lemma ScanLastHandle(front: seq<string>, hostname: string)
    ensures ScanHandle(front + [SANDBOX_HANDLE + hostname]) == hostname
  {
  }

  lemma HandleIsPlain(handle: string)
    ensures Plain(SANDBOX_HANDLE + Hostname(handle))
  {
    TrimPrefixed(SANDBOX_HANDLE, Hostname(handle));
    PrefixesDiffer(SANDBOX_HANDLE + Hostname(handle));
  }

  /** Older hosts print four, five or six fields: what is missing reads as false. */
  lemma LegacyForms(fields: seq<string>)
    requires 4 <= |fields| <= 6 && forall i | 0 <= i < |fields| :: ':' !in fields[i]
    requires fields[0] != "" && fields[1] != "" && fields[2] != ""
    ensures ParseWorkspaceMountArg(WORKSPACE_MOUNT + Join(fields, ':'))
         == Some(GuestMount(fields[0], fields[1], fields[2], fields[3] == "true",
                            |fields| >= 5 && fields[4] == "true", |fields| >= 6 && fields[5] == "true", false, ""))
  {
    ParseJoined(fields);
  }
}
