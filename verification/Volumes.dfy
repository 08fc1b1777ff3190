/** Named volumes on the command line: `<name>:<guest-path>[:ro,kind=dir,size=Xg]`. */
module Volumes {
  import opened Options
  import opened Text

  datatype Kind = Disk | Dir

  datatype NamedMount = NamedMount(name: string, guestPath: string, kind: Kind, readOnly: bool, sizeBytes: int)

  // ----- numbers -----

  const INT64_MAX: int := 0x7FFF_FFFF_FFFF_FFFF

  /** strconv.ParseInt(s, 10, 64). */
  function ParseInt(s: string): Option<int>
  {
    var digits := if s != "" && (s[0] == '+' || s[0] == '-') then s[1..] else s;
    if digits == "" || !Digits(digits) then None
    else
      var v: int := if s[0] == '-' then 0 - Value(digits) else Value(digits);
      if -INT64_MAX - 1 <= v <= INT64_MAX then Some(v) else None
  }

  /** What is left of `v` in 64 bits. */
  function Wrap64(v: int): int
  {
    (v + INT64_MAX + 1) % (2 * (INT64_MAX + 1)) - INT64_MAX - 1
  }

  /** The bytes a size means: a number with g, m or k in either case, or a plain count. */
  function ParseVolumeSize(s: string): Option<int>
  {
    if s == "" then None
    else
      var suffix := s[|s| - 1];
      var number := ParseInt(s[..|s| - 1]);
      if suffix == 'g' || suffix == 'G' then Scaled(number, 0x4000_0000)
      else if suffix == 'm' || suffix == 'M' then Scaled(number, 0x10_0000)
      else if suffix == 'k' || suffix == 'K' then Scaled(number, 0x400)
      else ParseInt(s)
  }

  function Scaled(v: Option<int>, unit: int): Option<int>
  {
    if v.None? then None else Some(Wrap64(v.value * unit))
  }

  lemma ParseDecimal(n: nat)
    requires n <= INT64_MAX
    ensures ParseInt(Decimal(n)) == Some(n)
  {
    var s := Decimal(n);
    assert '0' <= s[0] <= '9';
  }

  lemma WrapIff(v: nat)
    ensures Wrap64(v) == v <==> v <= INT64_MAX
  {
  }

  /** The bytes in one unit of a suffix, in either case. */
  function Unit(c: char): nat
  {
    match c
    case 'g' => 0x4000_0000
    case 'G' => 0x4000_0000
    case 'm' => 0x10_0000
    case 'M' => 0x10_0000
    case 'k' => 0x400
    case 'K' => 0x400
    case _ => 1
  }

  lemma ParseSuffix(n: nat, c: char)
    requires n <= INT64_MAX && Unit(c) != 1
    ensures ParseVolumeSize(Decimal(n) + [c]) == Scaled(Some(n), Unit(c))
  {
    ParseDecimal(n);
    var s := Decimal(n) + [c];
    assert s[..|s| - 1] == Decimal(n) && s[|s| - 1] == c;
  }

  /** A whole number of units is read back exactly if it fits; beyond that the shift loses bits. */
  lemma ParseUnits(n: nat, c: char)
    requires n <= INT64_MAX && Unit(c) != 1
    ensures ParseVolumeSize(Decimal(n) + [c]) == Some(n * Unit(c)) <==> n * Unit(c) <= INT64_MAX
  {
    ParseSuffix(n, c);
    WrapIff(n * Unit(c));
  }

  /** A plain number counts bytes. */
  lemma ParseBytes(n: nat)
    requires n <= INT64_MAX
    ensures ParseVolumeSize(Decimal(n)) == Some(n)
  {
    ParseDecimal(n);
    var s := Decimal(n);
    assert '0' <= s[|s| - 1] <= '9';
  }

  /** A size in whole GiB is read back exactly below 2^33 GiB. */
  lemma ParseGiB(n: nat)
    requires n <= INT64_MAX
    ensures ParseVolumeSize(Decimal(n) + "g") == Some(n * 0x4000_0000) <==> n < 0x2_0000_0000
  {
    ParseUnits(n, 'g');
    assert Decimal(n) + "g" == Decimal(n) + ['g'];
  }

  // ----- specs -----

  predicate HasGitComponent(path: string)
  {
    ".git" in Split(path, '/')
  }

  /** Parts are made of the characters of the whole. */
  lemma {:induction false} PartsOf(s: string, c: char, part: string, x: char)
    requires part in Split(s, c) && x in part
    ensures x in s
  {
    if s != "" {
      var rest := Split(s[1..], c);
      if s[0] == c {
        assert Split(s, c) == [""] + rest;
        PartsOf(s[1..], c, part, x);
      } else {
        assert Split(s, c) == [[s[0]] + rest[0]] + rest[1..];
        if part in rest[1..] {
          assert part in rest;
          PartsOf(s[1..], c, part, x);
        } else {
          assert part == [s[0]] + rest[0];
          if x != s[0] {
            PartsOf(s[1..], c, rest[0], x);
          }
        }
      }
    }
  }

  lemma NoGitComponent(path: string)
    requires '.' !in path || 'g' !in path
    ensures !HasGitComponent(path)
  {
    if HasGitComponent(path) {
      assert ".git"[0] == '.' && ".git"[1] == 'g';
      PartsOf(path, '/', ".git", '.');
      PartsOf(path, '/', ".git", 'g');
    }
  }

  /** One option; None is a usage error. */
  function WithOption(m: NamedMount, opt: string): Option<NamedMount>
  {
    if opt == "ro" then Some(m.(readOnly := true))
    else if opt == "kind=dir" then Some(m.(kind := Dir))
    else if HasPrefix(opt, "size=") then
      var size := ParseVolumeSize(TrimPrefix(opt, "size="));
      if size.None? then None else Some(m.(sizeBytes := size.value))
    else None
  }

  /** An option the parser knows. */
  predicate KnownOption(opt: string)
  {
    opt == "ro" || opt == "kind=dir" || (HasPrefix(opt, "size=") && ParseVolumeSize(opt[5..]).Some?)
  }

  /** Each option sets its own field and leaves the rest. */
  lemma OptionSets(m: NamedMount, v: string)
    ensures WithOption(m, "ro") == Some(m.(readOnly := true))
    ensures WithOption(m, "kind=dir") == Some(m.(kind := Dir))
    ensures WithOption(m, "size=" + v)
         == if ParseVolumeSize(v).None? then None else Some(m.(sizeBytes := ParseVolumeSize(v).value))
  {
    var opt := "size=" + v;
    assert opt[0] == 's' && "ro"[0] == 'r' && "kind=dir"[0] == 'k';
    assert TrimPrefix(opt, "size=") == v;
  }

  /** Anything else is refused. */
  lemma OptionIff(m: NamedMount, opt: string)
    ensures WithOption(m, opt).Some? <==> KnownOption(opt)
    ensures WithOption(m, opt).Some? ==>
              var r := WithOption(m, opt).value;
              && r.name == m.name && r.guestPath == m.guestPath
              && (r.readOnly <==> m.readOnly || opt == "ro") && (r.kind == Dir <==> m.kind == Dir || opt == "kind=dir")
  {
  }

  function WithOptions(m: NamedMount, opts: seq<string>): Option<NamedMount>
  {
    if opts == [] then Some(m)
    else
      var front := WithOptions(m, opts[..|opts| - 1]);
      if front.None? then None else WithOption(front.value, opts[|opts| - 1])
  }

  /**
    A list is accepted exactly if each of its options is; then the volume is read-only or a directory
    exactly if some option says so, and keeps its name and path.
   */
  lemma {:induction false} OptionsMean(m: NamedMount, opts: seq<string>)
    ensures WithOptions(m, opts).Some? <==> forall o | o in opts :: KnownOption(o)
    ensures WithOptions(m, opts).Some? ==>
              var r := WithOptions(m, opts).value;
              && r.name == m.name && r.guestPath == m.guestPath
              && (r.readOnly <==> m.readOnly || "ro" in opts)
              && (r.kind == Dir <==> m.kind == Dir || "kind=dir" in opts)
  {
    if opts != [] {
      var front, o := opts[..|opts| - 1], opts[|opts| - 1];
      OptionsMean(m, front);
      assert opts == front + [o];
      if WithOptions(m, front).Some? {
        OptionIff(WithOptions(m, front).value, o);
      }
    }
  }

  predicate WellFormed(parts: seq<string>)
  {
    && |parts| >= 2 && parts[0] != "" && parts[1] != "" && ".git" !in Split(parts[1], '/')
    && (|parts| == 3 ==> forall o | o in Split(parts[2], ',') :: KnownOption(o))
  }

  /**
    A spec is accepted exactly if it has a name, a path free of .git components, and known options;
    without options it is a writable disk of no particular size.
   */
  lemma SpecIff(spec: string)
    ensures Parsed(spec).Some? <==> WellFormed(SplitN(spec, ':', 3))
    ensures Parsed(spec).Some? && |SplitN(spec, ':', 3)| == 2 ==>
              Parsed(spec) == Some(NamedMount(SplitN(spec, ':', 3)[0], SplitN(spec, ':', 3)[1], Disk, false, 0))
  {
    var parts := SplitN(spec, ':', 3);
    if |parts| == 3 {
      OptionsMean(NamedMount(parts[0], parts[1], Disk, false, 0), Split(parts[2], ','));
    }
  }

  lemma {:induction false} OptionsFail(m: NamedMount, opts: seq<string>, i: nat)
    requires i <= |opts| && WithOptions(m, opts[..i]).None?
    ensures WithOptions(m, opts).None?
    decreases |opts| - i
  {
    if i == |opts| {
      assert opts[..i] == opts;
    } else {
      assert opts[..i + 1][..i] == opts[..i];
      OptionsFail(m, opts, i + 1);
    }
  }

  function Parsed(spec: string): Option<NamedMount>
  {
    var parts := SplitN(spec, ':', 3);
    if |parts| < 2 || parts[0] == "" || parts[1] == "" || HasGitComponent(parts[1]) then None
    else
      var m := NamedMount(parts[0], parts[1], Disk, false, 0);
      if |parts| == 3 then WithOptions(m, Split(parts[2], ',')) else Some(m)
  }

  method ParseMountNamed(spec: string) returns (r: Option<NamedMount>)
    ensures r == Parsed(spec)
  {
    var parts := SplitN(spec, ':', 3);
    if |parts| < 2 || parts[0] == "" || parts[1] == "" {
      return None;
    }
    if HasGitComponent(parts[1]) {
      return None;
    }
    var m := NamedMount(parts[0], parts[1], Disk, false, 0);
    ghost var m0 := m;
    if |parts| == 3 {
      var opts := Split(parts[2], ',');
      for i := 0 to |opts|
        invariant WithOptions(m0, opts[..i]) == Some(m)
      {
        assert opts[..i + 1][..i] == opts[..i];
        var next := WithOption(m, opts[i]);
        if next.None? {
          OptionsFail(m0, opts, i + 1);
          return None;
        }
        m := next.value;
      }
      assert opts[..|opts|] == opts;
    }
    return Some(m);
  }

  // ----- round trip -----

  function SizedSpec(name: string, guestPath: string, gib: nat): string
  {
    name + ":" + guestPath + ":size=" + Decimal(gib) + "g"
  }

  lemma SizeOption(m: NamedMount, gib: nat)
    requires gib < 0x2_0000_0000
    ensures WithOption(m, "size=" + (Decimal(gib) + "g")) == Some(m.(sizeBytes := gib * 0x4000_0000))
  {
    var opt := "size=" + (Decimal(gib) + "g");
    assert opt[0] == 's' && "ro"[0] == 'r' && "kind=dir"[0] == 'k';
    assert TrimPrefix(opt, "size=") == Decimal(gib) + "g";
    ParseGiB(gib);
  }

  lemma SplitThree(a: string, b: string, c: string)
    requires ':' !in a && ':' !in b
    ensures SplitN(a + [':'] + (b + [':'] + c), ':', 3) == [a, b, c]
  {
    SplitNCut(a, ':', b + [':'] + c, 3);
    SplitNCut(b, ':', c, 2);
  }

  lemma OneOption(m: NamedMount, gib: nat)
    requires gib < 0x2_0000_0000
    ensures WithOptions(m, Split("size=" + (Decimal(gib) + "g"), ',')) == Some(m.(sizeBytes := gib * 0x4000_0000))
  {
    var opt := "size=" + (Decimal(gib) + "g");
    SplitFree(opt, ',');
    SizeOption(m, gib);
    assert [opt][..0] == [];
  }

  /** A printed spec is read back as a writable disk volume of that many GiB. */
  lemma SizedRoundTrip(name: string, guestPath: string, gib: nat)
    requires name != "" && ':' !in name && guestPath != "" && ':' !in guestPath && !HasGitComponent(guestPath)
    requires gib < 0x2_0000_0000
    ensures Parsed(SizedSpec(name, guestPath, gib)) == Some(NamedMount(name, guestPath, Disk, false, gib * 0x4000_0000))
  {
    var opt := "size=" + (Decimal(gib) + "g");
    SplitThree(name, guestPath, opt);
    OneOption(NamedMount(name, guestPath, Disk, false, 0), gib);
    assert SizedSpec(name, guestPath, gib) == name + [':'] + (guestPath + [':'] + opt);
  }
}
