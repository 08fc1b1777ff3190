/** Names derived from a worktree: the sandbox handle and the stems of its volume names. */
module Names {
  import opened Text

  /** Both ends, as long as they are in `cut`. */
  function Trim(s: string, cut: string): (r: string)
    ensures r == "" || (r[0] !in cut && r[|r| - 1] !in cut)
    ensures forall c | c in r :: c in s
  {
    if s == "" then ""
    else if s[0] in cut then Trim(s[1..], cut)
    else if s[|s| - 1] in cut then Trim(s[..|s| - 1], cut)
    else s
  }

  /** What is cut off at either end consists of `cut` alone. */
  lemma {:induction false} TrimKeepsTheMiddle(s: string, cut: string) returns (i: nat, j: nat)
    ensures i <= j <= |s| && Trim(s, cut) == s[i..j]
    ensures forall k | 0 <= k < i || j <= k < |s| :: s[k] in cut
  {
    if s == "" {
      i, j := 0, 0;
    } else if s[0] in cut {
      i, j := TrimKeepsTheMiddle(s[1..], cut);
      assert forall k | 0 < k < |s| :: s[k] == s[1..][k - 1];
      i, j := i + 1, j + 1;
    } else if s[|s| - 1] in cut {
      i, j := TrimKeepsTheMiddle(s[..|s| - 1], cut);
      assert forall k | 0 <= k < |s| - 1 :: s[k] == s[..|s| - 1][k];
    } else {
      i, j := 0, |s|;
    }
  }

  predicate NoDouble(s: string)
  {
    forall i | 0 <= i < |s| - 1 :: !(s[i] == '-' && s[i + 1] == '-')
  }

  lemma {:induction false} TrimKeepsNoDouble(s: string, cut: string)
    requires NoDouble(s)
    ensures NoDouble(Trim(s, cut))
  {
    if s != "" {
      if s[0] in cut {
        TrimKeepsNoDouble(s[1..], cut);
      } else if s[|s| - 1] in cut {
        TrimKeepsNoDouble(s[..|s| - 1], cut);
      }
    }
  }

  /** The last character written, '-' before the first. */
  function Last(s: string): char
  {
    if s == "" then '-' else s[|s| - 1]
  }

  // ----- volume-name stems -----

  predicate SlugChar(c: char)
  {
    'a' <= c <= 'z' || '0' <= c <= '9' || c == '.' || c == '_'
  }

  /** Lower-cased; every run of other characters is one '-', none at the front. */
  function Collapse(s: string): string
  {
    if s == "" then ""
    else
      var r, c := Collapse(s[..|s| - 1]), s[|s| - 1];
      if 'A' <= c <= 'Z' then r + [(c as int + 32) as char]
      else if SlugChar(c) then r + [c]
      else if Last(r) != '-' then r + ['-']
      else r
  }

  /** Letter case apart, the characters a stem may hold besides the hyphen. */
  predicate StemChar(c: char)
  {
    'A' <= c <= 'Z' || SlugChar(c)
  }

  function LowerChar(c: char): char
  {
    if 'A' <= c <= 'Z' then (c as int + 32) as char else c
  }

  function Lower(s: string): (r: string)
    ensures |r| == |s| && forall i | 0 <= i < |s| :: r[i] == LowerChar(s[i])
  {
    if s == "" then "" else Lower(s[..|s| - 1]) + [LowerChar(s[|s| - 1])]
  }

  lemma CollapseNext(s: string, run: string)
    requires run != ""
    ensures var r, c := Collapse(s + run[..|run| - 1]), run[|run| - 1];
            Collapse(s + run) == if StemChar(c) then r + [LowerChar(c)] else if Last(r) != '-' then r + ['-'] else r
  {
    assert (s + run)[..|s + run| - 1] == s + run[..|run| - 1];
  }

  /** A run of stem characters is added lower-cased and in order. */
  lemma {:induction false} CollapseKeepsRuns(s: string, run: string)
    requires forall i | 0 <= i < |run| :: StemChar(run[i])
    ensures Collapse(s + run) == Collapse(s) + Lower(run)
  {
    if run == "" {
      assert s + run == s;
    } else {
      var before := run[..|run| - 1];
      CollapseKeepsRuns(s, before);
      CollapseNext(s, run);
    }
  }

  /** A run of other characters is one '-', and nothing at the front or after a hyphen. */
  lemma {:induction false} CollapseJoinsRuns(s: string, run: string)
    requires run != "" && forall i | 0 <= i < |run| :: !StemChar(run[i])
    ensures Collapse(s + run) == Collapse(s) + if Last(Collapse(s)) == '-' then "" else "-"
  {
    var before := run[..|run| - 1];
    if before == "" {
      assert s + before == s;
    } else {
      CollapseJoinsRuns(s, before);
    }
    CollapseNext(s, run);
  }

  function Slug(handle: string): string
  {
    var slug := Trim(Collapse(handle), "-._");
    if slug == "" then "wt" else slug
  }

  method HandleSlug(handle: string) returns (slug: string)
    ensures slug == Slug(handle) && LegalSlug(slug)
  {
    var b, prev := "", '-';
    for i := 0 to |handle|
      invariant b == Collapse(handle[..i]) && prev == Last(b)
    {
      var c := handle[i];
      assert handle[..i + 1][..i] == handle[..i];
      if 'A' <= c <= 'Z' {
        var lc := (c as int + 32) as char;
        b, prev := b + [lc], lc;
      } else if SlugChar(c) {
        b, prev := b + [c], c;
      } else if prev != '-' {
        b, prev := b + ['-'], '-';
      }
    }
    assert handle[..|handle|] == handle;
    slug := Trim(b, "-._");
    if slug == "" {
      slug := "wt";
    }
    SlugIsLegal(handle);
  }

  /** The volume store's grammar, with no doubled hyphen and tidy ends. */
  predicate LegalSlug(s: string)
  {
    && s != "" && (forall c | c in s :: SlugChar(c) || c == '-')
    && NoDouble(s) && s[0] !in "-._" && s[|s| - 1] !in "-._"
  }

  lemma {:induction false} CollapseIsLegal(s: string)
    ensures forall c | c in Collapse(s) :: SlugChar(c) || c == '-'
    ensures NoDouble(Collapse(s))
  {
    if s != "" {
      CollapseIsLegal(s[..|s| - 1]);
    }
  }

  lemma SlugIsLegal(handle: string)
    ensures LegalSlug(Slug(handle))
  {
    CollapseIsLegal(handle);
    TrimKeepsNoDouble(Collapse(handle), "-._");
  }

  lemma {:induction false} CollapseFixes(s: string)
    requires (forall i | 0 <= i < |s| :: SlugChar(s[i]) || s[i] == '-') && NoDouble(s) && (s == "" || s[0] != '-')
    ensures Collapse(s) == s
  {
    if s != "" {
      CollapseFixes(s[..|s| - 1]);
      assert s == s[..|s| - 1] + [s[|s| - 1]];
    }
  }

  /** A legal stem is its own slug, so slugging twice changes nothing. */
  lemma SlugIsIdempotent(s: string)
    ensures LegalSlug(s) ==> Slug(s) == s
    ensures Slug(Slug(s)) == Slug(s)
  {
    if LegalSlug(s) {
      CollapseFixes(s);
    }
    SlugIsLegal(s);
    CollapseFixes(Slug(s));
  }

  /** Nothing of a handle is left: the fixed stem. */
  lemma BlankSlug(handle: string)
    requires forall i | 0 <= i < |handle| :: !StemChar(handle[i])
    ensures Slug(handle) == "wt"
  {
    if handle != "" {
      CollapseJoinsRuns("", handle);
      assert "" + handle == handle;
    }
  }

  // ----- sandbox handles -----

  predicate HandleChar(c: char)
  {
    'A' <= c <= 'Z' || 'a' <= c <= 'z' || '0' <= c <= '9' || c == '.' || c == '_' || c == '-'
  }

  /** Legal characters stay, hyphens included; a run of others is one '-'. */
  function Squash(s: string): string
  {
    if s == "" then ""
    else
      var r, c := Squash(s[..|s| - 1]), s[|s| - 1];
      if HandleChar(c) then r + [c] else if Last(r) != '-' then r + ['-'] else r
  }

  lemma SquashNext(s: string, run: string)
    requires run != ""
    ensures var r, c := Squash(s + run[..|run| - 1]), run[|run| - 1];
            Squash(s + run) == if HandleChar(c) then r + [c] else if Last(r) != '-' then r + ['-'] else r
  {
    assert (s + run)[..|s + run| - 1] == s + run[..|run| - 1];
  }

  /** A run of legal characters is added as it is. */
  lemma {:induction false} SquashKeepsRuns(s: string, run: string)
    requires forall i | 0 <= i < |run| :: HandleChar(run[i])
    ensures Squash(s + run) == Squash(s) + run
  {
    if run == "" {
      assert s + run == s;
    } else {
      var before := run[..|run| - 1];
      SquashKeepsRuns(s, before);
      SquashNext(s, run);
      assert Squash(s) + run == Squash(s) + before + [run[|run| - 1]];
    }
  }

  /** A run of other characters is one '-', and nothing at the front or after a hyphen. */
  lemma {:induction false} SquashJoinsRuns(s: string, run: string)
    requires run != "" && forall i | 0 <= i < |run| :: !HandleChar(run[i])
    ensures Squash(s + run) == Squash(s) + if Last(Squash(s)) == '-' then "" else "-"
  {
    var before := run[..|run| - 1];
    if before == "" {
      assert s + before == s;
    } else {
      SquashJoinsRuns(s, before);
    }
    SquashNext(s, run);
  }

  function Sanitized(s: string, fallback: string): string
  {
    var slug := Trim(Squash(s), "-");
    if slug == "" then fallback else slug
  }

  method Sanitize(s: string, fallback: string) returns (r: string)
    ensures r == Sanitized(s, fallback)
  {
    var b, prev := "", '-';
    for i := 0 to |s|
      invariant b == Squash(s[..i]) && prev == Last(b)
    {
      assert s[..i + 1][..i] == s[..i];
      if HandleChar(s[i]) {
        b, prev := b + [s[i]], s[i];
      } else {
        if prev != '-' {
          b := b + ['-'];
        }
        prev := '-';
      }
    }
    assert s[..|s|] == s;
    r := Trim(b, "-");
    if r == "" {
      r := fallback;
    }
  }

  function WorktreeHandle(repoName: string, branch: string): string
  {
    Sanitized(repoName, "repo") + "/" + Sanitized(branch, "worktree")
  }

  method WorktreeSandboxHandle(repoName: string, branch: string) returns (handle: string)
    ensures handle == WorktreeHandle(repoName, branch) && handle[0] != '-'
    ensures var parts := SplitN(handle, '/', 2); |parts| == 2 && HandlePart(parts[0]) && HandlePart(parts[1])
  {
    HandleIsUsable(repoName, branch);
    var repo := Sanitize(repoName, "repo");
    var worktree := Sanitize(branch, "worktree");
    handle := repo + "/" + worktree;
  }

  /** One half of a handle. */
  predicate HandlePart(s: string)
  {
    s != "" && (forall c | c in s :: HandleChar(c)) && s[0] != '-' && s[|s| - 1] != '-'
  }

  lemma {:induction false} SquashIsLegal(s: string)
    ensures forall c | c in Squash(s) :: HandleChar(c)
  {
    if s != "" {
      SquashIsLegal(s[..|s| - 1]);
    }
  }

  lemma SanitizedIsPart(s: string, fallback: string)
    requires HandlePart(fallback)
    ensures HandlePart(Sanitized(s, fallback))
  {
    SquashIsLegal(s);
    assert '-' in "-";
  }

  /** Half of a handle is its own sanitised form, so sanitising twice changes nothing. */
  lemma SanitizedIsIdempotent(s: string, fallback: string)
    ensures HandlePart(s) ==> Sanitized(s, fallback) == s
    ensures HandlePart(fallback) ==> Sanitized(Sanitized(s, fallback), fallback) == Sanitized(s, fallback)
  {
    PartStays(s, fallback);
    if HandlePart(fallback) {
      SanitizedIsPart(s, fallback);
      PartStays(Sanitized(s, fallback), fallback);
    }
  }

  /** Nothing legal is left: the fallback. */
  lemma BlankPart(s: string, fallback: string)
    requires forall i | 0 <= i < |s| :: !HandleChar(s[i])
    ensures Sanitized(s, fallback) == fallback
  {
    if s != "" {
      SquashJoinsRuns("", s);
      assert "" + s == s;
    }
  }

  lemma PartStays(s: string, fallback: string)
    ensures HandlePart(s) ==> Sanitized(s, fallback) == s
  {
    if HandlePart(s) {
      SquashKeepsRuns("", s);
      assert "" + s == s;
    }
  }

  lemma FallbacksAreParts()
    ensures HandlePart("repo") && HandlePart("worktree")
  {
  }

  /**
    Whatever the repository and branch are called, the handle splits into two parts at its only
    slash and never starts like a flag.
   */
  lemma HandleIsUsable(repoName: string, branch: string)
    ensures var h := WorktreeHandle(repoName, branch);
            && h != "" && h[0] != '-' && (forall c | c in h :: HandleChar(c) || c == '/')
            && SplitN(h, '/', 2) == [Sanitized(repoName, "repo"), Sanitized(branch, "worktree")]
            && HandlePart(Sanitized(repoName, "repo")) && HandlePart(Sanitized(branch, "worktree"))
  {
    FallbacksAreParts();
    var a, b := Sanitized(repoName, "repo"), Sanitized(branch, "worktree");
    SanitizedIsPart(repoName, "repo");
    SanitizedIsPart(branch, "worktree");
    assert a + "/" + b == a + ['/'] + b;
    SplitNCut(a, '/', b, 2);
  }
}
