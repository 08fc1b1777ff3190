/** Delivering a brief to an agent's pane: paste, press Enter, and confirm that it left the input box. */
module Brief {
  import opened Options
  import opened Text

  predicate Contains(s: string, sub: string)
  {
    exists i | 0 <= i <= |s| :: HasPrefix(s[i..], sub)
  }

  function TrimLeft(s: string): string
  {
    if s != "" && (s[0] == ' ' || s[0] == '\t') then TrimLeft(s[1..]) else s
  }

  const CHIP := "[Pasted text #"
  const BOX_TOP := "╭─"
  const PROMPT := "❯"
  const BOXED_PROMPT := "│ >"

  /** `chip` and a digit, at position `i`. */
  predicate ChipAt(s: string, chip: string, i: nat)
  {
    i + |chip| < |s| && s[i..i + |chip|] == chip && '0' <= s[i + |chip|] <= '9'
  }

  predicate Matches(s: string, chip: string)
  {
    exists i | 0 <= i < |s| :: ChipAt(s, chip, i)
  }

  /** The stranded marker: a pasted-text chip. */
  predicate HasChip(s: string)
  {
    Matches(s, CHIP)
  }

  /** A horizontal rule: nothing but U+2500, which is three bytes, and at least 20 bytes of it. */
  predicate Rule(line: string)
  {
    var t := TrimSpace(line);
    3 * |t| >= 20 && forall i | 0 <= i < |t| :: t[i] == '─'
  }

  predicate Prompt(line: string)
  {
    HasPrefix(TrimLeft(line), PROMPT) || HasPrefix(TrimLeft(line), BOXED_PROMPT)
  }

  /** What follows the prompt on a prompt line. */
  function Typed(line: string): string
  {
    var t := TrimLeft(line);
    if HasPrefix(t, PROMPT) then TrimSpace(TrimPrefix(t, PROMPT))
    else if HasPrefix(t, BOXED_PROMPT) then TrimSpace(TrimPrefix(t, BOXED_PROMPT))
    else ""
  }

  /** Both glyphs make a prompt, behind any blanks, and what follows is what is typed. */
  lemma GlyphsArePrompts(blanks: string, rest: string)
    requires forall i | 0 <= i < |blanks| :: blanks[i] == ' ' || blanks[i] == '\t'
    ensures Prompt(blanks + (PROMPT + rest)) && Typed(blanks + (PROMPT + rest)) == TrimSpace(rest)
    ensures Prompt(blanks + (BOXED_PROMPT + rest)) && Typed(blanks + (BOXED_PROMPT + rest)) == TrimSpace(rest)
  {
    BlanksGo(blanks, PROMPT + rest);
    BlanksGo(blanks, BOXED_PROMPT + rest);
    assert (PROMPT + rest)[0] == '❯' && (BOXED_PROMPT + rest)[0] == '│';
  }

  lemma {:induction false} BlanksGo(blanks: string, s: string)
    requires forall i | 0 <= i < |blanks| :: blanks[i] == ' ' || blanks[i] == '\t'
    requires s != "" && s[0] != ' ' && s[0] != '\t'
    ensures TrimLeft(blanks + s) == s
  {
    if blanks == "" {
      assert blanks + s == s;
    } else {
      assert (blanks + s)[1..] == blanks[1..] + s;
      BlanksGo(blanks[1..], s);
    }
  }

  // ----- locating the input box -----

  /** `i` is the last line with a box corner. */
  predicate LastTop(lines: seq<string>, i: nat)
  {
    i < |lines| && Contains(lines[i], BOX_TOP) && forall j | i < j < |lines| :: !Contains(lines[j], BOX_TOP)
  }

  /** `top` and `bot` are the last two rules. */
  predicate LastRules(lines: seq<string>, top: nat, bot: nat)
  {
    && top < bot < |lines| && Rule(lines[top]) && Rule(lines[bot])
    && forall j | top < j < |lines| && j != bot :: !Rule(lines[j])
  }

  predicate Cornered(lines: seq<string>)
  {
    exists j | 0 <= j < |lines| :: Contains(lines[j], BOX_TOP)
  }

  predicate PromptWithin(lines: seq<string>, top: nat, bot: nat)
  {
    exists j | top < j < bot && j < |lines| :: Prompt(lines[j])
  }

  /** The line the input box starts at: the last corner, else the last pair of rules around a prompt. */
  predicate BoxStart(lines: seq<string>, i: nat)
  {
    || LastTop(lines, i)
    || (!Cornered(lines) && exists bot | i < bot < |lines| :: LastRules(lines, i, bot) && PromptWithin(lines, i, bot))
  }

  /** The indices of the last two marks. */
  method LastTwo(marks: seq<bool>) returns (r: Option<(nat, nat)>)
    ensures r.Some? ==>
              var (top, bot) := r.value;
              top < bot < |marks| && marks[top] && marks[bot] && forall j | top < j < |marks| && j != bot :: !marks[j]
    ensures r.None? ==> forall i, j | 0 <= i < j < |marks| :: !(marks[i] && marks[j])
  {
    var ruleIdxs: seq<nat> := [];
    for i := 0 to |marks|
      invariant forall k | 0 <= k < |ruleIdxs| :: ruleIdxs[k] < i && marks[ruleIdxs[k]]
      invariant forall k, l | 0 <= k < l < |ruleIdxs| :: ruleIdxs[k] < ruleIdxs[l]
      invariant forall j | 0 <= j < i && marks[j] :: j in ruleIdxs
    {
      if marks[i] {
        ruleIdxs := ruleIdxs + [i];
      }
    }
    var n := |ruleIdxs|;
    if n < 2 {
      return None;
    }
    return Some((ruleIdxs[n - 2], ruleIdxs[n - 1]));
  }

  method LastMark(marks: seq<bool>) returns (r: Option<nat>)
    ensures r.Some? ==> r.value < |marks| && marks[r.value] && forall j | r.value < j < |marks| :: !marks[j]
    ensures r.None? ==> forall j | 0 <= j < |marks| :: !marks[j]
  {
    var i := |marks|;
    while i > 0
      invariant 0 <= i <= |marks|
      invariant forall j | i <= j < |marks| :: !marks[j]
    {
      i := i - 1;
      if marks[i] {
        return Some(i);
      }
    }
    return None;
  }

  method AnyMark(marks: seq<bool>, lo: nat, hi: nat) returns (r: bool)
    requires lo <= hi <= |marks|
    ensures r <==> exists j | lo <= j < hi :: marks[j]
  {
    for j := lo to hi
      invariant forall k | lo <= k < j :: !marks[k]
    {
      if marks[j] {
        return true;
      }
    }
    return false;
  }

  method FindRules(lines: seq<string>) returns (r: Option<(nat, nat)>)
    ensures r.Some? ==> LastRules(lines, r.value.0, r.value.1)
    ensures r.None? ==> forall i, j | 0 <= i < j < |lines| :: !(Rule(lines[i]) && Rule(lines[j]))
  {
    var marks := seq(|lines|, i requires 0 <= i < |lines| => Rule(lines[i]));
    r := LastTwo(marks);
    if r.Some? {
      var (top, bot) := r.value;
      assert marks[top] && marks[bot];
      assert forall j | top < j < |lines| && j != bot :: marks[j] == Rule(lines[j]);
    } else {
      assert forall j | 0 <= j < |lines| :: marks[j] == Rule(lines[j]);
    }
  }

  /** The index of the box's first line, if a box is found. */
  method FindBox(lines: seq<string>) returns (r: Option<nat>)
    ensures r.Some? ==> BoxStart(lines, r.value) && r.value < |lines| && lines[r.value] != ""
    ensures r.None? ==> forall i: nat :: !BoxStart(lines, i)
  {
    var corners := seq(|lines|, i requires 0 <= i < |lines| => Contains(lines[i], BOX_TOP));
    var top := LastMark(corners);
    if top.Some? {
      CornerIsNotBlank(lines[top.value]);
      assert LastTop(lines, top.value) by {
        assert forall j | 0 <= j < |lines| :: corners[j] == Contains(lines[j], BOX_TOP);
      }
      return top;
    }
    assert !Cornered(lines) by {
      assert forall j | 0 <= j < |lines| :: corners[j] == Contains(lines[j], BOX_TOP);
    }
    r := FindRuledBox(lines);
  }

  method FindRuledBox(lines: seq<string>) returns (r: Option<nat>)
    requires !Cornered(lines)
    ensures r.Some? ==> BoxStart(lines, r.value) && r.value < |lines| && lines[r.value] != ""
    ensures r.None? ==> forall i: nat :: !BoxStart(lines, i)
  {
    var rules := FindRules(lines);
    if rules.None? {
      return None;
    }
    var (top, bot) := rules.value;
    var prompts := seq(|lines|, i requires 0 <= i < |lines| => Prompt(lines[i]));
    var hasPrompt := AnyMark(prompts, top + 1, bot);
    RuleIsNotBlank(lines[top]);
    OnlyLastRules(lines, top, bot);
    if hasPrompt {
      var j :| top + 1 <= j < bot && prompts[j];
      assert Prompt(lines[j]);
      assert PromptWithin(lines, top, bot);
      return Some(top);
    }
    assert !PromptWithin(lines, top, bot) by {
      assert forall j | top + 1 <= j < bot :: prompts[j] == Prompt(lines[j]);
    }
    return None;
  }

  lemma CornerIsNotBlank(line: string)
    requires Contains(line, BOX_TOP)
    ensures line != ""
  {
  }

  lemma RuleIsNotBlank(line: string)
    requires Rule(line)
    ensures line != ""
  {
  }

  lemma OnlyLastRules(lines: seq<string>, top: nat, bot: nat)
    requires LastRules(lines, top, bot)
    ensures forall i: nat, j: nat | LastRules(lines, i, j) :: i == top && j == bot
  {
  }

  /** The box region, an exact suffix of the viewport that starts at a line; None when there is no box. */
  method InputBoxRegion(visible: string) returns (region: Option<string>, ghost start: nat)
    ensures region.None? ==> forall i: nat :: !BoxStart(Split(visible, '\n'), i)
    ensures region.Some? ==> BoxStart(Split(visible, '\n'), start) && IsRegion(visible, start, region.value)
  {
    var lines := Split(visible, '\n');
    var box := FindBox(lines);
    start := 0;
    if box.None? {
      return None, 0;
    }
    start := box.value;
    RegionIsSuffix(visible, start);
    return Some(Join(lines[box.value..], '\n')), start;
  }

  /** The lines from `start` on, cut from the viewport. */
  predicate IsRegion(visible: string, start: nat, region: string)
  {
    var lines := Split(visible, '\n');
    && start < |lines| && region == Join(lines[start..], '\n') && region != "" && |region| <= |visible|
    && visible == visible[..|visible| - |region|] + region
    && visible[..|visible| - |region|] == if start == 0 then "" else Join(lines[..start], '\n') + "\n"
  }

  lemma RegionIsSuffix(visible: string, start: nat)
    requires start < |Split(visible, '\n')| && Split(visible, '\n')[start] != ""
    ensures IsRegion(visible, start, Join(Split(visible, '\n')[start..], '\n'))
  {
    var lines := Split(visible, '\n');
    JoinSplit(visible, '\n');
    JoinCut(lines, '\n', start);
    assert lines[start..][0] == lines[start];
  }

  /** A chip never straddles the cut, so it is in the transcript or in the box. */
  lemma ChipIsOnOneSide(visible: string, start: nat, region: string)
    requires IsRegion(visible, start, region)
    ensures HasChip(visible) <==> HasChip(visible[..|visible| - |region|]) || HasChip(region)
  {
    assert forall c | c in CHIP :: c != '\n';
    MatchIsOnOneSide(visible[..|visible| - |region|], region, CHIP);
  }

  lemma MatchIsOnOneSide(a: string, b: string, chip: string)
    requires '\n' !in chip && (a == "" || a[|a| - 1] == '\n')
    ensures Matches(a + b, chip) <==> Matches(a, chip) || Matches(b, chip)
  {
    var s := a + b;
    forall i | 0 <= i < |s| && ChipAt(s, chip, i)
      ensures Matches(a, chip) || Matches(b, chip)
    {
      MatchSplits(a, b, chip, i);
    }
    forall i | 0 <= i < |a| && ChipAt(a, chip, i)
      ensures Matches(s, chip)
    {
      assert s[i..i + |chip|] == a[i..i + |chip|];
      assert ChipAt(s, chip, i);
    }
    forall i | 0 <= i < |b| && ChipAt(b, chip, i)
      ensures Matches(s, chip)
    {
      assert s[|a| + i..|a| + i + |chip|] == b[i..i + |chip|];
      assert ChipAt(s, chip, |a| + i);
    }
  }

  lemma MatchSplits(a: string, b: string, chip: string, i: nat)
    requires '\n' !in chip && (a == "" || a[|a| - 1] == '\n') && ChipAt(a + b, chip, i)
    ensures Matches(a, chip) || Matches(b, chip)
  {
    var s := a + b;
    if i >= |a| {
      assert b[i - |a|..i - |a| + |chip|] == s[i..i + |chip|];
      assert ChipAt(b, chip, i - |a|);
    } else {
      assert forall j | i <= j < i + |chip| :: s[j] == s[i..i + |chip|][j - i];
      assert s[|a| - 1] == '\n';
      assert |a| - 1 > i + |chip|;
      assert a[i..i + |chip|] == s[i..i + |chip|];
      assert ChipAt(a, chip, i);
    }
  }

  /** Inline content on a prompt line between the last two rules. */
  predicate Inline(lines: seq<string>)
  {
    exists top, bot, j | 0 <= top < j < bot < |lines| :: LastRules(lines, top, bot) && Filled(lines[j])
  }

  predicate Filled(line: string)
  {
    Prompt(line) && Typed(line) != ""
  }

  method InteriorHasContent(visible: string) returns (r: bool)
    ensures r <==> Inline(Split(visible, '\n'))
  {
    var lines := Split(visible, '\n');
    var rules := FindRules(lines);
    if rules.None? {
      return false;
    }
    var (top, bot) := rules.value;
    OnlyLastRules(lines, top, bot);
    var filled := seq(|lines|, i requires 0 <= i < |lines| => Filled(lines[i]));
    r := AnyMark(filled, top + 1, bot);
    if r {
      var j :| top + 1 <= j < bot && filled[j];
      assert Filled(lines[j]);
    } else {
      assert forall j | top + 1 <= j < bot :: filled[j] == Filled(lines[j]);
    }
  }

  // ----- the verdict -----

  datatype Verdict = Submitted | Stranded | Unknown

  /** Two pane reads a beat apart and the viewport at the second. */
  datatype Look = Look(before: string, beforeOK: bool, after: string, afterOK: bool, visible: string, visibleOK: bool)

  predicate Working(s: string)
  {
    Contains(s, "esc to interrupt") || Contains(s, "ctrl+b to run in background")
  }

  /** Either sign counts, wherever it stands. */
  lemma EitherIsWork(before: string, after: string)
    ensures Working(before + ("esc to interrupt" + after))
    ensures Working(before + ("ctrl+b to run in background" + after))
  {
    assert HasPrefix((before + ("esc to interrupt" + after))[|before|..], "esc to interrupt");
    assert HasPrefix((before + ("ctrl+b to run in background" + after))[|before|..], "ctrl+b to run in background");
  }

  predicate Readable(l: Look)
  {
    l.beforeOK && l.afterOK && l.visibleOK
  }

  /** The text of the box that starts at line `start`. */
  function RegionAt(visible: string, start: nat): string
  {
    var lines := Split(visible, '\n');
    if start < |lines| then Join(lines[start..], '\n') else ""
  }

  /** What the code takes for an empty box: one is found, no chip is in it, no text between the last two rules. */
  ghost predicate LooksEmpty(visible: string)
  {
    && !Inline(Split(visible, '\n'))
    && exists start: nat :: BoxStart(Split(visible, '\n'), start) && !HasChip(RegionAt(visible, start))
  }

  ghost predicate BoxIsVisible(visible: string)
  {
    exists start: nat :: BoxStart(Split(visible, '\n'), start)
  }

  /** Some sign that the agent took the brief. */
  predicate Evidence(l: Look)
  {
    HasChip(l.visible) || l.before != l.after || Working(l.after)
  }

  /** Exactly when a look is judged to show a submitted, or a stranded, brief. */
  ghost predicate Judged(l: Look, v: Verdict)
  {
    && (v.Submitted? <==> Readable(l) && LooksEmpty(l.visible) && Evidence(l))
    && (v.Stranded? <==> Readable(l) && BoxIsVisible(l.visible) && !LooksEmpty(l.visible))
  }

  method Classify(l: Look) returns (v: Verdict)
    ensures Judged(l, v)
  {
    if !Readable(l) {
      return Unknown;
    }
    ghost var start;
    var box;
    box, start := InputBoxRegion(l.visible);
    if box.None? {
      return Unknown;
    }
    var region := box.value;
    var inline := InteriorHasContent(l.visible);
    v := Decide(HasChip(region), inline, HasChip(l.visible[..|l.visible| - |region|]), l.before != l.after,
                Working(l.after));
    DecideIsRight(l, start, region, inline, v);
  }

  function Decide(chipInBox: bool, inline: bool, chipInTranscript: bool, moved: bool, working: bool): Verdict
  {
    if chipInBox then Stranded
    else if inline then Stranded
    else if chipInTranscript then Submitted
    else if moved then Submitted
    else if working then Submitted
    else Unknown
  }

  lemma DecideIsRight(l: Look, start: nat, region: string, inline: bool, v: Verdict)
    requires Readable(l) && BoxStart(Split(l.visible, '\n'), start) && IsRegion(l.visible, start, region)
    requires inline <==> Inline(Split(l.visible, '\n'))
    requires v == Decide(HasChip(region), inline, HasChip(l.visible[..|l.visible| - |region|]), l.before != l.after,
                         Working(l.after))
    ensures Judged(l, v)
  {
    ChipIsOnOneSide(l.visible, start, region);
    EmptyMeans(l.visible, start, region);
  }

  lemma EmptyMeans(visible: string, start: nat, region: string)
    requires BoxStart(Split(visible, '\n'), start) && IsRegion(visible, start, region)
    ensures LooksEmpty(visible) <==> !Inline(Split(visible, '\n')) && !HasChip(region)
  {
  }

  // ----- delivery -----

  datatype Action = Paste | Enter

  const SUBMIT_ATTEMPTS := 3

  function Enters(n: nat): (r: seq<Action>)
    ensures |r| == n
  {
    if n == 0 then [] else Enters(n - 1) + [Enter]
  }

  /** `verdicts` are those of the rounds' looks, in order. */
  ghost predicate AllJudged(looks: nat -> Look, verdicts: seq<Verdict>)
  {
    forall n | 0 <= n < |verdicts| :: Judged(looks(n + 1), verdicts[n])
  }

  lemma JudgedNext(looks: nat -> Look, verdicts: seq<Verdict>, v: Verdict)
    requires AllJudged(looks, verdicts) && Judged(looks(|verdicts| + 1), v)
    ensures AllJudged(looks, verdicts + [v])
  {
  }

  /** One round: look and judge. */
  method LookAgain(looks: nat -> Look, verdicts: seq<Verdict>) returns (v: Verdict)
    requires AllJudged(looks, verdicts)
    ensures AllJudged(looks, verdicts + [v])
  {
    v := Classify(looks(|verdicts| + 1));
    JudgedNext(looks, verdicts, v);
  }

  /** Rounds 1 to `n` are not cancelled, and their Enters are sent. */
  ghost predicate Unhindered(enterOK: nat -> bool, cancelled: nat -> bool, n: nat)
  {
    forall k | 1 <= k <= n :: enterOK(k) && !cancelled(k)
  }

  /**
    Paste, Enter, then up to three rounds of looking, with Enter again between rounds. `looks(n)` is
    what round n sees; `enterOK(n)` whether the n-th Enter can be sent; `cancelled(n)` whether the
    context ends in round n, 0 being the wait before the first Enter.
   */
  method Deliver(pasteOK: bool, enterOK: nat -> bool, cancelled: nat -> bool, looks: nat -> Look)
    returns (ok: bool, log: seq<Action>, verdicts: seq<Verdict>)
    ensures 1 <= |log| <= 1 + SUBMIT_ATTEMPTS && log == [Paste] + Enters(|log| - 1)
    ensures |verdicts| < |log| && (ok ==> |verdicts| + 1 == |log|)
    ensures AllJudged(looks, verdicts)
    ensures ok <==> |verdicts| > 0 && verdicts[|verdicts| - 1].Submitted?
    ensures forall n | 0 <= n < |verdicts| - 1 :: !verdicts[n].Submitted?
    ensures verdicts != [] ==> pasteOK && !cancelled(0)
    ensures Unhindered(enterOK, cancelled, |verdicts|)
    ensures !ok && |verdicts| < SUBMIT_ATTEMPTS ==>
              !pasteOK || cancelled(0) || !enterOK(|verdicts| + 1) || cancelled(|verdicts| + 1)
    ensures !pasteOK || cancelled(0) ==> log == [Paste]
  {
    ok, log, verdicts := false, [Paste], [];
    assert log == [Paste] + Enters(0);
    if !pasteOK || cancelled(0) {
      return;
    }
    log := log + [Enter];
    assert log == [Paste] + Enters(1);
    if !enterOK(1) {
      return;
    }
    for attempt := 1 to SUBMIT_ATTEMPTS + 1
      invariant attempt <= SUBMIT_ATTEMPTS && |verdicts| == attempt - 1 && log == [Paste] + Enters(attempt)
      invariant AllJudged(looks, verdicts) && forall n | 0 <= n < |verdicts| :: !verdicts[n].Submitted?
      invariant enterOK(attempt) && Unhindered(enterOK, cancelled, attempt - 1)
    {
      if cancelled(attempt) {
        return;
      }
      var v := LookAgain(looks, verdicts);
      verdicts := verdicts + [v];
      if v.Submitted? {
        ok := true;
        return;
      }
      if attempt == SUBMIT_ATTEMPTS {
        return;
      }
      log := log + [Enter];
      assert log == [Paste] + Enters(attempt + 1);
      if !enterOK(attempt + 1) {
        return;
      }
    }
  }
}
