/** What the verdict on a brief means for the input box itself: when it tells the truth about what is in there. */
module BriefBox {
  import opened Brief
  import opened Text

  // ----- what is in the box -----

  const BORDER := "│"
  const BOX_BOTTOM := "╰"

  /** The text on a line between two rules: what is left without the prompt glyph. */
  function RuledText(line: string): string
  {
    var t := TrimSpace(line);
    if HasPrefix(t, PROMPT) then TrimSpace(TrimPrefix(t, PROMPT))
    else if HasPrefix(t, BOXED_PROMPT) then TrimSpace(TrimPrefix(t, BOXED_PROMPT))
    else t
  }

  /** A line of a cornered box without its borders. */
  function Unbordered(line: string): string
  {
    var t := TrimSpace(line);
    var u := if HasPrefix(t, BORDER) then TrimSpace(TrimPrefix(t, BORDER)) else t;
    if u != "" && u[|u| - 1] == BORDER[0] then TrimSpace(u[..|u| - 1]) else u
  }

  /** The text on a line of a cornered box: what is left without borders and prompt glyph. */
  function CorneredText(line: string): string
  {
    var u := Unbordered(line);
    if HasPrefix(u, PROMPT) || HasPrefix(u, ">") then TrimSpace(u[1..]) else u
  }

  /** Line `j` is strictly inside the box that starts at `start`: above its second rule, or above its bottom corner. */
  predicate Inside(lines: seq<string>, start: nat, j: nat)
  {
    && start < j < |lines|
    && if Cornered(lines) then forall k | start < k <= j :: !HasPrefix(TrimSpace(lines[k]), BOX_BOTTOM)
       else exists bot | j < bot < |lines| :: LastRules(lines, start, bot)
  }

  predicate HasText(lines: seq<string>, start: nat, j: nat)
  {
    Inside(lines, start, j) && (if Cornered(lines) then CorneredText(lines[j]) else RuledText(lines[j])) != ""
  }

  /** Something stands in the box, on whichever line. */
  predicate BoxText(lines: seq<string>, start: nat)
  {
    exists j | 0 <= j < |lines| :: HasText(lines, start, j)
  }

  /** The box still holds the brief, or part of it: a chip or text. */
  predicate Holds(visible: string, start: nat)
  {
    HasChip(RegionAt(visible, start)) || BoxText(Split(visible, '\n'), start)
  }

  // ----- what the code reads of it -----

  /** Some line inside a rule-delimited box shows text behind a prompt. */
  predicate OnPromptLine(lines: seq<string>, start: nat)
  {
    exists j | 0 <= j < |lines| :: HasText(lines, start, j) && Prompt(lines[j])
  }

  lemma {:induction false} TrimRestart(s: string)
    ensures TrimSpace(TrimLeft(s)) == TrimSpace(s)
  {
    if s != "" && (s[0] == ' ' || s[0] == '\t') {
      TrimRestart(s[1..]);
    }
  }

  /** Of a glyph and what follows, trimming takes from the end only. */
  lemma {:induction false} TrimBehind(glyph: string, s: string)
    requires glyph != "" && !Space(glyph[0]) && !Space(glyph[|glyph| - 1])
    ensures TrimSpace(glyph + s) == glyph + TrimEnd(s)
  {
    var t := glyph + s;
    if s == "" {
      assert t == glyph;
    } else {
      assert t[0] == glyph[0] && t[|t| - 1] == s[|s| - 1];
      if Space(s[|s| - 1]) {
        assert t[..|t| - 1] == glyph + s[..|s| - 1];
        TrimBehind(glyph, s[..|s| - 1]);
      }
    }
  }

  function TrimEnd(s: string): string
  {
    if s != "" && Space(s[|s| - 1]) then TrimEnd(s[..|s| - 1]) else s
  }

  lemma {:induction false} TrimEndFirst(s: string)
    ensures TrimSpace(TrimEnd(s)) == TrimSpace(s)
  {
    if s != "" && Space(s[|s| - 1]) {
      TrimEndFirst(s[..|s| - 1]);
      TrimTail(s);
    }
  }

  /** Trimming what follows a glyph is trimming behind the glyph, and then in front. */
  lemma TrimAfter(glyph: string, s: string)
    requires glyph != "" && !Space(glyph[0]) && !Space(glyph[|glyph| - 1])
    ensures HasPrefix(TrimSpace(glyph + s), glyph)
    ensures TrimSpace(TrimPrefix(TrimSpace(glyph + s), glyph)) == TrimSpace(s)
  {
    TrimBehind(glyph, s);
    TrimEndFirst(s);
    assert (glyph + TrimEnd(s))[|glyph|..] == TrimEnd(s);
  }

  /** Of a string that ends in white space, the end may go first. */
  lemma {:induction false} TrimTail(s: string)
    requires s != "" && Space(s[|s| - 1])
    ensures TrimSpace(s) == TrimSpace(s[..|s| - 1])
  {
    if Space(s[0]) && |s| > 1 {
      assert s[1..][..|s| - 2] == s[..|s| - 1][1..];
      TrimTail(s[1..]);
    }
  }

  /** On a prompt line the code reads the text there is. */
  lemma PromptIsRead(line: string)
    requires Prompt(line)
    ensures Typed(line) == RuledText(line)
  {
    var t := TrimLeft(line);
    TrimRestart(line);
    if HasPrefix(t, PROMPT) {
      assert t == PROMPT + t[|PROMPT|..];
      TrimAfter(PROMPT, t[|PROMPT|..]);
    } else {
      assert t == BOXED_PROMPT + t[|BOXED_PROMPT|..];
      TrimAfter(BOXED_PROMPT, t[|BOXED_PROMPT|..]);
      assert BOXED_PROMPT[0] != PROMPT[0];
    }
  }

  /** In a rule-delimited box the code sees the text on prompt lines and no other. */
  lemma RuledBoxIsRead(lines: seq<string>, start: nat)
    requires BoxStart(lines, start) && !Cornered(lines)
    ensures Inline(lines) <==> OnPromptLine(lines, start)
  {
    var bot: nat :| start < bot < |lines| && LastRules(lines, start, bot);
    OnlyLastRules(lines, start, bot);
    if Inline(lines) {
      var top, end, j :| 0 <= top < j < end < |lines| && LastRules(lines, top, end) && Filled(lines[j]);
      PromptIsRead(lines[j]);
      assert HasText(lines, start, j);
    } else if OnPromptLine(lines, start) {
      var j :| 0 <= j < |lines| && HasText(lines, start, j) && Prompt(lines[j]);
      PromptIsRead(lines[j]);
    }
  }

  // ----- when the verdict is true -----

  lemma OneBox(lines: seq<string>, start: nat)
    requires BoxStart(lines, start)
    ensures forall s: nat | BoxStart(lines, s) :: s == start
  {
  }

  lemma VerdictMeans(l: Look, v: Verdict, start: nat)
    requires Judged(l, v) && Readable(l) && BoxStart(Split(l.visible, '\n'), start)
    ensures v.Stranded? <==> HasChip(RegionAt(l.visible, start)) || Inline(Split(l.visible, '\n'))
    ensures v.Submitted? <==> !HasChip(RegionAt(l.visible, start)) && !Inline(Split(l.visible, '\n')) && Evidence(l)
  {
    OneBox(Split(l.visible, '\n'), start);
  }

  /**
    A rule-delimited box is judged truly, stranded just when it holds something, exactly when it holds
    a chip, or nothing, or text of which some shows on a prompt line.
   */
  lemma RuledIsTrueIff(l: Look, v: Verdict, start: nat)
    requires Judged(l, v) && Readable(l) && BoxStart(Split(l.visible, '\n'), start) && !Cornered(Split(l.visible, '\n'))
    ensures (v.Stranded? <==> Holds(l.visible, start))
       <==> || HasChip(RegionAt(l.visible, start)) || !BoxText(Split(l.visible, '\n'), start)
            || OnPromptLine(Split(l.visible, '\n'), start)
  {
    VerdictMeans(l, v, start);
    RuledBoxIsRead(Split(l.visible, '\n'), start);
  }

  /** So one that is judged submitted is empty exactly when every line with text in it is a prompt line. */
  lemma SubmittedIsTrueIff(l: Look, v: Verdict, start: nat)
    requires Judged(l, v) && v.Submitted? && BoxStart(Split(l.visible, '\n'), start)
    ensures var lines := Split(l.visible, '\n');
            !Cornered(lines) ==>
              (!BoxText(lines, start) <==> forall j | 0 <= j < |lines| && HasText(lines, start, j) :: Prompt(lines[j]))
  {
    var lines := Split(l.visible, '\n');
    VerdictMeans(l, v, start);
    if !Cornered(lines) {
      RuledBoxIsRead(lines, start);
    }
  }

  /**
    A cornered box is judged by its chips and by what the last two rules of the viewport enclose. Where
    that is a filled prompt it is judged stranded, which is false exactly when it holds nothing;
    elsewhere only for a chip, which is false exactly when it holds text and no chip.
   */
  lemma CorneredIsTrueIff(l: Look, v: Verdict, start: nat)
    requires Judged(l, v) && Readable(l) && BoxStart(Split(l.visible, '\n'), start) && Cornered(Split(l.visible, '\n'))
    ensures v.Stranded? <==> HasChip(RegionAt(l.visible, start)) || Inline(Split(l.visible, '\n'))
    ensures (v.Stranded? <==> Holds(l.visible, start))
       <==> if Inline(Split(l.visible, '\n')) then Holds(l.visible, start)
            else HasChip(RegionAt(l.visible, start)) || !BoxText(Split(l.visible, '\n'), start)
  {
    VerdictMeans(l, v, start);
  }

  // ----- the looks that are judged wrongly -----

  lemma ThreeLines(a: string, b: string, c: string)
    requires '\n' !in a && '\n' !in b && '\n' !in c
    ensures Split(a + "\n" + (b + "\n" + c), '\n') == [a, b, c]
  {
    SplitCut(a, '\n', b + "\n" + c);
    SplitCut(b, '\n', c);
    SplitFree(c, '\n');
  }

  lemma MoreLines(a: string, b: string, c: string, rest: string)
    requires '\n' !in a && '\n' !in b && '\n' !in c
    ensures Split(a + "\n" + (b + "\n" + (c + "\n" + rest)), '\n') == [a, b, c] + Split(rest, '\n')
  {
    SplitCut(a, '\n', b + "\n" + (c + "\n" + rest));
    SplitCut(b, '\n', c + "\n" + rest);
    SplitCut(c, '\n', rest);
  }

  /** A chip in several lines is in one of them. */
  lemma ChipAcross(a: string, rest: string)
    requires '\n' !in a
    ensures HasChip(a + "\n" + rest) <==> HasChip(a) || HasChip(rest)
  {
    assert forall c | c in CHIP :: c != '\n';
    MatchIsOnOneSide(a + "\n", rest, CHIP);
    ChipBefore(a, CHIP);
  }

  lemma ChipBefore(a: string, chip: string)
    requires '\n' !in chip
    ensures Matches(a + "\n", chip) <==> Matches(a, chip)
  {
    var s := a + "\n";
    forall i | 0 <= i < |s| && ChipAt(s, chip, i)
      ensures Matches(a, chip)
    {
      assert s[|a|] == '\n';
      assert a[i..i + |chip|] == s[i..i + |chip|];
      assert ChipAt(a, chip, i);
    }
    forall i | 0 <= i < |a| && ChipAt(a, chip, i)
      ensures Matches(s, chip)
    {
      assert a[i..i + |chip|] == s[i..i + |chip|];
      assert ChipAt(s, chip, i);
    }
  }

  lemma ShortHasNoChip(s: string)
    requires |s| <= |CHIP|
    ensures !HasChip(s)
  {
  }

  lemma {:induction false} TrimIsShorter(s: string)
    ensures |TrimSpace(s)| <= |s|
  {
    if s != "" {
      if Space(s[0]) {
        TrimIsShorter(s[1..]);
      } else if Space(s[|s| - 1]) {
        TrimIsShorter(s[..|s| - 1]);
      }
    }
  }

  lemma ShortIsNoRule(s: string)
    requires |s| <= 6
    ensures !Rule(s)
  {
    TrimIsShorter(s);
  }

  lemma NoCornerIn(s: string)
    requires '╭' !in s
    ensures !Contains(s, BOX_TOP)
  {
    assert BOX_TOP[0] == '╭';
    forall i | 0 <= i <= |s|
      ensures !HasPrefix(s[i..], BOX_TOP)
    {
      assert i < |s| ==> s[i..][0] == s[i];
    }
  }

  const TOP := "╭─╮"
  const BOTTOM := "╰─╯"
  const RULE := "───────"

  /** A cornered box around one line, as the older layout draws it. */
  function Corner(text: string): string
  {
    TOP + "\n" + (text + "\n" + BOTTOM)
  }

  lemma CornerParts()
    ensures Contains(TOP, BOX_TOP) && !Contains(BOTTOM, BOX_TOP) && !Rule(TOP) && !Rule(BOTTOM)
    ensures !HasChip(TOP) && !HasChip(BOTTOM) && HasPrefix(TrimSpace(BOTTOM), BOX_BOTTOM)
  {
    assert TOP[0..] == TOP && HasPrefix(TOP[0..], BOX_TOP);
    NoCornerIn(BOTTOM);
    ShortIsNoRule(TOP);
    ShortIsNoRule(BOTTOM);
    ShortHasNoChip(TOP);
    ShortHasNoChip(BOTTOM);
  }

  /** A line that may stand in a box: no line break, corner or chip. */
  predicate Plain(text: string)
  {
    '\n' !in text && !Contains(text, BOX_TOP) && !HasChip(text)
  }

  lemma CornerShape(lines: seq<string>, text: string)
    requires lines == [TOP, text, BOTTOM] && Plain(text)
    ensures BoxStart(lines, 0) && Cornered(lines) && !Inline(lines)
  {
    CornerParts();
    assert LastTop(lines, 0);
  }

  lemma CornerText(lines: seq<string>, text: string)
    requires |lines| == 3 && lines[1] == text && HasPrefix(TrimSpace(lines[2]), BOX_BOTTOM) && Cornered(lines)
    ensures BoxText(lines, 0) <==> !HasPrefix(TrimSpace(text), BOX_BOTTOM) && CorneredText(text) != ""
  {
    assert forall j: nat | Inside(lines, 0, j) :: j == 1;
    assert HasText(lines, 0, 1) <==> !HasPrefix(TrimSpace(text), BOX_BOTTOM) && CorneredText(text) != "";
  }

  lemma CornerRegion(text: string)
    requires Plain(text)
    ensures Split(Corner(text), '\n') == [TOP, text, BOTTOM] && RegionAt(Corner(text), 0) == Corner(text)
            && !HasChip(Corner(text))
  {
    CornerParts();
    ThreeLines(TOP, text, BOTTOM);
    JoinSplit(Corner(text), '\n');
    assert [TOP, text, BOTTOM][0..] == [TOP, text, BOTTOM];
    ChipAcross(text, BOTTOM);
    ChipAcross(TOP, text + "\n" + BOTTOM);
  }

  /**
    A cornered box alone on the screen is judged submitted on any sign of work, whatever is typed in
    it; so the verdict is false exactly when something is.
   */
  lemma CornerIsBlind(l: Look, v: Verdict, text: string)
    requires l.visible == Corner(text) && Plain(text) && Readable(l) && Evidence(l) && Judged(l, v)
    ensures v.Submitted? && BoxStart(Split(l.visible, '\n'), 0)
    ensures Holds(l.visible, 0) <==> !HasPrefix(TrimSpace(text), BOX_BOTTOM) && CorneredText(text) != ""
  {
    CornerRegion(text);
    CornerShape(Split(l.visible, '\n'), text);
    CornerParts();
    CornerText(Split(l.visible, '\n'), text);
    VerdictMeans(l, v, 0);
  }

  /** A rule-delimited box with an empty prompt and one more line. */
  function Ruled(text: string): string
  {
    RULE + "\n" + (PROMPT + "\n" + (text + "\n" + RULE))
  }

  lemma RuledParts()
    ensures Rule(RULE) && !Rule(PROMPT) && Prompt(PROMPT) && RuledText(PROMPT) == ""
    ensures !HasChip(RULE) && !HasChip(PROMPT) && !Contains(RULE, BOX_TOP) && !Contains(PROMPT, BOX_TOP)
  {
    assert TrimSpace(RULE) == RULE;
    ShortIsNoRule(PROMPT);
    ShortHasNoChip(RULE);
    ShortHasNoChip(PROMPT);
    NoCornerIn(RULE);
    NoCornerIn(PROMPT);
    assert TrimSpace(PROMPT) == PROMPT;
  }

  lemma RuledRegion(text: string)
    requires Plain(text)
    ensures Split(Ruled(text), '\n') == [RULE, PROMPT, text, RULE] && RegionAt(Ruled(text), 0) == Ruled(text)
            && !HasChip(Ruled(text))
  {
    RuledParts();
    MoreLines(RULE, PROMPT, text, RULE);
    SplitFree(RULE, '\n');
    assert [RULE, PROMPT, text] + [RULE] == [RULE, PROMPT, text, RULE];
    JoinSplit(Ruled(text), '\n');
    assert [RULE, PROMPT, text, RULE][0..] == [RULE, PROMPT, text, RULE];
    ChipAcross(text, RULE);
    ChipAcross(PROMPT, text + "\n" + RULE);
    ChipAcross(RULE, PROMPT + "\n" + (text + "\n" + RULE));
  }

  lemma RuledStart(lines: seq<string>)
    requires |lines| == 4 && Rule(lines[0]) && !Rule(lines[1]) && !Rule(lines[2]) && Rule(lines[3])
    requires Prompt(lines[1]) && !Cornered(lines)
    ensures LastRules(lines, 0, 3) && BoxStart(lines, 0)
  {
    assert LastRules(lines, 0, 3);
    assert PromptWithin(lines, 0, 3);
  }

  /** Of two lines between rules, the second alone has text if the first has none. */
  lemma SecondLine(lines: seq<string>, j: nat)
    requires |lines| == 4 && LastRules(lines, 0, 3) && RuledText(lines[1]) == "" && !Cornered(lines)
    ensures HasText(lines, 0, j) <==> j == 2 && RuledText(lines[2]) != ""
  {
    OnlyLastRules(lines, 0, 3);
  }

  lemma RuledShape(lines: seq<string>)
    requires |lines| == 4 && LastRules(lines, 0, 3) && RuledText(lines[1]) == "" && !Cornered(lines)
    ensures BoxText(lines, 0) <==> RuledText(lines[2]) != ""
    ensures OnPromptLine(lines, 0) <==> RuledText(lines[2]) != "" && Prompt(lines[2])
  {
    forall j: nat
      ensures HasText(lines, 0, j) <==> j == 2 && RuledText(lines[2]) != ""
    {
      SecondLine(lines, j);
    }
    assert HasText(lines, 0, 2) <==> RuledText(lines[2]) != "";
  }

  /**
    Text on the line below an empty prompt is not read: such a box is judged submitted on any sign of
    work, whatever the text, unless it looks like a prompt itself.
   */
  lemma BelowThePrompt(l: Look, v: Verdict, text: string)
    requires l.visible == Ruled(text) && Plain(text) && !Rule(text) && RuledText(text) != ""
    requires Readable(l) && Evidence(l) && Judged(l, v)
    ensures BoxStart(Split(l.visible, '\n'), 0) && Holds(l.visible, 0)
    ensures v.Submitted? <==> !Prompt(text)
  {
    RuledRegion(text);
    RuledParts();
    RuledStart(Split(l.visible, '\n'));
    RuledShape(Split(l.visible, '\n'));
    RuledBoxIsRead(Split(l.visible, '\n'), 0);
    VerdictMeans(l, v, 0);
  }

  /** The failing looks: text below the prompt of a ruled box, and text in a cornered one. */
  lemma TextSlipsThrough(l: Look, v: Verdict)
    requires l.visible == Ruled("  go") || l.visible == Corner("│ > go")
    requires Readable(l) && l.before != l.after && Judged(l, v)
    ensures v.Submitted? && BoxStart(Split(l.visible, '\n'), 0) && Holds(l.visible, 0)
  {
    if l.visible == Ruled("  go") {
      GoIsText();
      BelowThePrompt(l, v, "  go");
    } else {
      BoxedGoIsText();
      CornerIsBlind(l, v, "│ > go");
    }
  }

  lemma GoIsText()
    ensures Plain("  go") && !Rule("  go") && !Prompt("  go") && RuledText("  go") == "go"
  {
    NoCornerIn("  go");
    ShortHasNoChip("  go");
    ShortIsNoRule("  go");
    assert "  go"[1..] == " go" && " go"[1..] == "go";
    assert TrimSpace("go") == "go";
    assert TrimLeft("  go") == TrimLeft(" go") == TrimLeft("go") == "go";
    assert PROMPT[0] == '❯' && BOXED_PROMPT[0] == '│';
  }

  lemma BoxedGoIsText()
    ensures Plain("│ > go") && CorneredText("│ > go") == "go" && !HasPrefix(TrimSpace("│ > go"), BOX_BOTTOM)
  {
    NoCornerIn("│ > go");
    ShortHasNoChip("│ > go");
    assert TrimSpace("│ > go") == "│ > go";
    assert BOX_BOTTOM[0] == '╰' && BORDER[0] == '│' && PROMPT[0] == '❯';
    assert TrimPrefix("│ > go", BORDER) == " > go";
    assert " > go"[1..] == "> go";
    assert TrimSpace("> go") == "> go";
    assert "> go"[1..] == " go" && " go"[1..] == "go";
    assert TrimSpace("go") == "go";
  }

  // ----- an empty box judged stranded -----

  const FILLED := "❯ hi"
  const EMPTY := "│ >"

  /** Two rules around an earlier prompt, above an empty cornered box. */
  function OldPrompt(): string
  {
    RULE + "\n" + (FILLED + "\n" + (RULE + "\n" + Corner(EMPTY)))
  }

  lemma OldPromptParts()
    ensures Plain(EMPTY) && CorneredText(EMPTY) == "" && Filled(FILLED) && !Rule(FILLED) && !Rule(EMPTY)
  {
    NoCornerIn(EMPTY);
    ShortHasNoChip(EMPTY);
    ShortIsNoRule(EMPTY);
    ShortIsNoRule(FILLED);
    assert TrimSpace(EMPTY) == EMPTY;
    assert TrimPrefix(EMPTY, BORDER) == " >";
    assert " >"[1..] == ">";
    assert TrimSpace(">") == ">";
    assert TrimLeft(FILLED) == FILLED;
    assert TrimPrefix(FILLED, PROMPT) == " hi";
    assert " hi"[1..] == "hi";
    assert TrimSpace("hi") == "hi";
  }

  predicate IsOldPrompt(lines: seq<string>)
  {
    && |lines| == 6 && lines[0] == RULE && lines[1] == FILLED && lines[2] == RULE
    && lines[3] == TOP && lines[4] == EMPTY && lines[5] == BOTTOM
  }

  lemma OldPromptLines()
    ensures IsOldPrompt(Split(OldPrompt(), '\n')) && RegionAt(OldPrompt(), 3) == Corner(EMPTY)
  {
    MoreLines(RULE, FILLED, RULE, Corner(EMPTY));
    OldPromptParts();
    CornerRegion(EMPTY);
    JoinSplit(Corner(EMPTY), '\n');
    assert Split(OldPrompt(), '\n')[3..] == Split(Corner(EMPTY), '\n');
  }

  lemma TextAbove(lines: seq<string>)
    requires |lines| == 6 && Rule(lines[0]) && Filled(lines[1]) && Rule(lines[2])
    requires forall j | 0 < j < 6 && j != 2 :: !Rule(lines[j])
    ensures Inline(lines)
  {
    assert LastRules(lines, 0, 2);
  }

  lemma OldPromptIsFilled(lines: seq<string>)
    requires IsOldPrompt(lines)
    ensures Inline(lines)
  {
    RuledParts();
    OldPromptParts();
    CornerParts();
    TextAbove(lines);
  }

  lemma OldPromptIsEmpty(lines: seq<string>)
    requires IsOldPrompt(lines)
    ensures BoxStart(lines, 3) && !BoxText(lines, 3)
  {
    OldPromptParts();
    CornerParts();
    assert LastTop(lines, 3);
    assert !Inside(lines, 3, 5);
  }

  /** The other failing look: an empty cornered box below two rules is judged stranded. */
  lemma EmptyCornerReadsStranded(l: Look, v: Verdict)
    requires l.visible == OldPrompt() && Readable(l) && Judged(l, v)
    ensures v.Stranded? && BoxStart(Split(l.visible, '\n'), 3) && !Holds(l.visible, 3)
  {
    OldPromptLines();
    OldPromptIsFilled(Split(l.visible, '\n'));
    OldPromptIsEmpty(Split(l.visible, '\n'));
    OldPromptParts();
    CornerRegion(EMPTY);
    VerdictMeans(l, v, 3);
  }
}
