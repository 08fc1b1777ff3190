/** The remote command line: quoting by the host, and the POSIX shell that reads it back. */
module Shell {
  import opened Text

  // ----- the host: quoting -----

  /** Every single quote becomes quote, backslash, quote, quote. */
  function Escape(s: string): string
  {
    if s == "" then ""
    else (if s[0] == '\'' then "'\\''" else [s[0]]) + Escape(s[1..])
  }

  function ShellQuote(s: string): string
  {
    "'" + Escape(s) + "'"
  }

  function QuoteAll(tokens: seq<string>): seq<string>
  {
    seq(|tokens|, i requires 0 <= i < |tokens| => ShellQuote(tokens[i]))
  }

  // ----- the shell: token recognition -----

  datatype Mode = Between | InWord | Quoted | Escaped

  /** The words completed so far and the one being read; Bad once the line is not a list of plain words. */
  datatype State = State(mode: Mode, word: string, words: seq<string>) | Bad

  /** Characters that mean something to the shell when unquoted, other than those read below. */
  predicate Special(c: char)
  {
    || c == '|' || c == '&' || c == ';' || c == '<' || c == '>' || c == '(' || c == ')' || c == '$' || c == '`'
    || c == '"' || c == '*' || c == '?' || c == '[' || c == '#' || c == '~' || c == '=' || c == '%' || c == '\n'
    || c == '{' || c == '}' || c == '!'
  }

  /** One character, by sections 2.2.1, 2.2.2 and 2.3 of the Shell Command Language, IEEE Std 1003.1. */
  function Next(s: State, c: char): State
  {
    if s.Bad? then Bad
    else
      match s.mode
      case Quoted => if c == '\'' then s.(mode := InWord) else s.(word := s.word + [c])
      case Escaped => if c == '\n' then s.(mode := InWord) else s.(mode := InWord, word := s.word + [c])
      case _ =>
        if c == ' ' || c == '\t' then
          if s.mode.InWord? then State(Between, "", s.words + [s.word]) else s
        else if c == '\'' then s.(mode := Quoted)
        else if c == '\\' then s.(mode := Escaped)
        else if Special(c) then Bad
        else s.(mode := InWord, word := s.word + [c])
  }

  function Scan(s: State, line: string): State
    decreases |line|
  {
    if line == "" then s else Scan(Next(s, line[0]), line[1..])
  }

  datatype Words = Words(words: seq<string>) | NotWords

  /** The words of a line, when the line is complete and holds nothing but words. */
  function Tokenize(line: string): Words
  {
    match Scan(State(Between, "", []), line)
    case Bad => NotWords
    case State(mode, word, words) =>
      if mode.Quoted? || mode.Escaped? then NotWords
      else if mode.InWord? then Words(words + [word])
      else Words(words)
  }

  lemma {:induction false} ScanConcat(s: State, a: string, b: string)
    ensures Scan(s, a + b) == Scan(Scan(s, a), b)
    decreases |a|
  {
    if a == "" {
      assert a + b == b;
    } else {
      assert (a + b)[1..] == a[1..] + b;
      ScanConcat(Next(s, a[0]), a[1..], b);
    }
  }

  lemma ScanOne(s: State, c: char)
    ensures Scan(s, [c]) == Next(s, c)
  {
  }

  /** An embedded quote leaves the quoted mode and comes back with the quote added. */
  lemma ScanQuote(word: string, words: seq<string>)
    ensures Scan(State(Quoted, word, words), "'\\''") == State(Quoted, word + "'", words)
  {
  }

  lemma {:induction false} ScanEscaped(s: string, word: string, words: seq<string>)
    ensures Scan(State(Quoted, word, words), Escape(s)) == State(Quoted, word + s, words)
    decreases |s|
  {
    if s == "" {
      assert word + s == word;
    } else {
      var head := if s[0] == '\'' then "'\\''" else [s[0]];
      ScanConcat(State(Quoted, word, words), head, Escape(s[1..]));
      if s[0] == '\'' {
        ScanQuote(word, words);
      } else {
        ScanOne(State(Quoted, word, words), s[0]);
      }
      ScanEscaped(s[1..], word + [s[0]], words);
      assert word + [s[0]] + s[1..] == word + s;
    }
  }

  /** Whatever the string, its quoted form is read as that one word. */
  lemma ScanQuoted(s: string, words: seq<string>)
    ensures Scan(State(Between, "", words), ShellQuote(s)) == State(InWord, s, words)
  {
    ScanConcat(State(Between, "", words), "'" + Escape(s), "'");
    ScanConcat(State(Between, "", words), "'", Escape(s));
    ScanOne(State(Between, "", words), '\'');
    ScanEscaped(s, "", words);
    assert "" + s == s;
    ScanOne(State(Quoted, s, words), '\'');
  }

  lemma {:induction false} ScanJoined(word: string, tokens: seq<string>, words: seq<string>)
    ensures Scan(State(InWord, word, words), SpacedQuoted(tokens))
         == if tokens == [] then State(InWord, word, words)
            else State(InWord, tokens[|tokens| - 1], words + [word] + tokens[..|tokens| - 1])
    decreases |tokens|
  {
    if tokens != [] {
      var rest := ShellQuote(tokens[0]) + SpacedQuoted(tokens[1..]);
      ScanConcat(State(InWord, word, words), " ", rest);
      ScanOne(State(InWord, word, words), ' ');
      ScanConcat(State(Between, "", words + [word]), ShellQuote(tokens[0]), SpacedQuoted(tokens[1..]));
      ScanQuoted(tokens[0], words + [word]);
      ScanJoined(tokens[0], tokens[1..], words + [word]);
      if |tokens| > 1 {
        assert [tokens[0]] + tokens[1..][..|tokens| - 2] == tokens[..|tokens| - 1];
      }
    }
  }

  function SpacedQuoted(tokens: seq<string>): string
  {
    if tokens == [] then "" else " " + (ShellQuote(tokens[0]) + SpacedQuoted(tokens[1..]))
  }

  lemma {:induction false} JoinIsSpaced(first: string, tokens: seq<string>)
    ensures Join([first] + QuoteAll(tokens), ' ') == first + SpacedQuoted(tokens)
    decreases |tokens|
  {
    if tokens == [] {
      assert [first] + QuoteAll(tokens) == [first];
    } else {
      var parts := [first] + QuoteAll(tokens);
      assert parts[1..] == [ShellQuote(tokens[0])] + QuoteAll(tokens[1..]);
      JoinIsSpaced(ShellQuote(tokens[0]), tokens[1..]);
    }
  }

  lemma {:induction false} ScanLetters(s: string, mode: Mode, word: string)
    requires s != "" && (mode.Between? || mode.InWord?) && forall i | 0 <= i < |s| :: 'a' <= s[i] <= 'z'
    ensures Scan(State(mode, word, []), s) == State(InWord, word + s, [])
    decreases |s|
  {
    if |s| == 1 {
      assert s == [s[0]];
      ScanOne(State(mode, word, []), s[0]);
    } else {
      ScanLetters(s[1..], InWord, word + [s[0]]);
      assert word + [s[0]] + s[1..] == word + s;
    }
  }

  /** The shell reads back "env" and the tokens, whatever they hold. */
  lemma RemoteRoundTrip(tokens: seq<string>)
    ensures Tokenize(Join(["env"] + QuoteAll(tokens), ' ')) == Words(["env"] + tokens)
  {
    JoinIsSpaced("env", tokens);
    ScanConcat(State(Between, "", []), "env", SpacedQuoted(tokens));
    ScanLetters("env", Between, "");
    assert "" + "env" == "env";
    ScanJoined("env", tokens, []);
    if tokens != [] {
      assert tokens[..|tokens| - 1] + [tokens[|tokens| - 1]] == tokens;
    }
  }

  method BuildRemoteCmd(envTokens: seq<string>, argv: seq<string>) returns (cmd: string)
    ensures Tokenize(cmd) == Words(["env"] + envTokens + argv)
    ensures cmd == Join(["env"] + QuoteAll(envTokens + argv), ' ')
  {
    var parts := ["env"];
    for i := 0 to |envTokens|
      invariant parts == ["env"] + QuoteAll(envTokens[..i])
    {
      parts := parts + [ShellQuote(envTokens[i])];
    }
    for i := 0 to |argv|
      invariant parts == ["env"] + QuoteAll(envTokens + argv[..i])
    {
      parts := parts + [ShellQuote(argv[i])];
    }
    assert argv[..|argv|] == argv;
    cmd := Join(parts, ' ');
    RemoteRoundTrip(envTokens + argv);
    assert ["env"] + (envTokens + argv) == ["env"] + envTokens + argv;
  }

  /** So no two commands look alike on the wire. */
  lemma RemoteInjective(a: seq<string>, b: seq<string>)
    requires Join(["env"] + QuoteAll(a), ' ') == Join(["env"] + QuoteAll(b), ' ')
    ensures a == b
  {
    RemoteRoundTrip(a);
    RemoteRoundTrip(b);
    assert (["env"] + a)[1..] == a && (["env"] + b)[1..] == b;
  }
}
