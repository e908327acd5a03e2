// The sandbox worker's shell quoting, against the token recognition of the POSIX shell
// (POSIX.1-2017 Shell Command Language, sections 2.2.2, 2.2.3 and 2.3).
module Shell {
  import opened Options

  // ----- Quoting -----

  // Every single quote leaves the single-quoted string, is double-quoted, and re-enters it.
  function EscapeChar(c: char): string {
    if c == '\'' then "'\"'\"'" else [c]
  }

  function Escape(s: string): string {
    if s == "" then "" else EscapeChar(s[0]) + Escape(s[1..])
  }

  function Quote(argument: string): string {
    "'" + Escape(argument) + "'"
  }

  function Line(argv: seq<string>): string {
    if argv == [] then ""
    else if |argv| == 1 then Quote(argv[0])
    else Quote(argv[0]) + " " + Line(argv[1..])
  }

  // ----- Token recognition -----

  datatype Mode = Unquoted | SingleQuoted | DoubleQuoted

  // Characters that start an operator, an expansion, a comment or an escape when unquoted; a
  // line in which one occurs is more than a simple list of words.
  const SPECIAL := "|&;<>()$`\\\n*?[#~=%"

  function Flush(word: Option<string>, words: seq<string>): seq<string> {
    match word
    case None => words
    case Some(w) => words + [w]
  }

  function Extend(word: Option<string>, c: char): Option<string> {
    match word
    case None => Some([c])
    case Some(w) => Some(w + [c])
  }

  function Opened(word: Option<string>): Option<string> {
    if word.None? then Some("") else word
  }

  // The words of a line, or None if it is not a simple list of words.
  function Tokens(s: string, mode: Mode, word: Option<string>, words: seq<string>): Option<seq<string>>
    decreases |s|
  {
    if s == "" then if mode == Unquoted then Some(Flush(word, words)) else None
    else
      var c, rest := s[0], s[1..];
      match mode
      case SingleQuoted =>
        if c == '\'' then Tokens(rest, Unquoted, word, words)
        else Tokens(rest, SingleQuoted, Extend(word, c), words)
      case DoubleQuoted =>
        if c == '"' then Tokens(rest, Unquoted, word, words)
        else if c in "$`\\" then None
        else Tokens(rest, DoubleQuoted, Extend(word, c), words)
      case Unquoted =>
        if c == ' ' || c == '\t' then Tokens(rest, Unquoted, None, Flush(word, words))
        else if c == '\'' then Tokens(rest, SingleQuoted, Opened(word), words)
        else if c == '"' then Tokens(rest, DoubleQuoted, Opened(word), words)
        else if c in SPECIAL then None
        else Tokens(rest, Unquoted, Extend(word, c), words)
  }

  function Tokenize(line: string): Option<seq<string>> {
    Tokens(line, Unquoted, None, [])
  }

  // ----- Round trip -----

  // A quoted quote, read one character at a time.
  lemma QuoteIsRead(tail: string, word: string, words: seq<string>)
    ensures Tokens("'\"'\"'" + tail, SingleQuoted, Some(word), words) ==
            Tokens(tail, SingleQuoted, Some(word + "'"), words)
  {
    var s1 := "\"'\"'" + tail;
    var s2 := "'\"'" + tail;
    var s3 := "\"'" + tail;
    var s4 := "'" + tail;
    var s0 := "'\"'\"'" + tail;
    assert s0[0] == '\'' && s0[1..] == s1;
    assert s1[0] == '"' && s1[1..] == s2;
    assert s2[0] == '\'' && s2[1..] == s3;
    assert s3[0] == '"' && s3[1..] == s4;
    assert s4[0] == '\'' && s4[1..] == tail;
    var w := Some(word + "'");
    assert Tokens(s4, Unquoted, w, words) == Tokens(tail, SingleQuoted, w, words);
    assert Tokens(s3, DoubleQuoted, w, words) == Tokens(s4, Unquoted, w, words);
    assert Tokens(s2, DoubleQuoted, Some(word), words) == Tokens(s3, DoubleQuoted, w, words);
    assert Tokens(s1, Unquoted, Some(word), words) == Tokens(s2, DoubleQuoted, Some(word), words);
    assert Tokens(s0, SingleQuoted, Some(word), words) == Tokens(s1, Unquoted, Some(word), words);
  }

  lemma CharIsRead(c: char, tail: string, word: string, words: seq<string>)
    ensures Tokens(EscapeChar(c) + tail, SingleQuoted, Some(word), words) ==
            Tokens(tail, SingleQuoted, Some(word + [c]), words)
  {
    if c == '\'' {
      QuoteIsRead(tail, word, words);
    } else {
      assert ([c] + tail)[1..] == tail;
    }
  }

  lemma BlankIsRead(tail: string, word: string, words: seq<string>)
    ensures Tokens(" " + tail, Unquoted, Some(word), words) ==
            Tokens(tail, Unquoted, None, words + [word])
  {
    assert (" " + tail)[0] == ' ' && (" " + tail)[1..] == tail;
  }

  lemma {:induction false} EscapedIsRead(s: string, rest: string, word: string, words: seq<string>)
    ensures Tokens(Escape(s) + "'" + rest, SingleQuoted, Some(word), words) ==
            Tokens(rest, Unquoted, Some(word + s), words)
    decreases |s|
  {
    if s == "" {
      assert Escape(s) + "'" + rest == ['\''] + rest;
      assert word + s == word;
    } else {
      var c, tail := s[0], Escape(s[1..]) + "'" + rest;
      assert Escape(s) + "'" + rest == EscapeChar(c) + tail;
      CharIsRead(c, tail, word, words);
      EscapedIsRead(s[1..], rest, word + [c], words);
      assert word + [c] + s[1..] == word + s;
    }
  }

  lemma QuotedIsRead(argument: string, rest: string, words: seq<string>)
    ensures Tokens(Quote(argument) + rest, Unquoted, None, words) ==
            Tokens(rest, Unquoted, Some(argument), words)
  {
    var body := Escape(argument) + "'" + rest;
    assert Quote(argument) + rest == ['\''] + body;
    EscapedIsRead(argument, rest, "", words);
    assert "" + argument == argument;
  }

  lemma EndIsRead(word: string, words: seq<string>)
    ensures Tokens("", Unquoted, Some(word), words) == Some(words + [word])
  {
  }

  lemma {:induction false} LineIsRead(argv: seq<string>, words: seq<string>)
    ensures Tokens(Line(argv), Unquoted, None, words) == Some(words + argv)
  {
    if argv == [] {
      assert words + argv == words;
    } else if |argv| == 1 {
      QuotedIsRead(argv[0], "", words);
      EndIsRead(argv[0], words);
      assert Quote(argv[0]) + "" == Quote(argv[0]);
      assert argv == [argv[0]];
    } else {
      var others := Line(argv[1..]);
      LineRegroups(argv);
      QuotedIsRead(argv[0], " " + others, words);
      BlankIsRead(others, argv[0], words);
      LineIsRead(argv[1..], words + [argv[0]]);
      assert words + [argv[0]] + argv[1..] == words + argv;
    }
  }

  lemma LineRegroups(argv: seq<string>)
    requires |argv| > 1
    ensures Line(argv) == Quote(argv[0]) + (" " + Line(argv[1..]))
  {
  }

  // The shell reads back exactly the argument list, whatever the arguments contain.
  lemma ShellRoundTrip(argv: seq<string>)
    ensures Tokenize(Line(argv)) == Some(argv)
  {
    LineIsRead(argv, []);
    assert [] + argv == argv;
  }
}
