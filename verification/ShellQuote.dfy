/** Quoting a path for the device's shell, and the shell that reads it: section
    2.2 (Quoting) of the POSIX Shell Command Language. */
module ShellQuote {
  import opened Options

  const QUOTE := '\''

  /** Every quote becomes: close, an escaped quote, open again. */
  function Escaped(s: string): string {
    if s == [] then []
    else if s[0] == QUOTE then ['\'', '\\', '\'', '\''] + Escaped(s[1..])
    else [s[0]] + Escaped(s[1..])
  }

  function Quoted(s: string): string {
    [QUOTE] + Escaped(s) + [QUOTE]
  }

  function MkdirCommand(dir: string): string {
    "mkdir -p " + Quoted(dir)
  }

  predicate NulFree(s: string) {
    forall i :: 0 <= i < |s| ==> s[i] != '\0'
  }

  // ---------------------------------------------------------------------
  // The shell's side
  // ---------------------------------------------------------------------

  /** A command line is plain words, or it is something more: an operator, an
      expansion, a pattern, a comment, an assignment, an open quote, a NUL. */
  datatype Lexed = Words(ws: seq<string>) | MoreThanWords

  datatype Mode = Between | InWord | InQuotes

  predicate Special(c: char) {
    || c == '|' || c == '&' || c == ';' || c == '<' || c == '>' || c == '(' || c == ')'
    || c == '$' || c == '`' || c == '"' || c == '\n' || c == '\0'
    || c == '*' || c == '?' || c == '[' || c == ']' || c == '#' || c == '~' || c == '=' || c == '%'
    || c == '{' || c == '}' || c == '!'
  }

  predicate Space(c: char) {
    c == ' ' || c == '\t'
  }

  function Ended(mode: Mode, word: string, done: seq<string>): seq<string> {
    if mode == Between then done else done + [word]
  }

  function Scan(s: string, mode: Mode, word: string, done: seq<string>): Lexed
    decreases |s|
  {
    if mode == InQuotes then
      if s == [] || s[0] == '\0' then MoreThanWords
      else if s[0] == QUOTE then Scan(s[1..], InWord, word, done)
      else Scan(s[1..], InQuotes, word + [s[0]], done)
    else if s == [] then Words(Ended(mode, word, done))
    else if s[0] == QUOTE then Scan(s[1..], InQuotes, word, done)
    else if s[0] == '\\' then
      if |s| < 2 || s[1] == '\0' then MoreThanWords
      else if s[1] == '\n' then Scan(s[2..], mode, word, done)
      else Scan(s[2..], InWord, word + [s[1]], done)
    else if Space(s[0]) then Scan(s[1..], Between, [], Ended(mode, word, done))
    else if Special(s[0]) then MoreThanWords
    else Scan(s[1..], InWord, word + [s[0]], done)
  }

  function Lex(s: string): Lexed {
    Scan(s, Between, [], [])
  }

  // ---------------------------------------------------------------------
  // One reads what the other wrote
  // ---------------------------------------------------------------------

  /** From inside the quotes, the escaped text and its closing quote add exactly
      the text to the word. */
  lemma {:induction false} ScanEscaped(s: string, rest: string, word: string, done: seq<string>)
    requires NulFree(s)
    ensures Scan(Escaped(s) + ([QUOTE] + rest), InQuotes, word, done) == Scan(rest, InWord, word + s, done)
  {
    hide Scan;
    var tail := [QUOTE] + rest;
    if s == [] {
      assert Escaped(s) + tail == tail && word + s == word;
      QuoteCloses(rest, word, done);
    } else {
      var more := Escaped(s[1..]) + tail;
      ScanEscaped(s[1..], rest, word + [s[0]], done);
      assert word + [s[0]] + s[1..] == word + s;
      if s[0] == QUOTE {
        assert Escaped(s) + tail == ['\'', '\\', '\'', '\''] + more;
        QuoteInside(more, word, done);
      } else {
        assert Escaped(s) + tail == [s[0]] + more;
        PlainInside(s[0], more, word, done);
      }
    }
  }

  lemma QuoteCloses(rest: string, word: string, done: seq<string>)
    ensures Scan([QUOTE] + rest, InQuotes, word, done) == Scan(rest, InWord, word, done)
  {
    assert ([QUOTE] + rest)[1..] == rest;
  }

  lemma PlainInside(c: char, more: string, word: string, done: seq<string>)
    requires c != QUOTE && c != '\0'
    ensures Scan([c] + more, InQuotes, word, done) == Scan(more, InQuotes, word + [c], done)
  {
    assert ([c] + more)[1..] == more;
  }

  /** Close, escaped quote, open: back inside the quotes with a quote added. */
  lemma QuoteInside(more: string, word: string, done: seq<string>)
    ensures Scan(['\'', '\\', '\'', '\''] + more, InQuotes, word, done) == Scan(more, InQuotes, word + ['\''], done)
  {
    var s := ['\'', '\\', '\'', '\''] + more;
    assert s[1..] == ['\\', '\'', '\''] + more;
    assert s[1..][2..] == ['\''] + more;
    assert (['\''] + more)[1..] == more;
    assert Scan(s, InQuotes, word, done) == Scan(s[1..], InWord, word, done);
    assert Scan(s[1..], InWord, word, done) == Scan(['\''] + more, InWord, word + ['\''], done);
  }

  predicate Plain(w: string) {
    forall i :: 0 <= i < |w| ==> !Special(w[i]) && !Space(w[i]) && w[i] != QUOTE && w[i] != '\\'
  }

  lemma {:induction false} ScanPlain(w: string, rest: string, mode: Mode, word: string, done: seq<string>)
    requires Plain(w) && w != [] && mode != InQuotes
    ensures Scan(w + rest, mode, word, done) == Scan(rest, InWord, word + w, done)
    decreases |w|
  {
    assert (w + rest)[1..] == w[1..] + rest;
    assert word + [w[0]] + w[1..] == word + w;
    if |w| == 1 {
      assert w[1..] + rest == rest && w == [w[0]];
    } else {
      ScanPlain(w[1..], rest, InWord, word + [w[0]], done);
    }
  }

  /** A quoted text is one word, wherever a word may start. */
  lemma ScanQuoted(s: string, done: seq<string>)
    requires NulFree(s)
    ensures Scan(Quoted(s), Between, [], done) == Words(done + [s])
  {
    assert Quoted(s)[1..] == Escaped(s) + ([QUOTE] + []);
    ScanEscaped(s, [], [], done);
    assert [] + s == s;
  }

  /** A NUL is the end of what a shell is given, quoted or not. */
  lemma {:induction false} ScanNul(s: string, rest: string, word: string, done: seq<string>)
    requires !NulFree(s)
    ensures Scan(Escaped(s) + rest, InQuotes, word, done) == MoreThanWords
  {
    var more := Escaped(s[1..]) + rest;
    if s[0] == '\0' {
      assert (Escaped(s) + rest)[0] == '\0';
    } else {
      assert !NulFree(s[1..]) by {
        var i :| 0 <= i < |s| && s[i] == '\0';
        assert s[1..][i - 1] == '\0';
      }
      ScanNul(s[1..], rest, word + [s[0]], done);
      if s[0] == QUOTE {
        assert Escaped(s) + rest == ['\'', '\\', '\'', '\''] + more;
        QuoteInside(more, word, done);
      } else {
        assert Escaped(s) + rest == [s[0]] + more;
      }
    }
  }

  /** The shell reads a quoted text as that one word exactly when it has no NUL. */
  lemma QuoteRoundTrip(s: string)
    ensures Lex(Quoted(s)) == Words([s]) <==> NulFree(s)
  {
    if NulFree(s) {
      ScanQuoted(s, []);
    } else {
      assert Quoted(s)[1..] == Escaped(s) + [QUOTE];
      ScanNul(s, [QUOTE], [], []);
    }
  }

  /** However odd the directory's name, the command is three words, its own last. */
  lemma MkdirWords(dir: string)
    requires NulFree(dir)
    ensures Lex(MkdirCommand(dir)) == Words(["mkdir", "-p", dir])
  {
    hide Scan, Quoted, Special;
    var rest := [' '] + Quoted(dir);
    assert MkdirCommand(dir) == "mkdir" + ([' '] + ("-p" + rest));
    assert Plain("mkdir") && Plain("-p") by { PlainNames(); }
    ScanPlain("mkdir", [' '] + ("-p" + rest), Between, [], []);
    assert [] + "mkdir" == "mkdir" && [] + "-p" == "-p";
    ScanSpace("-p" + rest, "mkdir", []);
    assert [] + ["mkdir"] == ["mkdir"];
    ScanPlain("-p", rest, Between, [], ["mkdir"]);
    ScanSpace(Quoted(dir), "-p", ["mkdir"]);
    ScanQuoted(dir, ["mkdir"] + ["-p"]);
    assert ["mkdir"] + ["-p"] + [dir] == ["mkdir", "-p", dir];
  }

  lemma PlainNames()
    ensures Plain("mkdir") && Plain("-p")
  {
  }

  lemma ScanSpace(rest: string, word: string, done: seq<string>)
    ensures Scan([' '] + rest, InWord, word, done) == Scan(rest, Between, [], done + [word])
  {
    assert ([' '] + rest)[1..] == rest;
  }

  // ---------------------------------------------------------------------
  // What mkdir makes of the words
  // ---------------------------------------------------------------------

  /** Guidelines 4, 9 and 10 of section 12.2 (Utility Syntax Guidelines) of the POSIX
      Base Definitions: options come first and start with a dash that is not
      alone, and a double dash ends them. */
  predicate IsOption(arg: string) {
    |arg| >= 2 && arg[0] == '-'
  }

  function Operands(args: seq<string>): seq<string> {
    if args == [] then []
    else if args[0] == "--" then args[1..]
    else if IsOption(args[0]) then Operands(args[1..])
    else args
  }

  /** The operands mkdir is left with, if the line is words at all. */
  function MkdirOperands(line: string): Option<seq<string>> {
    match Lex(line)
    case Words(ws) => if ws == [] then None else Some(Operands(ws[1..]))
    case MoreThanWords => None
  }

  /** mkdir -p gets the directory as its one operand exactly when the directory
      does not look like an option to it. */
  lemma MkdirGetsItsDirectory(dir: string)
    requires NulFree(dir)
    ensures MkdirOperands(MkdirCommand(dir)) == Some([dir]) <==> !IsOption(dir)
  {
    MkdirWords(dir);
    hide Lex, MkdirCommand;
    var args := ["-p", dir];
    assert ["mkdir", "-p", dir][1..] == args && args[1..] == [dir] && [dir][1..] == [];
    assert Operands(args) == Operands([dir]);
    if dir == "--" {
      assert Operands([dir]) == [];
    } else if IsOption(dir) {
      assert Operands([dir]) == Operands([]) == [];
    } else {
      assert Operands([dir]) == [dir];
    }
  }

  /** Such a directory is accepted, and is no operand. */
  lemma DashIsAnOption()
    ensures NulFree("-v") && MkdirOperands(MkdirCommand("-v")) == Some([])
  {
    MkdirWords("-v");
    hide Lex, MkdirCommand;
    var args := ["-p", "-v"];
    assert ["mkdir", "-p", "-v"][1..] == args && args[1..] == ["-v"] && ["-v"][1..] == [];
    assert Operands(["-v"]) == Operands([]);
  }
}
