/** The string library the adbwire and api packages lean on: spaces, fields,
    cuts, and decimal integers. Strings are sequences of code points. */
module Text {
  import opened Options
  import Decimal

  // ---------------------------------------------------------------------
  // unicode.IsSpace, strings.TrimSpace
  // ---------------------------------------------------------------------

  predicate IsSpace(c: char) {
    || '\t' <= c <= '\r' || c == ' '
    || c == '\U{0085}' || c == '\U{00A0}' || c == '\U{1680}' || '\U{2000}' <= c <= '\U{200A}'
    || c == '\U{2028}' || c == '\U{2029}' || c == '\U{202F}' || c == '\U{205F}' || c == '\U{3000}'
  }

  predicate SpaceFree(s: string) {
    forall i :: 0 <= i < |s| ==> !IsSpace(s[i])
  }

  predicate Blank(s: string) {
    forall i :: 0 <= i < |s| ==> IsSpace(s[i])
  }

  function TrimLeft(s: string): (t: string)
    ensures t == [] || !IsSpace(t[0])
    ensures |t| <= |s|
  {
    if s != [] && IsSpace(s[0]) then TrimLeft(s[1..]) else s
  }

  function TrimRight(s: string): (t: string)
    ensures t == [] || !IsSpace(t[|t| - 1])
    ensures t <= s
  {
    if s != [] && IsSpace(s[|s| - 1]) then TrimRight(s[..|s| - 1]) else s
  }

  function TrimSpace(s: string): (t: string)
    ensures t == [] || (!IsSpace(t[0]) && !IsSpace(t[|t| - 1]))
  {
    TrimRight(TrimLeft(s))
  }

  lemma TrimTwice(s: string)
    ensures TrimSpace(TrimSpace(s)) == TrimSpace(s)
  {
  }

  lemma {:induction false} TrimLeftBlank(gap: string, s: string)
    requires Blank(gap) && (s == [] || !IsSpace(s[0]))
    ensures TrimLeft(gap + s) == s
  {
    hide IsSpace;
    if gap == [] {
      assert gap + s == s;
    } else {
      assert (gap + s)[1..] == gap[1..] + s;
      TrimLeftBlank(gap[1..], s);
    }
  }

  lemma {:induction false} TrimRightBlank(s: string, gap: string)
    requires Blank(gap) && (s == [] || !IsSpace(s[|s| - 1]))
    ensures TrimRight(s + gap) == s
  {
    hide IsSpace;
    if gap == [] {
      assert s + gap == s;
    } else {
      var k := |gap| - 1;
      assert (s + gap)[..|s| + k] == s + gap[..k];
      TrimRightBlank(s, gap[..k]);
    }
  }

  /** White space around a text, a carriage return included, is what is trimmed. */
  lemma PaddingIgnored(before: string, line: string, after: string)
    requires Blank(before) && Blank(after)
    requires line != "" && !IsSpace(line[0]) && !IsSpace(line[|line| - 1])
    ensures TrimSpace(before + line + after) == line
  {
    assert before + line + after == before + (line + after);
    TrimLeftBlank(before, line + after);
    TrimRightBlank(line, after);
  }

  // ---------------------------------------------------------------------
  // strings.Fields
  // ---------------------------------------------------------------------

  /** How long the word at the front is. */
  function WordLen(s: string): (n: nat)
    ensures n <= |s| && SpaceFree(s[..n])
    ensures n < |s| ==> IsSpace(s[n])
  {
    if s == [] || IsSpace(s[0]) then 0
    else
      var n := WordLen(s[1..]);
      assert s[..n + 1] == [s[0]] + s[1..][..n];
      n + 1
  }

  predicate IsWord(w: string) {
    w != [] && SpaceFree(w)
  }

  predicate AllWords(ws: seq<string>) {
    forall i :: 0 <= i < |ws| ==> IsWord(ws[i])
  }

  function Fields(s: string): (ws: seq<string>)
    ensures AllWords(ws)
    decreases |s|
  {
    var t := TrimLeft(s);
    if t == [] then []
    else
      var n := WordLen(t);
      [t[..n]] + Fields(t[n..])
  }

  lemma {:induction false} WordLenOf(w: string, rest: string)
    requires SpaceFree(w) && (rest == [] || IsSpace(rest[0]))
    ensures WordLen(w + rest) == |w|
  {
    if w == [] {
      assert w + rest == rest;
    } else {
      assert (w + rest)[1..] == w[1..] + rest;
      WordLenOf(w[1..], rest);
    }
  }

  /** A gap, a word, and whatever comes after the word. */
  lemma FieldsStep(gap: string, w: string, rest: string)
    requires Blank(gap) && IsWord(w) && (rest == [] || IsSpace(rest[0]))
    ensures Fields(gap + w + rest) == [w] + Fields(rest)
  {
    var t := w + rest;
    assert gap + w + rest == gap + t;
    assert t[0] == w[0];
    TrimLeftBlank(gap, t);
    WordLenOf(w, rest);
    assert t[..|w|] == w && t[|w|..] == rest;
  }

  lemma {:induction false} FieldsOfBlank(s: string)
    requires Blank(s)
    ensures Fields(s) == []
  {
    assert s + [] == s;
    TrimLeftBlank(s, []);
  }

  /** Words each preceded by its gap. */
  function Spread(gaps: seq<string>, ws: seq<string>): string
    requires |gaps| == |ws|
  {
    if ws == [] then [] else gaps[0] + ws[0] + Spread(gaps[1..], ws[1..])
  }

  /** The gaps are white, and none but the first is empty. */
  predicate Gaps(gaps: seq<string>) {
    forall i :: 0 <= i < |gaps| ==> Blank(gaps[i]) && (i > 0 ==> gaps[i] != [])
  }

  /** Fields gives back the words, however widely they are spread. */
  lemma {:induction false} FieldsOfSpread(gaps: seq<string>, ws: seq<string>, after: string)
    requires |gaps| == |ws| && Gaps(gaps) && AllWords(ws) && Blank(after)
    ensures Fields(Spread(gaps, ws) + after) == ws
  {
    if ws == [] {
      assert Spread(gaps, ws) + after == after;
      FieldsOfBlank(after);
    } else {
      var rest := Spread(gaps[1..], ws[1..]) + after;
      assert Spread(gaps, ws) + after == gaps[0] + ws[0] + rest;
      if |ws| > 1 {
        SpreadStarts(gaps[1..], ws[1..]);
        assert rest[0] == gaps[1][0];
      } else {
        assert rest == after;
      }
      FieldsStep(gaps[0], ws[0], rest);
      FieldsOfSpread(gaps[1..], ws[1..], after);
    }
  }

  /** Words spread out begin with the first gap or word and end with the last word. */
  lemma {:induction false} SpreadEnds(gaps: seq<string>, ws: seq<string>)
    requires |gaps| == |ws| > 0 && AllWords(ws)
    ensures var s, last := Spread(gaps, ws), ws[|ws| - 1];
            && s != [] && s[|s| - 1] == last[|last| - 1]
            && (gaps[0] == [] ==> s[0] == ws[0][0])
  {
    if |ws| > 1 {
      SpreadEnds(gaps[1..], ws[1..]);
    } else {
      assert Spread(gaps[1..], ws[1..]) == [];
    }
  }

  lemma SpreadStarts(gaps: seq<string>, ws: seq<string>)
    requires |gaps| == |ws| > 0 && gaps[0] != []
    ensures Spread(gaps, ws) != [] && Spread(gaps, ws)[0] == gaps[0][0]
  {
  }

  /** strings.Join(ws, " "). */
  function Join(ws: seq<string>): string {
    if ws == [] then [] else if |ws| == 1 then ws[0] else ws[0] + " " + Join(ws[1..])
  }

  lemma {:induction false} FieldsOfJoin(ws: seq<string>)
    requires AllWords(ws)
    ensures Fields(Join(ws)) == ws
  {
    hide Fields, SpaceFree, IsSpace;
    if ws == [] {
      FieldsOfBlank([]);
    } else if |ws| == 1 {
      FieldsOfBlank([]);
      FieldsStep([], ws[0], []);
      assert [] + ws[0] + [] == Join(ws);
      assert ws == [ws[0]];
    } else {
      var rest := Join(ws[1..]);
      FieldsOfJoin(ws[1..]);
      SpaceIsSpace();
      FieldsStep([], ws[0], " " + rest);
      assert [] + ws[0] + (" " + rest) == Join(ws);
      LeadingSpace(rest);
    }
  }

  lemma SpaceIsSpace()
    ensures IsSpace(' ')
  {
  }

  lemma LeadingSpace(s: string)
    ensures Fields(" " + s) == Fields(s)
  {
    assert (" " + s)[1..] == s;
    assert TrimLeft(" " + s) == TrimLeft(s);
  }

  // ---------------------------------------------------------------------
  // strings.Cut
  // ---------------------------------------------------------------------

  function IndexOf(s: string, c: char): (i: Option<nat>)
    ensures i.Some? ==> i.value < |s| && s[i.value] == c && c !in s[..i.value]
    ensures i.None? <==> c !in s
  {
    if s == [] then None
    else if s[0] == c then Some(0)
    else
      match IndexOf(s[1..], c)
      case None => None
      case Some(i) =>
        assert s[..i + 1] == [s[0]] + s[1..][..i];
        Some(i + 1)
  }

  /** The first c of before + [c] + after, when before has none. */
  lemma {:induction false} IndexOfCut(before: string, c: char, after: string)
    requires c !in before
    ensures var s := before + [c] + after;
            && IndexOf(s, c) == Some(|before|)
            && s[..|before|] == before && s[|before| + 1..] == after
  {
    var s := before + [c] + after;
    if before != [] {
      assert s[1..] == before[1..] + [c] + after;
      IndexOfCut(before[1..], c, after);
    }
  }

  // ---------------------------------------------------------------------
  // strconv
  // ---------------------------------------------------------------------

  const MIN_INT64 := -0x8000_0000_0000_0000
  const MAX_INT64 := 0x7FFF_FFFF_FFFF_FFFF

  predicate AllDigits(s: string) {
    forall i :: 0 <= i < |s| ==> '0' <= s[i] <= '9'
  }

  function DigitsOf(s: string): (ds: seq<Decimal.digit>)
    requires AllDigits(s)
    ensures |ds| == |s|
  {
    seq(|s|, i requires 0 <= i < |s| => (s[i] - '0') as int)
  }

  /** strconv.ParseInt(s, 10, 64), the errors all alike. */
  function ParseInt(s: string): (n: Option<int>)
    ensures n.Some? ==> MIN_INT64 <= n.value <= MAX_INT64
  {
    var negative := s != [] && s[0] == '-';
    var body := if s != [] && (s[0] == '-' || s[0] == '+') then s[1..] else s;
    if body == [] || !AllDigits(body) then None
    else
      var v: int := Decimal.Value(DigitsOf(body));
      var n: int := if negative then -v else v;
      if MIN_INT64 <= n <= MAX_INT64 then Some(n) else None
  }

  function Unsigned(n: nat): (s: string)
    ensures s != [] && AllDigits(s)
  {
    var ds: seq<int> := Decimal.Digits(n);
    seq(|ds|, i requires 0 <= i < |ds| && 0 <= ds[i] < 10 => ('0' as int + ds[i]) as char)
  }

  /** %d of an int64. */
  function FormatInt(n: int): string {
    if n < 0 then "-" + Unsigned(-n) else Unsigned(n)
  }

  lemma UnsignedValue(n: nat)
    ensures Decimal.Value(DigitsOf(Unsigned(n))) == n
  {
    Decimal.ValueOfDigits(n);
    assert DigitsOf(Unsigned(n)) == Decimal.Digits(n);
  }

  /** Digits, bare or after a sign, read as their value if it is in range. */
  lemma ParseDigits(u: string, v: int)
    requires u != [] && AllDigits(u) && Decimal.Value(DigitsOf(u)) == v
    ensures ParseInt(u) == (if v <= MAX_INT64 then Some(v) else None)
    ensures ParseInt("+" + u) == (if v <= MAX_INT64 then Some(v) else None)
    ensures ParseInt("-" + u) == (if -v >= MIN_INT64 then Some(-v) else None)
  {
    assert '0' <= u[0] <= '9';
    assert ("+" + u)[1..] == u && ("-" + u)[1..] == u;
    hide DigitsOf, Decimal.Value, AllDigits;
  }

  lemma ParseFormat(n: int)
    requires MIN_INT64 <= n <= MAX_INT64
    ensures ParseInt(FormatInt(n)) == Some(n)
  {
    hide Unsigned, DigitsOf, Decimal.Value, AllDigits, ParseInt;
    var m := if n < 0 then -n else n;
    UnsignedValue(m);
    ParseDigits(Unsigned(m), m);
  }

  /** A sign may be a plus; a number past the 64-bit range, or no digits, is an error. */
  lemma ParseIntEdges(n: nat)
    ensures ParseInt("+" + Unsigned(n)) == if n <= MAX_INT64 then Some(n) else None
    ensures n > MAX_INT64 ==> ParseInt(Unsigned(n)) == None
    ensures n > MAX_INT64 + 1 ==> ParseInt("-" + Unsigned(n)) == None
    ensures ParseInt("") == None && ParseInt("+") == None && ParseInt("-") == None
  {
    UnsignedValue(n);
    ParseDigits(Unsigned(n), n);
    NoDigits();
    hide ParseInt, Unsigned, DigitsOf, Decimal.Value;
  }

  lemma NoDigits()
    ensures ParseInt("") == None && ParseInt("+") == None && ParseInt("-") == None
  {
    assert "+"[1..] == "" && "-"[1..] == "";
  }

  /** In ASCII, white space is tab, newline, vertical tab, form feed, carriage
      return and space. */
  lemma AsciiSpace(c: char)
    requires c < '\U{0080}'
    ensures IsSpace(c) <==> c == '\t' || c == '\n' || c == '\U{000B}' || c == '\U{000C}' || c == '\r' || c == ' '
  {
  }
}
