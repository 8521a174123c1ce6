/** The long device listing: devpaths, connection states, and the backward walk
    that tells a line's key:value tail from its free-text state. */
module DeviceListing {
  import opened Options
  import opened Text

  // ---------------------------------------------------------------------
  // Devpaths
  // ---------------------------------------------------------------------

  const MAX_DEVPATH := 128

  predicate Alnum(c: char) {
    '0' <= c <= '9' || 'A' <= c <= 'Z' || 'a' <= c <= 'z'
  }

  /** usb: then an alphanumeric, then alphanumerics, dots, underscores, dashes. */
  predicate DevpathPattern(s: string) {
    && |s| >= 5
    && s[..4] == "usb:"
    && Alnum(s[4])
    && forall i :: 5 <= i < |s| ==> Alnum(s[i]) || s[i] == '.' || s[i] == '_' || s[i] == '-'
  }

  predicate IsDevpath(s: string) {
    s != "" && |s| <= MAX_DEVPATH && DevpathPattern(s)
  }

  datatype DevpathError = EmptyDevpath | LongDevpath | MalformedDevpath

  function ValidateDevpath(s: string): (err: Option<DevpathError>)
    ensures err.None? <==> IsDevpath(s)
  {
    if s == "" then Some(EmptyDevpath)
    else if |s| > MAX_DEVPATH then Some(LongDevpath)
    else if !DevpathPattern(s) then Some(MalformedDevpath)
    else None
  }

  // ---------------------------------------------------------------------
  // Connection states
  // ---------------------------------------------------------------------

  const VOCABULARY: seq<string> := [
    "device", "offline", "unauthorized", "authorizing", "connecting", "detached", "no_permissions",
    "bootloader", "recovery", "sideload", "rescue", "host", "absent", "unknown"
  ]

  /** unicode.ToLower, as far as it can make or keep an ASCII letter: the only
      others it maps into ASCII are the dotted capital I and the Kelvin sign. */
  function LowerChar(c: char): char {
    if 'A' <= c <= 'Z' then c - 'A' + 'a'
    else if c == '\U{0130}' then 'i'
    else if c == '\U{212A}' then 'k'
    else c
  }

  function Lower(s: string): (t: string)
    ensures |t| == |s|
  {
    seq(|s|, i requires 0 <= i < |s| => LowerChar(s[i]))
  }

  predicate Contains(s: string, sub: string) {
    sub <= s || (s != [] && Contains(s[1..], sub))
  }

  function ParseConnState(raw: string): (state: string)
    ensures state in VOCABULARY
  {
    var s := Lower(TrimSpace(raw));
    if s in VOCABULARY then s
    else if s == "" then VOCABULARY[13]
    else if Contains(s, "permission") then VOCABULARY[6]
    else if "unauthorized" <= s then VOCABULARY[2]
    else if "authorizing" <= s then VOCABULARY[3]
    else if "connecting" <= s then VOCABULARY[4]
    else VOCABULARY[13]
  }

  predicate Plain(s: string) {
    s != "" && forall i :: 0 <= i < |s| ==> 'a' <= s[i] <= 'z' || s[i] == '_'
  }

  lemma PlainStays(s: string)
    requires Plain(s)
    ensures Lower(TrimSpace(s)) == s
  {
    assert !IsSpace(s[0]) && !IsSpace(s[|s| - 1]);
    assert TrimLeft(s) == s && TrimRight(s) == s;
    assert Lower(s) == s;
  }

  lemma PlainParsesToItself(s: string)
    requires Plain(s) && s in VOCABULARY
    ensures ParseConnState(s) == s
  {
    hide Plain, Lower, Contains, Text.TrimSpace;
    PlainStays(s);
  }

  lemma VocabularyIsPlain(i: nat)
    requires i < |VOCABULARY|
    ensures Plain(VOCABULARY[i])
  {
    PlainWaiting();
    PlainBooted();
    hide Plain;
  }

  lemma PlainWaiting()
    ensures Plain("device") && Plain("offline") && Plain("unauthorized") && Plain("authorizing")
    ensures Plain("connecting") && Plain("detached") && Plain("no_permissions")
  {
  }

  lemma PlainBooted()
    ensures Plain("bootloader") && Plain("recovery") && Plain("sideload") && Plain("rescue")
    ensures Plain("host") && Plain("absent") && Plain("unknown")
  {
  }

  /** Each word of the vocabulary parses to itself. */
  lemma VocabularyParsesToItself(s: string)
    requires s in VOCABULARY
    ensures ParseConnState(s) == s
  {
    hide ParseConnState, Plain;
    var i: nat :| i < |VOCABULARY| && VOCABULARY[i] == s;
    VocabularyIsPlain(i);
    PlainParsesToItself(s);
  }

  lemma ParseConnStateIdempotent(raw: string)
    ensures ParseConnState(ParseConnState(raw)) == ParseConnState(raw)
  {
    VocabularyParsesToItself(ParseConnState(raw));
  }

  // ---------------------------------------------------------------------
  // One line, read by what it means
  // ---------------------------------------------------------------------

  datatype Device = Device(
    serial: string, devpath: string, state: string, rawState: string,
    product: string, model: string, codename: string, transportId: int, extra: map<string, string>)

  const NO_SERIAL := "(no serial number)"

  /** The serial column is the sentinel. */
  predicate Anonymous(line: string) {
    NO_SERIAL <= line
  }

  const TAIL_KEYS := {"product", "model", "device", "transport_id"}

  predicate IsExtraKey(k: string) {
    && k != ""
    && 'a' <= k[0] <= 'z'
    && forall i :: 1 <= i < |k| ==> 'a' <= k[i] <= 'z' || '0' <= k[i] <= '9' || k[i] == '_'
  }

  datatype Pair = Pair(key: string, val: string)

  /** A key:value token that is not a devpath, if tok is one. */
  function AsPair(tok: string): Option<Pair> {
    if IsDevpath(tok) then None
    else
      match IndexOf(tok, ':')
      case None => None
      case Some(i) =>
        if tok[..i] in TAIL_KEYS || IsExtraKey(tok[..i]) then Some(Pair(tok[..i], tok[i + 1..])) else None
  }

  predicate IsTail(tok: string) {
    IsDevpath(tok) || AsPair(tok).Some?
  }

  /** Where the longest all-tail suffix begins. */
  function TailStart(rest: seq<string>): (k: nat)
    ensures k <= |rest| && (forall i :: k <= i < |rest| ==> IsTail(rest[i]))
    ensures k > 0 ==> !IsTail(rest[k - 1])
  {
    if rest == [] || !IsTail(rest[|rest| - 1]) then |rest| else TailStart(rest[..|rest| - 1])
  }

  lemma TailStartUnique(rest: seq<string>, k: nat)
    requires k <= |rest| && (forall i :: k <= i < |rest| ==> IsTail(rest[i]))
    requires k > 0 ==> !IsTail(rest[k - 1])
    ensures TailStart(rest) == k
  {
  }

  function FirstDevpath(tail: seq<string>): string {
    if tail == [] then "" else if IsDevpath(tail[0]) then tail[0] else FirstDevpath(tail[1..])
  }

  function FirstValue(tail: seq<string>, key: string): Option<string> {
    if tail == [] then None
    else
      match AsPair(tail[0])
      case Some(Pair(k, v)) => if k == key then Some(v) else FirstValue(tail[1..], key)
      case None => FirstValue(tail[1..], key)
  }

  /** The first transport_id that is a number. */
  function FirstNumber(tail: seq<string>): int {
    if tail == [] then 0
    else
      match AsPair(tail[0])
      case Some(Pair(k, v)) =>
        if k == "transport_id" && ParseInt(v).Some? then ParseInt(v).value else FirstNumber(tail[1..])
      case None => FirstNumber(tail[1..])
  }

  function OrEmpty(v: Option<string>): string {
    if v.Some? then v.value else ""
  }

  /** Every unmodelled key of the tail with its first value. */
  ghost predicate ExtraOf(tail: seq<string>, extra: map<string, string>) {
    forall k :: (k in extra <==> k !in TAIL_KEYS && FirstValue(tail, k).Some?) &&
                (k in extra ==> FirstValue(tail, k) == Some(extra[k]))
  }

  ghost predicate TailReads(tail: seq<string>, d: Device) {
    && d.devpath == FirstDevpath(tail)
    && d.product == OrEmpty(FirstValue(tail, "product"))
    && d.model == OrEmpty(FirstValue(tail, "model"))
    && d.codename == OrEmpty(FirstValue(tail, "device"))
    && d.transportId == FirstNumber(tail)
    && ExtraOf(tail, d.extra)
  }

  /** The tokens after the serial column, or nothing if the line is too short. */
  function AfterSerial(line: string): Option<seq<string>> {
    var fields := Fields(line);
    if Anonymous(line) then if |fields| < 4 then None else Some(fields[3..])
    else if |fields| < 2 then None else Some(fields[1..])
  }

  /** d is what the line says: its state is all that stands before the longest
      tail, and each field is the first of its kind in the tail. */
  ghost predicate Reads(line: string, d: Device) {
    && AfterSerial(line).Some?
    && var rest := AfterSerial(line).value;
    && var k := TailStart(rest);
    && d.serial == (if Anonymous(line) then "" else Fields(line)[0])
    && d.rawState == Join(rest[..k])
    && d.state == ParseConnState(d.rawState)
    && TailReads(rest[k..], d)
  }

  ghost predicate ReadsAs(line: string, d: Option<Device>) {
    if AfterSerial(line).None? then d.None? else d.Some? && Reads(line, d.value)
  }

  lemma FirstDevpathValid(tail: seq<string>)
    ensures FirstDevpath(tail) != "" ==> ValidateDevpath(FirstDevpath(tail)).None?
  {
  }

  /** A recorded devpath is always one that may be addressed. */
  lemma RecordedDevpathValid(line: string, d: Device)
    requires Reads(line, d)
    ensures d.devpath != "" ==> ValidateDevpath(d.devpath).None?
  {
    var rest := AfterSerial(line).value;
    FirstDevpathValid(rest[TailStart(rest)..]);
  }

  /** No token is lost: the serial column, the words of the state and the tail
      are the line's tokens, and the tail is as long as it can be. */
  lemma TokensPartitioned(line: string, d: Device)
    requires Reads(line, d)
    ensures var words, fields := Fields(d.rawState), Fields(line);
            var head := if Anonymous(line) then 3 else 1;
            && head + |words| <= |fields|
            && fields[head..head + |words|] == words
            && (forall i :: head + |words| <= i < |fields| ==> IsTail(fields[i]))
            && (words != [] ==> !IsTail(words[|words| - 1]))
  {
    hide IsTail, TailReads, ParseConnState, Fields, Join;
    var rest := AfterSerial(line).value;
    var k := TailStart(rest);
    FieldsOfJoin(rest[..k]);
  }

  // ---------------------------------------------------------------------
  // The walk
  // ---------------------------------------------------------------------

  const BLANK := Device("", "", "", "", "", "", "", 0, map[])

  lemma {:induction false} ExtraStep(tok: string, tail: seq<string>, extra: map<string, string>)
    requires ExtraOf(tail, extra)
    ensures AsPair(tok).Some? && AsPair(tok).value.key !in TAIL_KEYS ==>
              ExtraOf([tok] + tail, extra[AsPair(tok).value.key := AsPair(tok).value.val])
    ensures AsPair(tok).None? || AsPair(tok).value.key in TAIL_KEYS ==> ExtraOf([tok] + tail, extra)
  {
    hide AsPair, IsDevpath;
    assert ([tok] + tail)[1..] == tail;
  }

  lemma EmptyTail()
    ensures TailReads([], BLANK)
  {
  }

  lemma DevpathStep(tok: string, tail: seq<string>, d: Device)
    requires TailReads(tail, d) && IsDevpath(tok)
    ensures TailReads([tok] + tail, d.(devpath := tok))
  {
    hide IsDevpath, ExtraOf;
    ExtraStep(tok, tail, d.extra);
    assert ([tok] + tail)[1..] == tail;
  }

  lemma KnownStep(tok: string, tail: seq<string>, d: Device)
    requires TailReads(tail, d) && AsPair(tok).Some? && AsPair(tok).value.key in TAIL_KEYS
    ensures var Pair(key, val) := AsPair(tok).value;
            TailReads([tok] + tail,
              if key == "product" then d.(product := val)
              else if key == "model" then d.(model := val)
              else if key == "device" then d.(codename := val)
              else if ParseInt(val).Some? then d.(transportId := ParseInt(val).value)
              else d)
  {
    assert !IsDevpath(tok);
    hide IsDevpath, ExtraOf, AsPair, ParseInt;
    ExtraStep(tok, tail, d.extra);
    assert ([tok] + tail)[1..] == tail;
  }

  lemma OtherStep(tok: string, tail: seq<string>, d: Device)
    requires TailReads(tail, d) && AsPair(tok).Some? && AsPair(tok).value.key !in TAIL_KEYS
    ensures var Pair(key, val) := AsPair(tok).value;
            TailReads([tok] + tail, d.(extra := d.extra[key := val]))
  {
    assert !IsDevpath(tok);
    hide IsDevpath, ExtraOf, AsPair, ParseInt;
    ExtraStep(tok, tail, d.extra);
    assert ([tok] + tail)[1..] == tail;
  }

  lemma TailReadsIgnores(tail: seq<string>, d: Device, serial: string, state: string, raw: string)
    requires TailReads(tail, d)
    ensures TailReads(tail, d.(serial := serial, state := state, rawState := raw))
  {
    hide ExtraOf, FirstDevpath, FirstValue, FirstNumber;
  }

  lemma Classified(tok: string)
    ensures IsDevpath(tok) ==> IsTail(tok)
    ensures !IsDevpath(tok) ==>
              match IndexOf(tok, ':')
              case None => !IsTail(tok)
              case Some(i) =>
                if tok[..i] in TAIL_KEYS || IsExtraKey(tok[..i])
                then IsTail(tok) && AsPair(tok) == Some(Pair(tok[..i], tok[i + 1..]))
                else !IsTail(tok)
  {
  }

  /** Backwards over the tokens it recognises, leftmost of a kind winning. */
  method WalkTail(rest: seq<string>) returns (tailStart: nat, dev: Device)
    ensures tailStart == TailStart(rest)
    ensures TailReads(rest[tailStart..], dev)
  {
    hide IsDevpath, ParseInt, TailReads, IsExtraKey, IsTail, AsPair, TailStart;
    dev := BLANK;
    tailStart := |rest|;
    EmptyTail();
    assert rest[tailStart..] == [];
    while tailStart > 0
      invariant tailStart <= |rest|
      invariant forall i :: tailStart <= i < |rest| ==> IsTail(rest[i])
      invariant TailReads(rest[tailStart..], dev)
    {
      var tok := rest[tailStart - 1];
      assert rest[tailStart - 1..] == [tok] + rest[tailStart..];
      Classified(tok);
      if IsDevpath(tok) {
        DevpathStep(tok, rest[tailStart..], dev);
        dev := dev.(devpath := tok);
        tailStart := tailStart - 1;
        continue;
      }
      var cut := IndexOf(tok, ':');
      if cut.None? {
        break;
      }
      var key, val := tok[..cut.value], tok[cut.value + 1..];
      if key in TAIL_KEYS {
        KnownStep(tok, rest[tailStart..], dev);
        if key == "product" {
          dev := dev.(product := val);
        } else if key == "model" {
          dev := dev.(model := val);
        } else if key == "device" {
          dev := dev.(codename := val);
        } else {
          var n := ParseInt(val);
          if n.Some? {
            dev := dev.(transportId := n.value);
          }
        }
        tailStart := tailStart - 1;
        continue;
      }
      if !IsExtraKey(key) {
        break;
      }
      OtherStep(tok, rest[tailStart..], dev);
      dev := dev.(extra := dev.extra[key := val]);
      tailStart := tailStart - 1;
    }
    TailStartUnique(rest, tailStart);
  }

  method ParseDeviceLine(line: string) returns (d: Option<Device>)
    ensures ReadsAs(line, d)
  {
    hide TailReads, ParseConnState, Text.Fields, Text.Join, TailStart;
    var fields := Fields(line);
    if |fields| < 2 {
      return None;
    }
    var serial, rest := "", fields[1..];
    if Anonymous(line) {
      if |fields| < 4 {
        return None;
      }
      rest := fields[3..];
    } else {
      serial := fields[0];
    }
    var tailStart, dev := WalkTail(rest);
    var raw := Join(rest[..tailStart]);
    TailReadsIgnores(rest[tailStart..], dev, serial, ParseConnState(raw), raw);
    d := Some(dev.(serial := serial, state := ParseConnState(raw), rawState := raw));
  }

  // ---------------------------------------------------------------------
  // Printing a line, and reading it back
  // ---------------------------------------------------------------------

  /** An item of a printed tail: known keys and unmodelled ones alike. */
  datatype Item = Path(p: string) | KeyVal(key: string, val: string)

  function Token(i: Item): string {
    match i
    case Path(p) => p
    case KeyVal(key, val) => key + [':'] + val
  }

  function Tokens(items: seq<Item>): (ts: seq<string>)
    ensures |ts| == |items| && forall i :: 0 <= i < |ts| ==> ts[i] == Token(items[i])
  {
    seq(|items|, i requires 0 <= i < |items| => Token(items[i]))
  }

  predicate Printable(i: Item) {
    match i
    case Path(p) => IsDevpath(p)
    case KeyVal(key, val) => IsExtraKey(key) && SpaceFree(val) && !IsDevpath(Token(i))
  }

  /** At most one devpath, and no key twice. */
  predicate SameSlot(a: Item, b: Item) {
    (a.Path? && b.Path?) || (a.KeyVal? && b.KeyVal? && a.key == b.key)
  }

  predicate GoodTail(items: seq<Item>) {
    && (forall i :: 0 <= i < |items| ==> Printable(items[i]))
    && (forall i, j :: 0 <= i < j < |items| ==> !SameSlot(items[i], items[j]))
  }

  lemma DevpathIsWord(s: string)
    requires IsDevpath(s)
    ensures IsWord(s)
  {
    forall i | 0 <= i < |s|
      ensures !IsSpace(s[i])
    {
      if i < 4 {
        assert s[i] == s[..4][i];
      }
    }
  }

  lemma KeyHasNoColon(key: string)
    requires IsExtraKey(key)
    ensures ':' !in key && SpaceFree(key)
  {
  }

  lemma TokenReads(i: Item)
    requires Printable(i)
    ensures IsWord(Token(i)) && IsTail(Token(i)) && IsDevpath(Token(i)) == i.Path?
    ensures AsPair(Token(i)) == if i.Path? then None else Some(Pair(i.key, i.val))
  {
    if i.Path? {
      DevpathIsWord(i.p);
      hide IsDevpath, IsWord;
    } else {
      hide IsDevpath;
      PairIsWord(i.key, i.val);
      KeyHasNoColon(i.key);
      hide IsWord, SpaceFree, IsExtraKey;
      IndexOfCut(i.key, ':', i.val);
    }
  }

  lemma PairIsWord(key: string, val: string)
    requires IsExtraKey(key) && SpaceFree(val)
    ensures IsWord(key + [':'] + val)
  {
    KeyHasNoColon(key);
    hide IsExtraKey;
  }

  lemma GoodRest(items: seq<Item>)
    requires GoodTail(items) && items != []
    ensures GoodTail(items[1..]) && Tokens(items)[1..] == Tokens(items[1..])
  {
  }

  lemma {:induction false} DevpathBack(items: seq<Item>)
    requires GoodTail(items)
    ensures forall i :: 0 <= i < |items| && items[i].Path? ==> FirstDevpath(Tokens(items)) == items[i].p
    ensures (forall i :: 0 <= i < |items| ==> !items[i].Path?) ==> FirstDevpath(Tokens(items)) == ""
    decreases |items|
  {
    if items != [] {
      GoodRest(items);
      TokenReads(items[0]);
      DevpathBack(items[1..]);
      hide IsDevpath, Printable;
      forall i | 0 <= i < |items| && items[i].Path?
        ensures FirstDevpath(Tokens(items)) == items[i].p
      {
        if i > 0 {
          assert items[1..][i - 1] == items[i] && !SameSlot(items[0], items[i]);
        }
      }
    }
  }

  predicate Keeps(items: seq<Item>, key: string) {
    exists i :: 0 <= i < |items| && items[i].KeyVal? && items[i].key == key
  }

  lemma KeepsRest(items: seq<Item>, key: string)
    requires items != []
    ensures Keeps(items[1..], key) ==> Keeps(items, key)
  {
    if Keeps(items[1..], key) {
      var i :| 0 <= i < |items[1..]| && items[1..][i].KeyVal? && items[1..][i].key == key;
      assert items[i + 1] == items[1..][i];
    }
  }

  lemma {:induction false} ValueBack(items: seq<Item>, key: string)
    requires GoodTail(items)
    ensures forall i :: 0 <= i < |items| && items[i].KeyVal? && items[i].key == key ==>
              FirstValue(Tokens(items), key) == Some(items[i].val)
    ensures !Keeps(items, key) ==> FirstValue(Tokens(items), key) == None
    decreases |items|
  {
    if items != [] {
      GoodRest(items);
      TokenReads(items[0]);
      ValueBack(items[1..], key);
      hide IsDevpath, Printable, AsPair;
      forall i | 0 <= i < |items| && items[i].KeyVal? && items[i].key == key
        ensures FirstValue(Tokens(items), key) == Some(items[i].val)
      {
        if i > 0 {
          assert items[1..][i - 1] == items[i] && !SameSlot(items[0], items[i]);
        }
      }
      KeepsRest(items, key);
    }
  }

  lemma {:induction false} NumberBack(items: seq<Item>)
    requires GoodTail(items)
    ensures forall i, n ::
              0 <= i < |items| && items[i] == KeyVal("transport_id", FormatInt(n)) && MIN_INT64 <= n <= MAX_INT64 ==>
              FirstNumber(Tokens(items)) == n
    ensures !Keeps(items, "transport_id") ==> FirstNumber(Tokens(items)) == 0
    decreases |items|
  {
    if items != [] {
      GoodRest(items);
      TokenReads(items[0]);
      NumberBack(items[1..]);
      hide IsDevpath, Printable, AsPair, ParseInt, FormatInt;
      forall i, n | 0 <= i < |items| && items[i] == KeyVal("transport_id", FormatInt(n)) && MIN_INT64 <= n <= MAX_INT64
        ensures FirstNumber(Tokens(items)) == n
      {
        ParseFormat(n);
        if i > 0 {
          assert items[1..][i - 1] == items[i] && !SameSlot(items[0], items[i]);
        }
      }
      KeepsRest(items, "transport_id");
    }
  }

  /** The device holds exactly what the items say. */
  ghost predicate Holds(items: seq<Item>, d: Device) {
    && (forall i :: 0 <= i < |items| && items[i].Path? ==> d.devpath == items[i].p)
    && ((forall i :: 0 <= i < |items| ==> !items[i].Path?) ==> d.devpath == "")
    && (forall i :: 0 <= i < |items| && items[i].KeyVal? ==> HoldsPair(items[i].key, items[i].val, d))
    && (!Keeps(items, "product") ==> d.product == "")
    && (!Keeps(items, "model") ==> d.model == "")
    && (!Keeps(items, "device") ==> d.codename == "")
    && (!Keeps(items, "transport_id") ==> d.transportId == 0)
    && (forall k :: k in d.extra ==> Keeps(items, k) && k !in TAIL_KEYS)
  }

  ghost predicate HoldsPair(key: string, val: string, d: Device) {
    && (key == "product" ==> d.product == val)
    && (key == "model" ==> d.model == val)
    && (key == "device" ==> d.codename == val)
    && (key == "transport_id" ==> forall n :: MIN_INT64 <= n <= MAX_INT64 && val == FormatInt(n) ==> d.transportId == n)
    && (key !in TAIL_KEYS ==> key in d.extra && d.extra[key] == val)
  }

  lemma PairBack(items: seq<Item>, d: Device, i: nat)
    requires GoodTail(items) && TailReads(Tokens(items), d) && i < |items| && items[i].KeyVal?
    ensures HoldsPair(items[i].key, items[i].val, d)
  {
    hide FirstDevpath, FirstNumber, FirstValue, GoodTail, FormatInt;
    var key, val := items[i].key, items[i].val;
    ValueBack(items, key);
    if key == "transport_id" {
      NumberBack(items);
      forall n | MIN_INT64 <= n <= MAX_INT64 && val == FormatInt(n)
        ensures d.transportId == n
      {
        assert items[i] == KeyVal("transport_id", FormatInt(n));
      }
    }
  }

  lemma TailBack(items: seq<Item>, d: Device)
    requires GoodTail(items) && TailReads(Tokens(items), d)
    ensures Holds(items, d)
  {
    hide FirstDevpath, FirstNumber, FirstValue, GoodTail, HoldsPair, Keeps;
    DevpathBack(items);
    NumberBack(items);
    ValueBack(items, "product");
    ValueBack(items, "model");
    ValueBack(items, "device");
    forall i | 0 <= i < |items| && items[i].KeyVal?
      ensures HoldsPair(items[i].key, items[i].val, d)
    {
      PairBack(items, d, i);
    }
    forall k | k in d.extra
      ensures Keeps(items, k) && k !in TAIL_KEYS
    {
      ValueBack(items, k);
    }
  }

  function SerialColumn(serial: Option<string>): (column: seq<string>)
    ensures |column| == if serial.Some? then 1 else 3
  {
    if serial.Some? then [serial.value] else ["(no", "serial", "number)"]
  }

  /** A line printed from a serial or the sentinel, state words and tail items,
      with any spacing between the columns. */
  ghost predicate Prints(serial: Option<string>, words: seq<string>, items: seq<Item>, gaps: seq<string>,
                         line: string) {
    var tokens := SerialColumn(serial) + words + Tokens(items);
    && AllWords(words) && GoodTail(items)
    && (serial.Some? ==> IsWord(serial.value))
    && (Anonymous(line) <==> serial.None?)
    && |gaps| == |tokens| && Gaps(gaps)
    && line == Spread(gaps, tokens)
  }

  lemma SerialWords(serial: Option<string>)
    requires serial.Some? ==> IsWord(serial.value)
    ensures AllWords(SerialColumn(serial))
  {
    assert IsWord("(no") && IsWord("serial") && IsWord("number)");
    hide IsWord;
  }

  lemma TokenWords(items: seq<Item>)
    requires GoodTail(items)
    ensures AllWords(Tokens(items))
  {
    hide Printable, Token, IsWord;
    forall i | 0 <= i < |items|
      ensures IsWord(Tokens(items)[i])
    {
      TokenReads(items[i]);
    }
  }

  lemma WordsConcat(a: seq<string>, b: seq<string>, c: seq<string>)
    requires AllWords(a) && AllWords(b) && AllWords(c)
    ensures AllWords(a + b + c)
  {
    hide IsWord;
  }

  lemma PrintedWords(serial: Option<string>, words: seq<string>, items: seq<Item>)
    requires AllWords(words) && GoodTail(items) && (serial.Some? ==> IsWord(serial.value))
    ensures AllWords(SerialColumn(serial) + words + Tokens(items))
  {
    hide AllWords, IsWord, GoodTail;
    SerialWords(serial);
    TokenWords(items);
    WordsConcat(SerialColumn(serial), words, Tokens(items));
  }

  lemma PrintedFields(serial: Option<string>, words: seq<string>, items: seq<Item>, gaps: seq<string>, line: string)
    requires Prints(serial, words, items, gaps, line)
    ensures Fields(line) == SerialColumn(serial) + words + Tokens(items)
  {
    hide Text.Fields, Text.Spread, Text.Gaps, AllWords, GoodTail, IsWord, SerialColumn;
    var tokens := SerialColumn(serial) + words + Tokens(items);
    PrintedWords(serial, words, items);
    EmptyIsBlank();
    FieldsOfSpread(gaps, tokens, "");
    assert Spread(gaps, tokens) + "" == line;
  }

  lemma PrintedTokens(serial: Option<string>, words: seq<string>, items: seq<Item>, gaps: seq<string>, line: string)
    requires Prints(serial, words, items, gaps, line)
    ensures Fields(line) == SerialColumn(serial) + words + Tokens(items)
    ensures AfterSerial(line) == if words == [] && items == [] then None else Some(words + Tokens(items))
  {
    hide Text.Fields, SerialColumn, Anonymous, Prints, Tokens;
    PrintedFields(serial, words, items, gaps, line);
    PrintsSentinel(serial, words, items, gaps, line);
    RestOf(SerialColumn(serial), words, Tokens(items));
  }

  lemma RestOf(column: seq<string>, words: seq<string>, tokens: seq<string>)
    ensures (column + words + tokens)[|column|..] == words + tokens
  {
  }

  lemma PrintsSentinel(serial: Option<string>, words: seq<string>, items: seq<Item>, gaps: seq<string>, line: string)
    requires Prints(serial, words, items, gaps, line)
    ensures Anonymous(line) <==> serial.None?
  {
    hide Anonymous, GoodTail, AllWords, IsWord, Text.Gaps, Text.Spread;
  }

  lemma EmptyIsBlank()
    ensures Blank("")
  {
  }

  /** A printed line parses back to its fields, provided its last state word is
      not itself a tail token. */
  lemma LineRoundTrip(serial: Option<string>, words: seq<string>, items: seq<Item>, gaps: seq<string>, line: string,
                      d: Option<Device>)
    requires Prints(serial, words, items, gaps, line) && ReadsAs(line, d)
    ensures d.None? <==> words == [] && items == []
    ensures d.Some? && (words == [] || !IsTail(words[|words| - 1])) ==>
              && d.value.serial == OrEmpty(serial)
              && d.value.rawState == Join(words)
              && d.value.state == ParseConnState(Join(words))
              && Holds(items, d.value)
  {
    PrintedTokens(serial, words, items, gaps, line);
    if d.Some? && (words == [] || !IsTail(words[|words| - 1])) {
      var rest := words + Tokens(items);
      TailIsItems(words, items);
      hide Text.Fields, Text.Join, ParseConnState, IsTail, TailReads, Holds, AllWords, Prints, GoodTail, Spread;
      assert rest[..|words|] == words && rest[|words|..] == Tokens(items);
      TailBack(items, d.value);
    }
  }

  lemma TailIsItems(words: seq<string>, items: seq<Item>)
    requires GoodTail(items) && (words == [] || !IsTail(words[|words| - 1]))
    ensures TailStart(words + Tokens(items)) == |words|
  {
    hide IsTail, Printable, Token;
    var rest := words + Tokens(items);
    forall i | |words| <= i < |rest|
      ensures IsTail(rest[i])
    {
      TokenReads(items[i - |words|]);
    }
    TailStartUnique(rest, |words|);
  }

  /** The proviso is exact: a last state word that looks like a tail token is
      taken for one, and the state loses it. */
  lemma StateKeptIff(serial: Option<string>, words: seq<string>, items: seq<Item>, gaps: seq<string>, line: string,
                     d: Device)
    requires Prints(serial, words, items, gaps, line) && Reads(line, d)
    ensures d.rawState == Join(words) <==> words == [] || !IsTail(words[|words| - 1])
  {
    hide Text.Fields, Text.Join, IsTail, GoodTail, TailStart, Reads, ReadsAs, Prints, Holds, Tokens, AfterSerial,
         AllWords,
         ParseConnState;
    ReadsHas(line, d);
    PrintsWords(serial, words, items, gaps, line);
    LineRoundTrip(serial, words, items, gaps, line, Some(d));
    if words != [] && IsTail(words[|words| - 1]) {
      PrintedTokens(serial, words, items, gaps, line);
      var rest := words + Tokens(items);
      var k := TailStart(rest);
      StateOf(line, rest, d);
      LostWord(words, items);
      assert rest[..k] == words[..k];
      ShorterState(words, k);
    }
  }

  lemma ReadsHas(line: string, d: Device)
    requires Reads(line, d)
    ensures AfterSerial(line).Some? && ReadsAs(line, Some(d))
  {
    hide AfterSerial, TailReads, TailStart, Text.Join;
  }

  lemma PrintsWords(serial: Option<string>, words: seq<string>, items: seq<Item>, gaps: seq<string>, line: string)
    requires Prints(serial, words, items, gaps, line)
    ensures AllWords(words) && GoodTail(items)
  {
  }

  lemma StateOf(line: string, rest: seq<string>, d: Device)
    requires Reads(line, d) && AfterSerial(line) == Some(rest)
    ensures d.rawState == Join(rest[..TailStart(rest)])
  {
    hide AfterSerial, Text.Join, TailStart, TailReads, ParseConnState;
  }

  lemma ShorterState(words: seq<string>, k: nat)
    requires AllWords(words) && k < |words|
    ensures Join(words[..k]) != Join(words)
  {
    hide Text.Join, Text.Fields;
    FieldsOfJoin(words[..k]);
    FieldsOfJoin(words);
  }

  lemma LostWord(words: seq<string>, items: seq<Item>)
    requires GoodTail(items) && words != [] && IsTail(words[|words| - 1])
    ensures TailStart(words + Tokens(items)) < |words|
  {
    hide IsTail, Printable, Token;
    var rest := words + Tokens(items);
    forall i | |words| - 1 <= i < |rest|
      ensures IsTail(rest[i])
    {
      if i >= |words| {
        TokenReads(items[i - |words|]);
      }
    }
  }

  /** A serial survives unless its line happens to open with the sentinel. */
  lemma SerialKeptIff(serial: string, words: seq<string>, items: seq<Item>, gaps: seq<string>, line: string, d: Device)
    requires IsWord(serial) && AllWords(words) && GoodTail(items)
    requires |gaps| == 1 + |words| + |items| && Gaps(gaps)
    requires line == Spread(gaps, [serial] + words + Tokens(items)) && Reads(line, d)
    ensures d.serial == serial <==> !Anonymous(line)
  {
    hide Text.Fields, Text.Spread, Text.Gaps, AllWords, GoodTail, TailReads, ParseConnState, TailStart, Text.Join;
    var tokens := [serial] + words + Tokens(items);
    PrintedWords(Some(serial), words, items);
    EmptyIsBlank();
    FieldsOfSpread(gaps, tokens, "");
    assert Spread(gaps, tokens) + "" == line;
  }

  lemma {:induction false} TailHasDevice(tail: seq<string>) returns (d: Device)
    requires forall i :: 0 <= i < |tail| ==> IsTail(tail[i])
    ensures TailReads(tail, d)
    decreases |tail|
  {
    hide IsDevpath, IsExtraKey, ParseInt, TailReads, AsPair;
    if tail == [] {
      EmptyTail();
      d := BLANK;
    } else {
      var tok, rest := tail[0], tail[1..];
      assert tail == [tok] + rest;
      d := TailHasDevice(rest);
      Classified(tok);
      if IsDevpath(tok) {
        DevpathStep(tok, rest, d);
        d := d.(devpath := tok);
      } else {
        var Pair(key, val) := AsPair(tok).value;
        if key in TAIL_KEYS {
          KnownStep(tok, rest, d);
          d := if key == "product" then d.(product := val)
               else if key == "model" then d.(model := val)
               else if key == "device" then d.(codename := val)
               else if ParseInt(val).Some? then d.(transportId := ParseInt(val).value)
               else d;
        } else {
          OtherStep(tok, rest, d);
          d := d.(extra := d.extra[key := val]);
        }
      }
    }
  }

  /** Every line with something after its serial column is a device. */
  lemma LineHasDevice(line: string) returns (d: Device)
    requires AfterSerial(line).Some?
    ensures Reads(line, d)
  {
    hide TailReads, ParseConnState, Text.Fields, Text.Join, Anonymous, IsTail;
    var rest := AfterSerial(line).value;
    var k := TailStart(rest);
    var t := TailHasDevice(rest[k..]);
    var raw := Join(rest[..k]);
    var serial := if Anonymous(line) then "" else Fields(line)[0];
    TailReadsIgnores(rest[k..], t, serial, ParseConnState(raw), raw);
    d := t.(serial := serial, state := ParseConnState(raw), rawState := raw);
  }

  const COLLISION := ["(no", "serial", "number)", "device"]
  const ONE_SPACE := ["", " ", " ", " "]

  lemma CollisionOpensWithSentinel()
    ensures Anonymous(Spread(ONE_SPACE, COLLISION))
  {
    calc {
      Spread(ONE_SPACE, COLLISION);
      "" + "(no" + Spread([" ", " ", " "], ["serial", "number)", "device"]);
      "" + "(no" + (" " + "serial" + Spread([" ", " "], ["number)", "device"]));
      "" + "(no" + (" " + "serial" + (" " + "number)" + Spread([" "], ["device"])));
      NO_SERIAL + Spread([" "], ["device"]);
    }
  }

  lemma CollisionTokens()
    ensures Fields(Spread(ONE_SPACE, COLLISION)) == COLLISION
  {
    assert IsWord("(no") && IsWord("serial") && IsWord("number)") && IsWord("device");
    hide Text.Fields, Text.Spread, IsWord;
    EmptyIsBlank();
    FieldsOfSpread(ONE_SPACE, COLLISION, "");
    assert Spread(ONE_SPACE, COLLISION) + "" == Spread(ONE_SPACE, COLLISION);
  }

  /** Such a line: the serial "(no" in front of a state that goes on like the
      sentinel. It is a device, and its serial is lost. */
  lemma SentinelCollision() returns (d: Device)
    ensures var line := Spread(ONE_SPACE, ["(no"] + ["serial", "number)", "device"]);
            && Reads(line, d)
            && forall e :: Reads(line, e) ==> e.serial == "" != "(no" && e.rawState == "device"
  {
    CollisionOpensWithSentinel();
    CollisionTokens();
    assert ["(no"] + ["serial", "number)", "device"] == COLLISION;
    BareWordIsState();
    hide Text.Fields, Text.Spread, Anonymous, ParseConnState, TailReads, IsTail, TailStart;
    var line := Spread(ONE_SPACE, COLLISION);
    assert AfterSerial(line) == Some(["device"]);
    assert ["device"][..1] == ["device"];
    d := LineHasDevice(line);
  }

  lemma BareWordIsState()
    ensures TailStart(["device"]) == 1
  {
    assert ':' !in "device";
    assert IndexOf("device", ':').None?;
    assert !IsDevpath("device");
  }

  lemma SeeIsTail()
    ensures IsTail("see:x")
  {
    IndexOfCut("see", ':', "x");
    assert "see" + [':'] + "x" == "see:x";
    assert IsExtraKey("see");
  }

  /** And a lost state: "no see:x" ends in what reads as a key, so only "no" is
      left of it. */
  lemma StateSwallowed() returns (d: Device)
    ensures var line := Spread(["", " ", " "], ["S"] + ["no", "see:x"]);
            && Reads(line, d)
            && forall e :: Reads(line, e) ==> e.rawState != Join(["no", "see:x"])
  {
    var gaps, words := ["", " ", " "], ["no", "see:x"];
    var tokens := SerialColumn(Some("S")) + words + Tokens([]);
    assert tokens == ["S"] + words;
    var line := Spread(gaps, tokens);
    assert line[0] == 'S' by { assert line == "" + "S" + Spread(gaps[1..], tokens[1..]); }
    assert IsWord("S") && IsWord("no") && IsWord("see:x");
    assert Gaps(gaps) by { assert Blank("") && Blank(" "); }
    SeeIsTail();
    hide Text.Spread, IsTail, Text.Fields, Text.Join, TailReads, ParseConnState, IsWord, Text.Gaps;
    assert Prints(Some("S"), words, [], gaps, line);
    PrintedTokens(Some("S"), words, [], gaps, line);
    d := LineHasDevice(line);
    forall e | Reads(line, e)
      ensures e.rawState != Join(words)
    {
      StateKeptIff(Some("S"), words, [], gaps, line, e);
    }
  }

  // ---------------------------------------------------------------------
  // The whole listing
  // ---------------------------------------------------------------------

  /** strings.Split(payload, newline). */
  function Lines(payload: string): (ls: seq<string>)
    ensures ls != []
    decreases |payload|
  {
    match IndexOf(payload, '\n')
    case None => [payload]
    case Some(i) => [payload[..i]] + Lines(payload[i + 1..])
  }

  function JoinLines(ls: seq<string>): string {
    if |ls| == 0 then "" else if |ls| == 1 then ls[0] else ls[0] + ['\n'] + JoinLines(ls[1..])
  }

  /** Any listing is its lines, and lines without newlines come back as they were. */
  lemma {:induction false} LinesBack(ls: seq<string>)
    requires ls != [] && forall i :: 0 <= i < |ls| ==> '\n' !in ls[i]
    ensures Lines(JoinLines(ls)) == ls
  {
    if |ls| > 1 {
      IndexOfCut(ls[0], '\n', JoinLines(ls[1..]));
      LinesBack(ls[1..]);
    }
  }

  /** Blank lines and the daemon's announcements are not devices. */
  predicate Skipped(line: string) {
    line == "" || line[0] == '*'
  }

  /** The devices are those of the lines that have one, in the listing's order. */
  ghost predicate ListReads(lines: seq<string>, out: seq<Device>) {
    if lines == [] then out == []
    else
      var k := |lines| - 1;
      var line := TrimSpace(lines[k]);
      if Skipped(line) || AfterSerial(line).None? then ListReads(lines[..k], out)
      else out != [] && Reads(line, out[|out| - 1]) && ListReads(lines[..k], out[..|out| - 1])
  }

  method ParseDeviceList(payload: string) returns (out: seq<Device>)
    ensures ListReads(Lines(payload), out)
  {
    hide Reads, Skipped, AfterSerial, Lines, Text.TrimSpace;
    var lines := Lines(payload);
    out := [];
    for i := 0 to |lines|
      invariant ListReads(lines[..i], out)
    {
      assert lines[..i + 1][..i] == lines[..i];
      var line := TrimSpace(lines[i]);
      if Skipped(line) {
        continue;
      }
      var d := ParseDeviceLine(line);
      if d.None? {
        continue;
      }
      assert (out + [d.value])[..|out|] == out;
      out := out + [d.value];
    }
    assert lines[..|lines|] == lines;
  }

  /** Reading is a function of the line: two devices read from one are equal. */
  lemma ReadsOnce(line: string, d: Device, e: Device)
    requires Reads(line, d) && Reads(line, e)
    ensures d == e
  {
    hide Text.Fields, TailStart, FirstValue, FirstNumber, FirstDevpath, Text.Join, ParseConnState;
    var rest := AfterSerial(line).value;
    ExtraUnique(rest[TailStart(rest)..], d.extra, e.extra);
  }

  lemma ExtraUnique(tail: seq<string>, a: map<string, string>, b: map<string, string>)
    requires ExtraOf(tail, a) && ExtraOf(tail, b)
    ensures a == b
  {
    hide FirstValue;
    assert forall k :: k in a <==> k in b;
  }

  // ---------------------------------------------------------------------
  // Printing a listing, and reading it back
  // ---------------------------------------------------------------------

  /** A printed line and the white space around it: none, a margin, a carriage
      return. */
  datatype Entry = Entry(
    serial: Option<string>, words: seq<string>, items: seq<Item>, gaps: seq<string>,
    before: string, line: string, after: string)

  function RawLine(e: Entry): string {
    e.before + e.line + e.after
  }

  ghost predicate EntryOk(e: Entry) {
    && Prints(e.serial, e.words, e.items, e.gaps, e.line)
    && e.gaps[0] == "" && (e.words != [] || e.items != [])
    && (e.words == [] || !IsTail(e.words[|e.words| - 1]))
    && Blank(e.before) && Blank(e.after) && '\n' !in RawLine(e)
  }

  /** A serial that makes its line look like an announcement. */
  predicate Starred(e: Entry) {
    e.serial.Some? && e.serial.value != "" && e.serial.value[0] == '*'
  }

  /** The entries a listing does not take for announcements, in order. */
  function Unstarred(es: seq<Entry>): seq<Entry> {
    if es == [] then []
    else Unstarred(es[..|es| - 1]) + if Starred(es[|es| - 1]) then [] else [es[|es| - 1]]
  }

  /** The device the entry was printed from. */
  ghost predicate Came(e: Entry, d: Device) {
    && d.serial == OrEmpty(e.serial)
    && d.rawState == Join(e.words)
    && d.state == ParseConnState(Join(e.words))
    && Holds(e.items, d)
  }

  lemma EntryTrimmed(e: Entry)
    requires EntryOk(e)
    ensures TrimSpace(RawLine(e)) == e.line && (Skipped(e.line) <==> Starred(e))
  {
    hide GoodTail, Text.Spread, Text.Gaps, IsTail, TrimSpace, AllWords, IsWord, IsSpace, Anonymous, SerialColumn,
         Tokens;
    var tokens := SerialColumn(e.serial) + e.words + Tokens(e.items);
    PrintedWords(e.serial, e.words, e.items);
    SpreadEnds(e.gaps, tokens);
    WordsEnd(tokens);
    SerialFirst(e.serial);
    assert tokens[0] == SerialColumn(e.serial)[0];
    PaddingIgnored(e.before, e.line, e.after);
  }

  lemma WordsEnd(ws: seq<string>)
    requires AllWords(ws) && ws != []
    ensures var last := ws[|ws| - 1];
            ws[0] != "" && last != "" && !IsSpace(ws[0][0]) && !IsSpace(last[|last| - 1])
  {
    assert IsWord(ws[0]) && IsWord(ws[|ws| - 1]);
  }

  lemma SerialFirst(serial: Option<string>)
    requires serial.Some? ==> IsWord(serial.value)
    ensures var column := SerialColumn(serial);
            column[0] != "" && column[0][0] == if serial.Some? then serial.value[0] else '('
    ensures serial.Some? ==> serial.value != ""
  {
  }

  lemma EntryIsDevice(e: Entry)
    requires EntryOk(e)
    ensures AfterSerial(e.line).Some?
  {
    hide AfterSerial, Text.Fields, GoodTail, IsTail;
    PrintedTokens(e.serial, e.words, e.items, e.gaps, e.line);
  }

  lemma EntryReads(e: Entry, d: Device)
    requires EntryOk(e) && Reads(e.line, d)
    ensures Came(e, d)
  {
    EntryIsDevice(e);
    hide Prints, Reads, AfterSerial, Holds, IsTail, GoodTail;
    LineRoundTrip(e.serial, e.words, e.items, e.gaps, e.line, Some(d));
  }

  lemma {:induction false} EntriesReadBack(es: seq<Entry>, lines: seq<string>, out: seq<Device>)
    requires |lines| == |es| && forall i :: 0 <= i < |es| ==> EntryOk(es[i]) && lines[i] == RawLine(es[i])
    requires ListReads(lines, out)
    ensures |out| == |Unstarred(es)| && forall i :: 0 <= i < |out| ==> Came(Unstarred(es)[i], out[i])
    decreases |es|
  {
    hide EntryOk, Came, Reads, AfterSerial, Skipped, TrimSpace, RawLine, Starred;
    if es != [] {
      var k := |es| - 1;
      EntryTrimmed(es[k]);
      EntryIsDevice(es[k]);
      if Starred(es[k]) {
        EntriesReadBack(es[..k], lines[..k], out);
      } else {
        EntriesReadBack(es[..k], lines[..k], out[..|out| - 1]);
        EntryReads(es[k], out[|out| - 1]);
      }
    }
  }

  function RawLines(es: seq<Entry>): (ls: seq<string>)
    ensures |ls| == |es|
  {
    seq(|es|, i requires 0 <= i < |es| => RawLine(es[i]))
  }

  /** A whole listing, with or without carriage returns and margins, is read back
      as exactly the devices it was printed from, in order, but for those whose
      serial starts with an asterisk, which are all dropped. */
  lemma ListingRoundTrip(es: seq<Entry>, out: seq<Device>)
    requires es != [] && forall i :: 0 <= i < |es| ==> EntryOk(es[i])
    requires ListReads(Lines(JoinLines(RawLines(es))), out)
    ensures |out| == |Unstarred(es)| && forall i :: 0 <= i < |out| ==> Came(Unstarred(es)[i], out[i])
  {
    hide Came, Prints, ListReads, Lines, JoinLines, IsTail, RawLine;
    var lines := RawLines(es);
    LinesBack(lines);
    EntriesReadBack(es, lines, out);
  }

  /** The listing comes back whole exactly when no serial starts with an asterisk. */
  lemma {:induction false} ListedWholeIff(es: seq<Entry>)
    ensures |Unstarred(es)| <= |es|
    ensures |Unstarred(es)| == |es| <==> forall i :: 0 <= i < |es| ==> !Starred(es[i])
    ensures (forall i :: 0 <= i < |es| ==> !Starred(es[i])) ==> Unstarred(es) == es
    decreases |es|
  {
    hide Starred;
    if es != [] {
      var k := |es| - 1;
      ListedWholeIff(es[..k]);
      assert forall i :: 0 <= i < k ==> es[..k][i] == es[i];
      assert es == es[..k] + [es[k]];
    }
  }

  const STARRED := "*x device"

  lemma StarredFields()
    ensures Fields(STARRED) == ["*x", "device"]
  {
    assert IsWord("*x") && IsWord("device") && Gaps(["", " "]);
    assert Spread(["", " "], ["*x", "device"]) == "" + "*x" + (" " + "device" + []);
    hide Text.Fields, Text.Spread, IsWord, Text.Gaps;
    EmptyIsBlank();
    FieldsOfSpread(["", " "], ["*x", "device"], "");
    assert Spread(["", " "], ["*x", "device"]) + "" == STARRED;
  }

  lemma StarredTrimmed()
    ensures TrimSpace(STARRED) == STARRED && Skipped(STARRED) && !Anonymous(STARRED)
  {
    hide TrimSpace;
    EmptyIsBlank();
    PaddingIgnored("", STARRED, "");
    assert "" + STARRED + "" == STARRED;
    assert STARRED[0] != NO_SERIAL[0];
  }

  /** Such a device: its line has a reading, and the listing has no device. */
  lemma StarredIsDropped(out: seq<Device>) returns (d: Device)
    requires ListReads([STARRED], out)
    ensures Reads(STARRED, d) && out == []
  {
    StarredFields();
    StarredTrimmed();
    hide Text.Fields, TrimSpace, Reads, Anonymous, Skipped;
    d := LineHasDevice(STARRED);
    assert [STARRED][..0] == [];
  }
}
