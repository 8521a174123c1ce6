/** How each request must end, read off the peer's stream alone: what a reply of
    the grammar gets, and what every other stream gets. */
module SyncVerdict {
  import opened Bytes
  import opened Io
  import opened SyncWire

  datatype Outcome =
    | Finished      // nil
    | BadUsage      // refused before anything was written
    | WireFailed    // the socket, or the context bounding it, ended the request
    | Canceled      // the context had ended at a chunk boundary
    | SourceBroke
    | SinkBroke
    | BadFrame      // the peer is not speaking the protocol
    | Refused       // a FAIL
    | NotThere      // a listing of nothing at all, the answer for no such directory
    | RefusedAbsent // a FAIL that says there is no such directory

  // ---------------------------------------------------------------------
  // Refusal texts
  // ---------------------------------------------------------------------

  function Ascii(s: string): bytes {
    seq(|s|, i requires 0 <= i < |s| => if s[i] as int < 128 then s[i] as int else 0)
  }

  /** strings.ToLower of UTF-8 text, as far as it can make or keep an ASCII
      letter: besides A to Z, only the dotted capital I and the Kelvin sign
      become one. Neither's encoding can overlap another character's. */
  function Lower(s: bytes): bytes {
    if s == [] then []
    else if DOTTED_I <= s then [105] + Lower(s[|DOTTED_I|..])
    else if KELVIN <= s then [107] + Lower(s[|KELVIN|..])
    else [if 65 <= s[0] <= 90 then s[0] as int + 32 else s[0]] + Lower(s[1..])
  }

  const DOTTED_I: bytes := [0xC4, 0xB0]
  const KELVIN: bytes := [0xE2, 0x84, 0xAA]

  predicate Contains(s: bytes, part: bytes) {
    exists i :: 0 <= i <= |s| && part <= s[i..]
  }

  predicate AbsentReason(reason: bytes) {
    Contains(Lower(reason), Ascii("no such file or directory")) || Contains(Lower(reason), Ascii("not a directory"))
  }

  // ---------------------------------------------------------------------
  // Verdicts
  // ---------------------------------------------------------------------

  /** After a FAIL that announces a reason of n bytes. */
  function FailVerdict(s: bytes, n: u32): Outcome {
    if n > DATA_MAX then BadFrame else if n > |s| then WireFailed else Refused
  }

  function SendVerdict(s: bytes): Outcome {
    if |s| < HEADER_LEN then WireFailed
    else if IdOf(s) == OKAY then Finished
    else if IdOf(s) == FAIL then FailVerdict(s[HEADER_LEN..], WordOf(s))
    else BadFrame
  }

  function StatVerdict(s: bytes): Outcome {
    if |s| < HEADER_LEN then WireFailed
    else if IdOf(s) == FAIL then FailVerdict(s[HEADER_LEN..], WordOf(s))
    else if IdOf(s) != STAT then BadFrame
    else if |s| < HEADER_LEN + 8 then WireFailed
    else Finished
  }

  function PullVerdict(s: bytes): Outcome
    decreases |s|
  {
    if |s| < HEADER_LEN then WireFailed
    else if IdOf(s) == DATA then
      if WordOf(s) > DATA_MAX then BadFrame
      else if HEADER_LEN + WordOf(s) > |s| then WireFailed
      else PullVerdict(s[HEADER_LEN + WordOf(s)..])
    else if IdOf(s) == DONE then Finished
    else if IdOf(s) == FAIL then FailVerdict(s[HEADER_LEN..], WordOf(s))
    else BadFrame
  }

  /** The third word of a dent's tail is the length of the name after it. */
  function NameLen(t: bytes): u32
    requires |t| >= 12
  {
    GetU32(t[8..12])
  }

  /** What follows a DENT's header. */
  function DentVerdict(t: bytes): (v: Outcome)
    ensures v == Finished ==> |t| >= 12 && 12 + NameLen(t) <= |t|
  {
    if |t| < 12 then WireFailed
    else if NameLen(t) > PATH_MAX then BadFrame
    else if 12 + NameLen(t) > |t| then WireFailed
    else Finished
  }

  /** A listing's FAIL whose reason says there is no such directory is that answer. */
  function ListFailVerdict(s: bytes, n: u32): Outcome {
    if FailVerdict(s, n) == Refused && AbsentReason(s[..n]) then RefusedAbsent else FailVerdict(s, n)
  }

  function ListVerdict(s: bytes, any: bool): Outcome
    decreases |s|
  {
    if |s| < HEADER_LEN then WireFailed
    else if IdOf(s) == DENT then
      var t := s[HEADER_LEN..];
      if DentVerdict(t) != Finished then DentVerdict(t) else ListVerdict(t[12 + NameLen(t)..], true)
    else if IdOf(s) == DONE then
      if |s| < HEADER_LEN + 12 then WireFailed else if any then Finished else NotThere
    else if IdOf(s) == FAIL then
      ListFailVerdict(s[HEADER_LEN..], WordOf(s))
    else BadFrame
  }

  /** How reading the source ends, with the context giving up after so many chunks. */
  function SourceVerdict(script: seq<SourceStep>, patience: nat): Outcome {
    if patience == 0 || script == [] then Canceled
    else if script[0].end == AtEof then Finished
    else if script[0].end == SourceFailed then SourceBroke
    else SourceVerdict(script[1..], patience - 1)
  }

  // ---------------------------------------------------------------------
  // Every reply of the grammar is taken for what it is
  // ---------------------------------------------------------------------

  lemma OkayAccepted(word: u32, x: bytes)
    ensures SendVerdict(EncodeReply(Okay(word)) + x) == Finished
  {
    hide Header, IdOf, WordOf;
    ReadHeader(OKAY, word, x);
  }

  lemma LstatAccepted(mode: u32, size: u32, mtime: u32, x: bytes)
    ensures StatVerdict(EncodeReply(Lstat(mode, size, mtime)) + x) == Finished
  {
    hide Header, IdOf, WordOf;
    var rest := PutU32(size) + PutU32(mtime) + x;
    assert EncodeReply(Lstat(mode, size, mtime)) + x == Header(STAT, mode) + rest;
    ReadHeader(STAT, mode, rest);
  }

  lemma {:induction false} FileAccepted(chunks: seq<bytes>, word: u32, x: bytes)
    requires FramesOk(chunks)
    ensures PullVerdict(EncodeReply(File(chunks, word)) + x) == Finished
    decreases |chunks|
  {
    hide Header, IdOf, WordOf;
    var s := EncodeReply(File(chunks, word)) + x;
    if chunks == [] {
      assert s == Header(DONE, word) + x;
      ReadHeader(DONE, word, x);
    } else {
      var rest := EncodeReply(File(chunks[1..], word)) + x;
      assert s == Frame(DATA, chunks[0]) + rest;
      PullStep(chunks[0], rest);
      FileAccepted(chunks[1..], word, x);
    }
  }

  lemma PullStep(chunk: bytes, rest: bytes)
    requires |chunk| <= DATA_MAX
    ensures PullVerdict(Frame(DATA, chunk) + rest) == PullVerdict(rest)
  {
    hide Header, IdOf, WordOf;
    var s := Frame(DATA, chunk) + rest;
    assert s == Header(DATA, |chunk|) + (chunk + rest);
    ReadHeader(DATA, |chunk|, chunk + rest);
    assert s[HEADER_LEN + |chunk|..] == rest;
  }

  lemma ListStep(d: Dent, rest: bytes, any: bool)
    requires |d.name| <= PATH_MAX
    ensures ListVerdict(DentFrame(d) + rest, any) == ListVerdict(rest, true)
  {
    hide Header, IdOf, WordOf, PutU32, GetU32;
    var s := DentFrame(d) + rest;
    var after := DentTail(d.size, d.mtime, Len(d.name)) + d.name + rest;
    assert s == Header(DENT, d.mode) + after;
    ReadHeader(DENT, d.mode, after);
    assert after[8..12] == PutU32(|d.name|);
    GetPut(|d.name|);
    assert after[12 + |d.name|..] == rest;
  }

  /** A listing of no dents, not even its own dot, is the not-exist answer. */
  lemma {:induction false} ListingAccepted(dents: seq<Dent>, word: u32, tail: bytes, x: bytes, any: bool)
    requires ReplyOk(Listing(dents, word, tail))
    ensures ListVerdict(EncodeReply(Listing(dents, word, tail)) + x, any) ==
            if any || dents != [] then Finished else NotThere
    decreases |dents|
  {
    hide Header, IdOf, WordOf, DentFrame;
    var s := EncodeReply(Listing(dents, word, tail)) + x;
    if dents == [] {
      assert s == Header(DONE, word) + (tail + x);
      ReadHeader(DONE, word, tail + x);
    } else {
      var rest := EncodeReply(Listing(dents[1..], word, tail)) + x;
      assert s == DentFrame(dents[0]) + rest;
      ListStep(dents[0], rest, any);
      ListingAccepted(dents[1..], word, tail, x, true);
    }
  }

  // ---------------------------------------------------------------------
  // Which refusals say there is no such directory
  // ---------------------------------------------------------------------

  /** A split between two texts no character's encoding straddles. */
  lemma {:induction false} LowerConcat(a: bytes, b: bytes)
    requires a == [] || b == [] || a[|a| - 1] < 128 || b[0] < 128
    ensures Lower(a + b) == Lower(a) + Lower(b)
    decreases |a|
  {
    hide Lower, Taken, LowerOne;
    LowerNone();
    if a == [] {
      assert a + b == b;
    } else if b == [] {
      assert a + b == a;
    } else {
      var n := Taken(a);
      SameTaken(a, b);
      LowerStep(a);
      LowerStep(a + b);
      assert (a + b)[n..] == a[n..] + b;
      LowerConcat(a[n..], b);
      assert LowerOne(a) + (Lower(a[n..]) + Lower(b)) == LowerOne(a) + Lower(a[n..]) + Lower(b);
    }
  }

  /** How many bytes the character at the front takes, as far as it matters, and
      what it becomes. */
  function Taken(s: bytes): (n: nat)
    requires s != []
    ensures 1 <= n <= |s|
  {
    if DOTTED_I <= s then 2 else if KELVIN <= s then 3 else 1
  }

  function LowerOne(s: bytes): bytes
    requires s != []
  {
    if DOTTED_I <= s then [105] else if KELVIN <= s then [107]
    else [if 65 <= s[0] <= 90 then s[0] as int + 32 else s[0]]
  }

  lemma LowerNone()
    ensures Lower([]) == []
  {
  }

  lemma LowerStep(s: bytes)
    requires s != []
    ensures Lower(s) == LowerOne(s) + Lower(s[Taken(s)..])
  {
  }

  lemma SameTaken(a: bytes, b: bytes)
    requires a != [] && b != [] && (a[|a| - 1] < 128 || b[0] < 128)
    ensures Taken(a + b) == Taken(a) && LowerOne(a + b) == LowerOne(a)
  {
    assert (a + b)[0] == a[0];
    if !(DOTTED_I <= a) && !(KELVIN <= a) {
      NoStraddle(a, b);
    } else if DOTTED_I <= a {
      assert DOTTED_I <= a + b;
    } else {
      assert KELVIN <= a + b;
      assert a[0] != DOTTED_I[0];
    }
  }

  lemma NoStraddle(a: bytes, b: bytes)
    requires a != [] && b != [] && (a[|a| - 1] < 128 || b[0] < 128) && !(DOTTED_I <= a) && !(KELVIN <= a)
    ensures !(DOTTED_I <= a + b) && !(KELVIN <= a + b)
  {
    var s := a + b;
    assert s[0] == a[0];
    if |a| == 1 {
      assert s[1] == b[0];
    } else {
      assert s[1] == a[1];
      if |a| == 2 {
        assert s[2] == b[0];
      } else {
        assert s[2] == a[2];
      }
    }
  }

  /** The reason contains, whatever its case, one of the two phrases. */
  lemma AbsentReasonMeans(reason: bytes)
    ensures AbsentReason(reason) <==>
            exists a, b :: || Lower(reason) == a + Ascii("no such file or directory") + b
                           || Lower(reason) == a + Ascii("not a directory") + b
  {
    var s, p, q := Lower(reason), Ascii("no such file or directory"), Ascii("not a directory");
    ContainsMeans(s, p);
    ContainsMeans(s, q);
  }

  lemma ContainsMeans(s: bytes, part: bytes)
    ensures Contains(s, part) <==> exists a, b :: s == a + part + b
  {
    if Contains(s, part) {
      var i :| 0 <= i <= |s| && part <= s[i..];
      assert s == s[..i] + part + s[i + |part|..];
    }
    if a, b :| s == a + part + b {
      assert part <= s[|a|..];
    }
  }

  /** Wherever such a phrase stands, in any case, the refusal says so. */
  lemma AbsentAnywhere(before: bytes, phrase: bytes, after: bytes)
    requires Lower(phrase) == Ascii("no such file or directory") || Lower(phrase) == Ascii("not a directory")
    requires phrase != [] && phrase[0] < 128 && phrase[|phrase| - 1] < 128
    ensures AbsentReason(before + phrase + after)
  {
    hide Lower, Ascii, AbsentReason;
    LowerConcat(before, phrase);
    LowerConcat(before + phrase, after);
    assert Lower(before + phrase + after) == Lower(before) + Lower(phrase) + Lower(after);
    AbsentReasonMeans(before + phrase + after);
  }
}
