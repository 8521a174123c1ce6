/** The host protocol's frames: four hex digits of length, then the payload. */
module HostFraming {
  import opened Options
  import opened Bytes
  import opened Io

  const PREFIX_LEN := 4
  const MAX_MESSAGE := 0xFFFF

  // ---------------------------------------------------------------------
  // Hex digits
  // ---------------------------------------------------------------------

  type nibble = v: int | 0 <= v < 16

  function HexByte(v: nibble): byte {
    if v < 10 then 48 + v else 97 + (v - 10)
  }

  /** Either case is accepted. */
  function HexValue(b: byte): (v: Option<nat>)
    ensures v.Some? ==> v.value < 16
  {
    if 48 <= b <= 57 then Some(b - 48)
    else if 97 <= b <= 102 then Some(b - 97 + 10)
    else if 65 <= b <= 70 then Some(b - 65 + 10)
    else None
  }

  function LowerByte(b: byte): byte {
    if 65 <= b <= 70 then b + 32 else b
  }

  function Lowered(b: bytes): bytes {
    seq(|b|, i requires 0 <= i < |b| => LowerByte(b[i]))
  }

  lemma HexByteValue(b: byte, v: nibble)
    ensures HexValue(b) == Some(v) <==> LowerByte(b) == HexByte(v)
  {
  }

  /** The length prefix, as the four digits it is. */
  function Hex4(n: nat): (b: bytes)
    ensures |b| == PREFIX_LEN
  {
    [HexByte(n / 4096 % 16), HexByte(n / 256 % 16), HexByte(n / 16 % 16), HexByte(n % 16)]
  }

  /** The value of hex digits, if that is what b holds. */
  function HexNumber(b: bytes): Option<nat> {
    if b == [] then Some(0)
    else
      match (HexNumber(b[..|b| - 1]), HexValue(b[|b| - 1]))
      case (Some(n), Some(v)) => Some(16 * n + v)
      case _ => None
  }

  function PrefixValue(b: bytes): Option<nat> {
    if |b| != PREFIX_LEN then None else HexNumber(b)
  }

  method PutHex4(dst: array<byte>, n: nat)
    requires dst.Length >= PREFIX_LEN
    modifies dst
    ensures dst[..PREFIX_LEN] == Hex4(n)
    ensures dst[PREFIX_LEN..] == old(dst[PREFIX_LEN..])
  {
    dst[0] := HexByte(n / 4096 % 16);
    dst[1] := HexByte(n / 256 % 16);
    dst[2] := HexByte(n / 16 % 16);
    dst[3] := HexByte(n % 16);
  }

  method ParseHex4(b: bytes) returns (n: nat, ok: bool)
    ensures PrefixValue(b) == if ok then Some(n) else None
  {
    if |b| != PREFIX_LEN {
      return 0, false;
    }
    n := 0;
    for i := 0 to |b|
      invariant HexNumber(b[..i]) == Some(n)
    {
      assert b[..i + 1][..i] == b[..i];
      var v := HexValue(b[i]);
      if v.None? {
        NotHex(b, i + 1);
        return 0, false;
      }
      n := 16 * n + v.value;
    }
    assert b[..|b|] == b;
    ok := true;
  }

  lemma {:induction false} NotHex(b: bytes, k: nat)
    requires k <= |b| && HexNumber(b[..k]) == None
    ensures HexNumber(b) == None
    decreases |b|
  {
    if k == |b| {
      assert b[..k] == b;
    } else {
      assert b[..|b| - 1][..k] == b[..k];
      NotHex(b[..|b| - 1], k);
    }
  }

  lemma FourDigits(b: bytes)
    requires |b| == PREFIX_LEN
    ensures HexNumber(b) ==
      match (HexValue(b[0]), HexValue(b[1]), HexValue(b[2]), HexValue(b[3]))
      case (Some(x), Some(y), Some(z), Some(w)) => Some(4096 * x + 256 * y + 16 * z + w)
      case _ => None
  {
    hide HexValue;
    assert b[..3][..2] == b[..2] && b[..2][..1] == b[..1] && b[..1][..0] == [];
    assert HexNumber(b[..1]) == if HexValue(b[0]).Some? then Some(HexValue(b[0]).value) else None;
    assert HexNumber(b[..2]) ==
      if HexValue(b[0]).Some? && HexValue(b[1]).Some?
      then Some(16 * HexValue(b[0]).value + HexValue(b[1]).value) else None;
  }

  /** A prefix reads as n exactly when it is n's digits, whatever their case. */
  lemma PrefixValueIff(b: bytes, n: nat)
    requires |b| == PREFIX_LEN && n <= MAX_MESSAGE
    ensures PrefixValue(b) == Some(n) <==> Lowered(b) == Hex4(n)
  {
    hide Lowered;
    FourDigits(b);
    var x, y, z, w := n / 4096 % 16, n / 256 % 16, n / 16 % 16, n % 16;
    DigitsAddUp(n);
    HexByteValue(b[0], x);
    HexByteValue(b[1], y);
    HexByteValue(b[2], z);
    HexByteValue(b[3], w);
    hide HexValue, HexByte, LowerByte, HexNumber;
    LowerFour(b);
    if PrefixValue(b) == Some(n) {
      DigitsUnique(HexValue(b[0]).value, HexValue(b[1]).value, HexValue(b[2]).value, HexValue(b[3]).value, n);
    }
  }

  lemma LowerFour(b: bytes)
    requires |b| == PREFIX_LEN
    ensures Lowered(b) == [LowerByte(b[0]), LowerByte(b[1]), LowerByte(b[2]), LowerByte(b[3])]
  {
  }

  lemma DigitsAddUp(n: nat)
    requires n <= MAX_MESSAGE
    ensures n == 4096 * (n / 4096 % 16) + 256 * (n / 256 % 16) + 16 * (n / 16 % 16) + n % 16
  {
    var a := n / 16;
    var b := a / 16;
    var c := b / 16;
    assert n / 256 == b && n / 4096 == c;
    assert c < 16;
  }

  lemma DigitsUnique(x: nibble, y: nibble, z: nibble, w: nibble, n: nat)
    requires n == 4096 * x + 256 * y + 16 * z + w
    ensures x == n / 4096 % 16 && y == n / 256 % 16 && z == n / 16 % 16 && w == n % 16
  {
    assert n / 16 == 256 * x + 16 * y + z;
    assert n / 256 == 16 * x + y;
    assert n / 4096 == x;
  }

  lemma ParseInvertsPut(n: nat)
    requires n <= MAX_MESSAGE
    ensures PrefixValue(Hex4(n)) == Some(n)
  {
    var b := Hex4(n);
    forall i | 0 <= i < 4
      ensures LowerByte(b[i]) == b[i]
    {
    }
    assert Lowered(b) == b;
    PrefixValueIff(b, n);
  }

  // ---------------------------------------------------------------------
  // Messages
  // ---------------------------------------------------------------------

  function Frame(payload: bytes): bytes {
    Hex4(|payload|) + payload
  }

  function Frames(ms: seq<bytes>): bytes {
    if ms == [] then [] else Frame(ms[0]) + Frames(ms[1..])
  }

  predicate Framable(ms: seq<bytes>) {
    forall i :: 0 <= i < |ms| ==> |ms[i]| <= MAX_MESSAGE
  }

  /** The message at the front of a stream, if a whole one is there. */
  function Front(s: bytes): Option<bytes> {
    if |s| < PREFIX_LEN then None
    else
      match PrefixValue(s[..PREFIX_LEN])
      case None => None
      case Some(n) => if PREFIX_LEN + n <= |s| then Some(s[PREFIX_LEN..PREFIX_LEN + n]) else None
  }

  function Messages(s: bytes): seq<bytes>
    decreases |s|
  {
    match Front(s)
    case None => []
    case Some(m) => [m] + Messages(s[PREFIX_LEN + |m|..])
  }

  lemma FrontOfFrame(m: bytes, rest: bytes)
    requires |m| <= MAX_MESSAGE
    ensures Front(Frame(m) + rest) == Some(m) && (Frame(m) + rest)[PREFIX_LEN + |m|..] == rest
  {
    hide Hex4, PrefixValue;
    var s := Frame(m) + rest;
    assert s[..PREFIX_LEN] == Hex4(|m|);
    ParseInvertsPut(|m|);
    assert s[PREFIX_LEN..PREFIX_LEN + |m|] == m;
  }

  /** Whatever follows, framed messages are read back one by one, first to last. */
  lemma {:induction false} FramesRoundTrip(ms: seq<bytes>, rest: bytes)
    requires Framable(ms)
    ensures Messages(Frames(ms) + rest) == ms + Messages(rest)
  {
    hide Frame, Messages;
    if ms == [] {
      assert Frames(ms) + rest == rest;
    } else {
      var after := Frames(ms[1..]) + rest;
      assert Frames(ms) + rest == Frame(ms[0]) + after;
      FirstFrame(ms[0], after);
      FramesRoundTrip(ms[1..], rest);
      hide Frames;
      assert [ms[0]] + (ms[1..] + Messages(rest)) == ms + Messages(rest);
    }
  }

  lemma FirstFrame(m: bytes, after: bytes)
    requires |m| <= MAX_MESSAGE
    ensures Messages(Frame(m) + after) == [m] + Messages(after)
  {
    FrontOfFrame(m, after);
    hide Front, Frame;
  }

  lemma NoMessages()
    ensures Messages([]) == []
  {
  }

  /** Two sequences of messages never look alike on the wire. */
  lemma FramesInjective(a: seq<bytes>, b: seq<bytes>)
    requires Framable(a) && Framable(b) && Frames(a) == Frames(b)
    ensures a == b
  {
    hide Frames, Messages, Framable;
    NoMessages();
    FramesRoundTrip(a, []);
    FramesRoundTrip(b, []);
    assert Frames(a) + [] == Frames(a) && Frames(b) + [] == Frames(b);
    assert a + [] == a && b + [] == b;
  }

  /** writeMessage: too long a payload is refused before a byte is written. */
  method WriteMessage(w: Writer, payload: bytes) returns (refused: bool, ok: bool)
    modifies w
    ensures refused <==> |payload| > MAX_MESSAGE
    ensures refused ==> !ok && w.sent == old(w.sent)
    ensures !refused ==> old(w.sent) <= w.sent <= old(w.sent) + Frame(payload)
    ensures ok ==> w.sent == old(w.sent) + Frame(payload)
    ensures !refused && old(w.Reliable()) && (old(w.script) == [] || old(w.script)[0].max >= 4 + |payload|) ==> ok
  {
    if |payload| > MAX_MESSAGE {
      return true, false;
    }
    var buf := new byte[PREFIX_LEN + |payload|];
    PutHex4(buf, |payload|);
    forall k | PREFIX_LEN <= k < buf.Length {
      buf[k] := payload[k - PREFIX_LEN];
    }
    assert buf[..PREFIX_LEN] == Hex4(|payload|);
    assert buf[..] == buf[..PREFIX_LEN] + payload;
    var n, fine := w.Write(buf[..]);
    // net.Conn reports a short write as an error.
    refused, ok := false, fine && n == buf.Length;
    assert buf[..][..n] <= Frame(payload);
    if ok {
      assert buf[..][..n] == buf[..];
    }
  }

  /** readMessage, for any fragmentation of the stream. */
  method ReadMessage(rd: Reader) returns (m: Option<bytes>)
    requires rd.Valid()
    modifies rd
    ensures rd.Valid() && old(rd.pos) <= rd.pos
    ensures m == Front(rd.data[old(rd.pos)..])
    ensures m.Some? ==> rd.pos == old(rd.pos) + PREFIX_LEN + |m.value|
  {
    hide PrefixValue;
    ghost var s := rd.data[rd.pos..];
    var hdr := new byte[PREFIX_LEN];
    var err := rd.ReadFull(hdr, PREFIX_LEN);
    if err != NoError {
      return None;
    }
    assert hdr[..PREFIX_LEN] == s[..PREFIX_LEN];
    assert hdr[..] == hdr[..PREFIX_LEN];
    var want, ok := ParseHex4(hdr[..]);
    if !ok {
      return None;
    }
    if want == 0 {
      assert s[PREFIX_LEN..PREFIX_LEN] == [];
      return Some([]);
    }
    ghost var p := rd.pos;
    var buf := new byte[want];
    err := rd.ReadFull(buf, want);
    if err != NoError {
      return None;
    }
    assert buf[..] == buf[..want] == rd.data[p..rd.pos] == s[PREFIX_LEN..PREFIX_LEN + want];
    m := Some(buf[..]);
  }

  /** A session's reads: every whole message of the stream, in order, and nothing
      after the first that is not one. */
  method ReadSession(rd: Reader) returns (ms: seq<bytes>)
    requires rd.Valid()
    modifies rd
    ensures ms == Messages(rd.data[old(rd.pos)..])
  {
    hide Front;
    ms := [];
    while true
      invariant rd.Valid()
      invariant Messages(rd.data[old(rd.pos)..]) == ms + Messages(rd.data[rd.pos..])
      decreases |rd.data| - rd.pos
    {
      ghost var p := rd.pos;
      var m := ReadMessage(rd);
      if m.None? {
        return;
      }
      assert rd.data[p..][PREFIX_LEN + |m.value|..] == rd.data[rd.pos..];
      ms := ms + [m.value];
    }
  }
}
