/** The shell v2 framing: one id byte, a little-endian uint32 length, a
    payload; and the capped demultiplexer that drains such a stream. */
module ShellV2 {
  import opened Bytes
  import opened Io
  import opened Options

  const STDOUT: byte := 1
  const STDERR: byte := 2
  const EXIT: byte := 3

  const HEADER_LEN := 5
  const MAX_PACKET := 1048576
  const DEFAULT_MAX_OUTPUT := 8388608

  datatype Packet = Packet(id: byte, payload: bytes)

  /** WriteShellPacket, for a payload within the cap. */
  function Encode(p: Packet): bytes {
    [p.id] + PutU32(|p.payload| % U32_LIMIT) + p.payload
  }

  function EncodeAll(ps: seq<Packet>): bytes {
    if ps == [] then [] else Encode(ps[0]) + EncodeAll(ps[1..])
  }

  ghost predicate PacketsOk(ps: seq<Packet>) {
    forall i :: 0 <= i < |ps| ==> |ps[i].payload| <= MAX_PACKET
  }

  // ---------------------------------------------------------------------
  // What a stream holds
  // ---------------------------------------------------------------------

  /** What is left after the last whole packet: nothing; a header announcing a
      payload of which no byte arrived; or something else. */
  datatype Tail = Clean | OrphanHeader | Torn

  /** The announced length of a stream that holds at least a header. */
  function LengthOf(s: bytes): u32
    requires |s| >= HEADER_LEN
  {
    GetU32(s[1..5])
  }

  predicate WholePacket(s: bytes) {
    |s| >= HEADER_LEN && LengthOf(s) <= MAX_PACKET && HEADER_LEN + LengthOf(s) <= |s|
  }

  function Packets(s: bytes): (ps: seq<Packet>)
    decreases |s|
  {
    if WholePacket(s) then
      var n := HEADER_LEN + LengthOf(s);
      [Packet(s[0], s[HEADER_LEN..n])] + Packets(s[n..])
    else []
  }

  function TailOf(s: bytes): Tail
    decreases |s|
  {
    if WholePacket(s) then TailOf(s[HEADER_LEN + LengthOf(s)..])
    else if s == [] then Clean
    else if |s| == HEADER_LEN && LengthOf(s) <= MAX_PACKET then OrphanHeader
    else Torn
  }

  lemma ReadPacket(p: Packet, rest: bytes)
    requires |p.payload| <= MAX_PACKET
    ensures var s := Encode(p) + rest;
            var n := HEADER_LEN + |p.payload|;
            && WholePacket(s) && LengthOf(s) == |p.payload| && s[0] == p.id
            && s[HEADER_LEN..n] == p.payload && s[n..] == rest
  {
    hide PutU32, GetU32;
    var s := Encode(p) + rest;
    assert s[1..5] == PutU32(|p.payload|);
    GetPut(|p.payload|);
    assert s[HEADER_LEN..] == p.payload + rest;
    assert s[HEADER_LEN..][..|p.payload|] == p.payload && s[HEADER_LEN..][|p.payload|..] == rest;
  }

  /** Packets written one after another decode back to themselves. */
  lemma {:induction false} PacketsRoundTrip(ps: seq<Packet>)
    requires PacketsOk(ps)
    ensures Packets(EncodeAll(ps)) == ps && TailOf(EncodeAll(ps)) == Clean
    decreases |ps|
  {
    hide Encode, WholePacket;
    if ps == [] {
      EmptyStream();
    } else {
      ReadPacket(ps[0], EncodeAll(ps[1..]));
      PacketsRoundTrip(ps[1..]);
      assert ps == [ps[0]] + ps[1..];
    }
  }

  lemma EmptyStream()
    ensures Packets([]) == [] && TailOf([]) == Clean
  {
  }

  lemma PacketAt(s: bytes)
    requires WholePacket(s)
    ensures var n := HEADER_LEN + LengthOf(s);
            Encode(Packet(s[0], s[HEADER_LEN..n])) == s[..n]
  {
    hide PutU32, GetU32;
    PutGet(s[1..5]);
    var n := HEADER_LEN + LengthOf(s);
    assert s[..n] == [s[0]] + s[1..5] + s[5..n];
  }

  /** A stream is its whole packets followed by a tail: nothing when Clean, one
      five-byte header announcing bytes that never came when OrphanHeader. */
  lemma {:induction false} StreamDecomposes(s: bytes) returns (tail: bytes)
    ensures s == EncodeAll(Packets(s)) + tail && PacketsOk(Packets(s))
    ensures TailOf(s) == Clean <==> tail == []
    ensures TailOf(s) == OrphanHeader <==> |tail| == HEADER_LEN && 0 < LengthOf(tail) <= MAX_PACKET
    decreases |s|
  {
    hide Encode, GetU32;
    if WholePacket(s) {
      var n := HEADER_LEN + LengthOf(s);
      PacketAt(s);
      tail := StreamDecomposes(s[n..]);
      assert s == s[..n] + s[n..];
      var ps := Packets(s);
      assert ps[0] == Packet(s[0], s[HEADER_LEN..n]) && ps[1..] == Packets(s[n..]);
      assert s == Encode(ps[0]) + (EncodeAll(ps[1..]) + tail);
    } else {
      tail := s;
      assert EncodeAll(Packets(s)) + tail == tail;
    }
  }

  // ---------------------------------------------------------------------
  // The specification of a drain
  // ---------------------------------------------------------------------

  predicate IsOutput(p: Packet) {
    p.id == STDOUT || p.id == STDERR
  }

  /** One captured byte and the stream it came from. */
  datatype Captured = Captured(id: byte, value: byte)

  function Tagged(p: Packet): seq<Captured> {
    seq(|p.payload|, i requires 0 <= i < |p.payload| => Captured(p.id, p.payload[i]))
  }

  /** The device's output in the order it arrived, both streams interleaved. */
  function Interleaved(ps: seq<Packet>): seq<Captured> {
    if ps == [] then []
    else Interleaved(ps[..|ps| - 1]) + if IsOutput(ps[|ps| - 1]) then Tagged(ps[|ps| - 1]) else []
  }

  function Project(id: byte, cs: seq<Captured>): bytes {
    if cs == [] then []
    else Project(id, cs[..|cs| - 1]) + if cs[|cs| - 1].id == id then [cs[|cs| - 1].value] else []
  }

  function First(limit: nat, cs: seq<Captured>): seq<Captured> {
    if |cs| <= limit then cs else cs[..limit]
  }

  /** The status of the last exit packet that carries one. */
  function LastExit(ps: seq<Packet>): Option<byte> {
    if ps == [] then None
    else
      var p := ps[|ps| - 1];
      if p.id == EXIT && p.payload != [] then Some(p.payload[0]) else LastExit(ps[..|ps| - 1])
  }

  /** An output packet, empty or not, that arrives once the cap is reached. */
  predicate ArrivedLate(ps: seq<Packet>, limit: nat, i: nat)
    requires i < |ps|
  {
    IsOutput(ps[i]) && |Interleaved(ps[..i])| >= limit
  }

  /** When a drain reports truncation. */
  predicate Truncates(ps: seq<Packet>, limit: nat) {
    |Interleaved(ps)| > limit || exists i :: 0 <= i < |ps| && ArrivedLate(ps, limit, i)
  }

  predicate NothingLost(ps: seq<Packet>, limit: nat) {
    First(limit, Interleaved(ps)) == Interleaved(ps)
  }

  /** An empty output packet that arrives when exactly the cap has been filled. */
  predicate EmptyAtCap(ps: seq<Packet>, limit: nat, i: nat)
    requires i < |ps|
  {
    IsOutput(ps[i]) && ps[i].payload == [] && |Interleaved(ps[..i])| == limit
  }

  /** The output fills the cap to the byte, and an empty packet follows. */
  predicate FalseAlarm(ps: seq<Packet>, limit: nat) {
    |Interleaved(ps)| == limit && exists i :: 0 <= i < |ps| && EmptyAtCap(ps, limit, i)
  }

  predicate NoEmptyOutput(ps: seq<Packet>) {
    forall i :: 0 <= i < |ps| && IsOutput(ps[i]) ==> ps[i].payload != []
  }

  lemma {:induction false} InterleavedGrows(ps: seq<Packet>, i: nat)
    requires i < |ps| && IsOutput(ps[i])
    ensures |Interleaved(ps[..i])| + |ps[i].payload| <= |Interleaved(ps)|
    decreases |ps|
  {
    var n := |ps| - 1;
    if i < n {
      InterleavedGrows(ps[..n], i);
      assert ps[..n][..i] == ps[..i];
    }
  }

  /** Nothing is ever lost silently, and the flag says whether something was lost
      exactly when there is no false alarm. */
  lemma TruncationMeansLoss(ps: seq<Packet>, limit: nat)
    ensures !Truncates(ps, limit) ==> NothingLost(ps, limit)
    ensures (Truncates(ps, limit) <==> !NothingLost(ps, limit)) <==> !FalseAlarm(ps, limit)
    ensures NoEmptyOutput(ps) ==> !FalseAlarm(ps, limit)
  {
    if Truncates(ps, limit) && |Interleaved(ps)| <= limit {
      var i :| 0 <= i < |ps| && ArrivedLate(ps, limit, i);
      InterleavedGrows(ps, i);
      assert EmptyAtCap(ps, limit, i);
    }
    if FalseAlarm(ps, limit) {
      var i :| 0 <= i < |ps| && EmptyAtCap(ps, limit, i);
      assert ArrivedLate(ps, limit, i);
    }
  }

  /** The exception is real: one full packet, then an empty one. */
  lemma EmptyPacketReportsLoss()
    ensures var ps := [Packet(STDOUT, [65]), Packet(STDERR, [])];
            Truncates(ps, 1) && NothingLost(ps, 1) && FalseAlarm(ps, 1)
  {
    var ps := [Packet(STDOUT, [65]), Packet(STDERR, [])];
    assert ps[..1] == [Packet(STDOUT, [65])] && ps[..1][..0] == [];
    assert Interleaved(ps[..1]) == [Captured(STDOUT, 65)];
    assert ArrivedLate(ps, 1, 1);
    assert EmptyAtCap(ps, 1, 1);
  }

  /** A header that announces one byte, and then the end: a stream with no packet
      at all that a drain nevertheless calls complete. */
  lemma OrphanHeaderIsSilent()
    ensures var s: bytes := [STDOUT, 1, 0, 0, 0];
            TailOf(s) == OrphanHeader && Packets(s) == []
  {
    var s: bytes := [STDOUT, 1, 0, 0, 0];
    assert s[1..5] == [1, 0, 0, 0];
    assert LengthOf(s) == 1;
    assert !WholePacket(s);
  }

  lemma {:induction false} ProjectConcat(id: byte, a: seq<Captured>, b: seq<Captured>)
    ensures Project(id, a + b) == Project(id, a) + Project(id, b)
    decreases |b|
  {
    if b == [] {
      assert a + b == a;
    } else {
      var n := |b| - 1;
      assert (a + b)[..|a + b| - 1] == a + b[..n];
      ProjectConcat(id, a, b[..n]);
    }
  }

  lemma {:induction false} ProjectTagged(id: byte, p: Packet)
    ensures Project(id, Tagged(p)) == if p.id == id then p.payload else []
    decreases |p.payload|
  {
    if p.payload != [] {
      var n := |p.payload| - 1;
      var q := Packet(p.id, p.payload[..n]);
      assert Tagged(p)[..n] == Tagged(q);
      ProjectTagged(id, q);
      assert p.payload == p.payload[..n] + [p.payload[n]];
    }
  }

  // ---------------------------------------------------------------------
  // Reading and draining
  // ---------------------------------------------------------------------

  datatype Read = Got(packet: Packet) | StreamEnd | Bad

  /** The next packet. A stream cut exactly between a header and its payload
      reads as the end of the stream. */
  method Next(rd: Reader) returns (r: Read)
    requires rd.Valid()
    modifies rd
    ensures rd.Valid() && old(rd.pos) <= rd.pos
    ensures r.Got? ==> old(rd.pos) < rd.pos
    ensures r.Got? <==> WholePacket(rd.data[old(rd.pos)..])
    ensures r.Got? ==>
              var s := rd.data[old(rd.pos)..];
              var n := HEADER_LEN + LengthOf(s);
              r.packet == Packet(s[0], s[HEADER_LEN..n]) && rd.data[rd.pos..] == s[n..]
    ensures r == StreamEnd <==>
              var s := rd.data[old(rd.pos)..];
              && !WholePacket(s) && rd.ending == HungUp
              && (s == [] || (|s| == HEADER_LEN && LengthOf(s) <= MAX_PACKET))
  {
    hide GetU32;
    ghost var s := rd.data[rd.pos..];
    var hdr := new byte[HEADER_LEN];
    var err := rd.ReadFull(hdr, HEADER_LEN);
    if err != NoError {
      return if err == Eof then StreamEnd else Bad;
    }
    assert hdr[..HEADER_LEN] == s[..HEADER_LEN];
    assert hdr[1..5] == hdr[..HEADER_LEN][1..5] == s[1..5];
    var id, n := hdr[0], GetU32(hdr[1..5]);
    assert id == s[0] && n == LengthOf(s);
    if n > MAX_PACKET {
      return Bad;
    }
    ghost var p1 := rd.pos;
    var buf := new byte[n];
    err := rd.ReadFull(buf, n);
    if err != NoError {
      return if err == Eof then StreamEnd else Bad;
    }
    assert buf[..n] == rd.data[p1..rd.pos] == s[HEADER_LEN..HEADER_LEN + n];
    assert buf[..] == buf[..n];
    r := Got(Packet(id, buf[..]));
  }

  datatype ShellResult = ShellResult(
    stdout: bytes, stderr: bytes, exitCode: int, exited: bool, truncated: bool)

  /** What a drain of these packets must report. */
  predicate Reports(res: ShellResult, ps: seq<Packet>, limit: nat) {
    && res.stdout == Project(STDOUT, First(limit, Interleaved(ps)))
    && res.stderr == Project(STDERR, First(limit, Interleaved(ps)))
    && res.truncated == Truncates(ps, limit)
    && res.exited == LastExit(ps).Some?
    && res.exitCode == match LastExit(ps) case None => -1 case Some(code) => code
  }

  function Cap(limit: int): (cap: nat)
    ensures limit > 0 ==> cap == limit
    ensures limit <= 0 ==> cap == 8_388_608
  {
    if limit <= 0 then DEFAULT_MAX_OUTPUT else limit
  }

  /** What the loop does with one packet. */
  method Take(res0: ShellResult, total0: nat, p: Packet, cap: nat, ghost ps: seq<Packet>)
    returns (res: ShellResult, total: nat)
    requires Reports(res0, ps, cap) && total0 == |First(cap, Interleaved(ps))|
    ensures Reports(res, ps + [p], cap) && total == |First(cap, Interleaved(ps + [p]))|
  {
    hide Project, Interleaved, LastExit, Truncates, Tagged;
    res, total := res0, total0;
    ExitSnoc(ps, p);
    InterleavedSnoc(ps, p);
    TruncatesSnoc(ps, p, cap);
    if IsOutput(p) {
      if total >= cap {
        res := res.(truncated := true);
        assert First(cap, Interleaved(ps + [p])) == First(cap, Interleaved(ps));
        return;
      }
      var payload := p.payload;
      if total + |payload| > cap {
        payload := payload[..cap - total];
        res := res.(truncated := true);
      }
      CaptureSnoc(ps, p, cap, payload);
      total := total + |payload|;
      if p.id == STDOUT {
        res := res.(stdout := res.stdout + payload);
      } else {
        res := res.(stderr := res.stderr + payload);
      }
    } else if p.id == EXIT && p.payload != [] {
      res := res.(exitCode := p.payload[0], exited := true);
    }
  }

  lemma ExitSnoc(ps: seq<Packet>, p: Packet)
    ensures LastExit(ps + [p]) == if p.id == EXIT && p.payload != [] then Some(p.payload[0]) else LastExit(ps)
  {
    assert (ps + [p])[..|ps|] == ps;
  }

  lemma InterleavedSnoc(ps: seq<Packet>, p: Packet)
    ensures Interleaved(ps + [p]) == if IsOutput(p) then Interleaved(ps) + Tagged(p) else Interleaved(ps)
    ensures |Tagged(p)| == |p.payload|
  {
    assert (ps + [p])[..|ps|] == ps;
  }

  lemma TruncatesSnoc(ps: seq<Packet>, p: Packet, cap: nat)
    ensures Truncates(ps + [p], cap) <==>
            Truncates(ps, cap) || (IsOutput(p) && (|Interleaved(ps)| >= cap || |Interleaved(ps)| + |p.payload| > cap))
  {
    var after := ps + [p];
    InterleavedSnoc(ps, p);
    assert forall i :: 0 <= i < |ps| ==> after[i] == ps[i] && after[..i] == ps[..i];
    assert after[..|ps|] == ps;
    assert ArrivedLate(after, cap, |ps|) <==> IsOutput(p) && |Interleaved(ps)| >= cap;
    if i :| 0 <= i < |ps| && ArrivedLate(ps, cap, i) {
      assert ArrivedLate(after, cap, i);
    }
    if i :| 0 <= i < |after| && ArrivedLate(after, cap, i) {
      assert i < |ps| ==> ArrivedLate(ps, cap, i);
    }
  }

  /** Capturing a packet while there is room captures what the cap lets through. */
  lemma CaptureSnoc(ps: seq<Packet>, p: Packet, cap: nat, payload: bytes)
    requires IsOutput(p) && |Interleaved(ps)| < cap
    requires payload ==
               if |Interleaved(ps)| + |p.payload| > cap then p.payload[..cap - |Interleaved(ps)|] else p.payload
    ensures var was, now := First(cap, Interleaved(ps)), First(cap, Interleaved(ps + [p]));
            && |now| == |was| + |payload|
            && forall id: byte :: Project(id, now) == Project(id, was) + if p.id == id then payload else []
  {
    hide Project, Interleaved;
    InterleavedSnoc(ps, p);
    var cut := Packet(p.id, payload);
    assert First(cap, Interleaved(ps + [p])) == Interleaved(ps) + Tagged(cut);
    forall id: byte
      ensures Project(id, Interleaved(ps) + Tagged(cut)) ==
                Project(id, Interleaved(ps)) + if p.id == id then payload else []
    {
      ProjectConcat(id, Interleaved(ps), Tagged(cut));
      ProjectTagged(id, cut);
    }
  }

  /** DrainShellV2. However the stream is fragmented, the result is the
      projection of the first `limit` bytes of the interleaved output of its
      whole packets; the error is nil exactly when the peer hung up after a
      whole packet or after one orphan header. */
  method Drain(rd: Reader, limit: int) returns (res: ShellResult, ok: bool)
    requires rd.Valid()
    modifies rd
    ensures Reports(res, Packets(rd.data[old(rd.pos)..]), Cap(limit))
    ensures ok <==> rd.ending == HungUp && TailOf(rd.data[old(rd.pos)..]) != Torn
  {
    hide Reports, WholePacket, LengthOf, Packets, TailOf, Interleaved, First;
    ghost var stream := rd.data[rd.pos..];
    ghost var ps := [];
    res := ShellResult([], [], -1, false, false);
    var total := 0;
    NothingReported(Cap(limit));
    assert Packets(stream) == ps + Packets(rd.data[rd.pos..]);
    while true
      invariant rd.Valid()
      invariant Packets(stream) == ps + Packets(rd.data[rd.pos..]) && TailOf(stream) == TailOf(rd.data[rd.pos..])
      invariant Reports(res, ps, Cap(limit)) && total == |First(Cap(limit), Interleaved(ps))|
      decreases |rd.data| - rd.pos
    {
      ghost var rest := rd.data[rd.pos..];
      assert Packets(stream) == ps + Packets(rest);
      PacketsStep(rest);
      var r := Next(rd);
      if !r.Got? {
        assert ps + [] == ps;
        return res, r == StreamEnd;
      }
      res, total := Take(res, total, r.packet, Cap(limit), ps);
      assert ps + ([r.packet] + Packets(rd.data[rd.pos..])) == (ps + [r.packet]) + Packets(rd.data[rd.pos..]);
      ps := ps + [r.packet];
    }
  }

  lemma NothingReported(cap: nat)
    ensures Reports(ShellResult([], [], -1, false, false), [], cap) && First(cap, Interleaved([])) == []
  {
  }

  lemma PacketsStep(s: bytes)
    ensures WholePacket(s) ==>
              && HEADER_LEN + LengthOf(s) <= |s|
              && Packets(s) ==
                   [Packet(s[0], s[HEADER_LEN..HEADER_LEN + LengthOf(s)])] + Packets(s[HEADER_LEN + LengthOf(s)..])
              && TailOf(s) == TailOf(s[HEADER_LEN + LengthOf(s)..])
    ensures !WholePacket(s) ==>
              && Packets(s) == []
              && (TailOf(s) != Torn <==> s == [] || (|s| == HEADER_LEN && LengthOf(s) <= MAX_PACKET))
  {
  }

  // ---------------------------------------------------------------------
  // What a report says of the two streams
  // ---------------------------------------------------------------------

  /** Everything the packets of one id carried. */
  function Payloads(ps: seq<Packet>, id: byte): bytes {
    if ps == [] then []
    else Payloads(ps[..|ps| - 1], id) + if ps[|ps| - 1].id == id then ps[|ps| - 1].payload else []
  }

  lemma {:induction false} InterleavedPayloads(ps: seq<Packet>)
    ensures Project(1, Interleaved(ps)) == Payloads(ps, 1) && Project(2, Interleaved(ps)) == Payloads(ps, 2)
    ensures |Interleaved(ps)| == |Payloads(ps, 1)| + |Payloads(ps, 2)|
    decreases |ps|
  {
    hide Project;
    if ps == [] {
      ProjectNone(1);
      ProjectNone(2);
    } else {
      var k := |ps| - 1;
      var init, p := Interleaved(ps[..k]), ps[k];
      InterleavedPayloads(ps[..k]);
      ProjectConcat(1, init, Tagged(p));
      ProjectConcat(2, init, Tagged(p));
      ProjectTagged(1, p);
      ProjectTagged(2, p);
      assert init + [] == init;
    }
  }

  lemma ProjectNone(id: byte)
    ensures Project(id, []) == []
  {
  }

  lemma FirstIsPrefix(id: byte, limit: nat, cs: seq<Captured>)
    ensures Project(id, First(limit, cs)) <= Project(id, cs)
  {
    hide Project;
    if |cs| > limit {
      assert cs == cs[..limit] + cs[limit..];
      ProjectConcat(id, cs[..limit], cs[limit..]);
    }
  }

  predicate OnlyOutput(cs: seq<Captured>) {
    forall i :: 0 <= i < |cs| ==> cs[i].id == 1 || cs[i].id == 2
  }

  lemma {:induction false} InterleavedIsOutput(ps: seq<Packet>)
    ensures OnlyOutput(Interleaved(ps))
    decreases |ps|
  {
    if ps != [] {
      InterleavedIsOutput(ps[..|ps| - 1]);
    }
  }

  lemma {:induction false} ProjectionsCount(cs: seq<Captured>)
    requires OnlyOutput(cs)
    ensures |Project(1, cs)| + |Project(2, cs)| == |cs|
    decreases |cs|
  {
    if cs != [] {
      ProjectionsCount(cs[..|cs| - 1]);
    }
  }

  /** Stdout is a prefix of what packets of id 1 carried and stderr of what packets
      of id 2 did, together as much of both as the cap has room for. */
  lemma DrainSeparates(res: ShellResult, ps: seq<Packet>, limit: nat)
    requires Reports(res, ps, limit)
    ensures res.stdout <= Payloads(ps, 1) && res.stderr <= Payloads(ps, 2)
    ensures var total := |Payloads(ps, 1)| + |Payloads(ps, 2)|;
            |res.stdout| + |res.stderr| == if total <= limit then total else limit
  {
    hide Project, Interleaved, Truncates, LastExit;
    var cs := Interleaved(ps);
    InterleavedPayloads(ps);
    FirstIsPrefix(1, limit, cs);
    FirstIsPrefix(2, limit, cs);
    InterleavedIsOutput(ps);
    ProjectionsCount(First(limit, cs));
  }
}
