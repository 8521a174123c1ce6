/** The client side of a file-sync session.

    A session is a single socket carrying one request at a time, with no
    request ids. The `log` records every request that was written in full and
    answered in full; `Valid` says that a session which still claims to be
    usable has sent exactly the requests of its log and consumed exactly their
    replies, so its cursor stands on a reply boundary. */
module SyncSession {
  import opened Bytes
  import opened Io
  import opened Options
  import opened SyncWire
  import opened SyncVerdict
  import opened FileModes

  /** One path as LSTAT_V1 or a DENT describes it. */
  datatype FileInfo = FileInfo(
    path: bytes, mode: FileMode, posixMode: u32, size: u32,
    sizeTruncated: bool, modTime: Option<u32>, exists_: bool, name: bytes)

  function FileInfoFromWire(path: bytes, name: bytes, mode: u32, size: u32, mtime: u32): FileInfo {
    var m := OfPosix(mode);
    FileInfo(path, m, mode, size, mode != 0 && IsRegular(m),
             if mode != 0 && mtime != 0 then Some(mtime) else None, mode != 0, name)
  }

  /** What the three words of an LSTAT reply or a DENT say of a path. A mode of
      zero is how the protocol says that nothing is there; a time of zero, that
      none is known; and a regular file's 32-bit size may have been cut. */
  ghost predicate Tells(info: FileInfo, mode: u32, size: u32, mtime: u32) {
    && info.posixMode == mode && info.mode == OfPosix(mode) && info.size == size
    && (info.exists_ <==> mode != 0)
    && (info.modTime.Some? <==> info.exists_ && mtime != 0)
    && (info.modTime.Some? ==> info.modTime.value == mtime)
    && (info.sizeTruncated <==> info.exists_ && IsRegular(info.mode))
  }

  lemma WireTells(path: bytes, name: bytes, mode: u32, size: u32, mtime: u32)
    ensures var info := FileInfoFromWire(path, name, mode, size, mtime);
            info.path == path && info.name == name && Tells(info, mode, size, mtime)
  {
  }

  /** What a Stat of remote reports is read off the 16 bytes at the cursor: after
      the id, the mode, the size and the time, each a little-endian word. */
  ghost predicate Told(data: bytes, p: nat, remote: bytes, info: Option<FileInfo>) {
    && p + 16 <= |data| && info.Some? && info.value.path == remote && info.value.name == BaseName(remote)
    && Tells(info.value, GetU32(data[p + 4..p + 8]), GetU32(data[p + 8..p + 12]), GetU32(data[p + 12..p + 16]))
  }

  predicate ValidPath(path: bytes) {
    path != [] && 0 !in path && |path| <= PATH_MAX
  }

  const SLASH: byte := 0x2F
  const DOT: bytes := [0x2E]
  const DOT_DOT: bytes := [0x2E, 0x2E]

  function JoinRemote(dir: bytes, name: bytes): bytes {
    if dir != [] && dir[|dir| - 1] == SLASH then dir + name else dir + [SLASH] + name
  }

  function TrimSlashes(path: bytes): (t: bytes)
    ensures t == [] || t[|t| - 1] != SLASH
  {
    if path != [] && path[|path| - 1] == SLASH then TrimSlashes(path[..|path| - 1]) else path
  }

  function AfterSlash(path: bytes): (t: bytes)
    ensures SLASH !in t && |t| <= |path|
  {
    if SLASH !in path then path else AfterSlash(path[1..])
  }

  /** path.Base. */
  function BaseName(path: bytes): bytes {
    if path == [] then DOT
    else if TrimSlashes(path) == [] then [SLASH]
    else AfterSlash(TrimSlashes(path))
  }

  lemma {:induction false} AfterSlashOf(dir: bytes, name: bytes)
    requires SLASH !in name && dir != [] && dir[|dir| - 1] == SLASH
    ensures AfterSlash(dir + name) == name
    decreases |dir|
  {
    assert SLASH in dir + name by { assert (dir + name)[|dir| - 1] == SLASH; }
    assert (dir + name)[1..] == dir[1..] + name;
    if |dir| == 1 {
      assert dir[1..] + name == name;
    } else {
      AfterSlashOf(dir[1..], name);
    }
  }

  /** A stat of a listed entry's path gives the name the listing gave. */
  lemma StatNamesAsListed(dir: bytes, name: bytes)
    requires name != [] && SLASH !in name
    ensures BaseName(JoinRemote(dir, name)) == name
  {
    var path := JoinRemote(dir, name);
    assert path[|path| - 1] == name[|name| - 1];
    assert TrimSlashes(path) == path;
    var front := if dir != [] && dir[|dir| - 1] == SLASH then dir else dir + [SLASH];
    assert path == front + name;
    AfterSlashOf(front, name);
  }

  /** path.Base of nothing, of the root, and of a name with slashes after it. */
  lemma BaseNames(dir: bytes, name: bytes)
    requires name != [] && 0x2F !in name
    ensures BaseName([]) == [0x2E] && BaseName([0x2F]) == [0x2F]
    ensures BaseName(JoinRemote(dir, name) + [0x2F]) == name
  {
    assert [0x2F][..0] == [];
    var path := JoinRemote(dir, name);
    StatNamesAsListed(dir, name);
    assert path[|path| - 1] == name[|name| - 1];
    assert (path + [0x2F])[..|path|] == path;
    assert TrimSlashes(path + [0x2F]) == TrimSlashes(path);
  }

  /** A path is accepted exactly when it is one to 1024 bytes, none of them NUL. */
  lemma PathAccepted(path: bytes)
    ensures ValidPath(path) <==> 1 <= |path| <= 1024 && forall i :: 0 <= i < |path| ==> path[i] != 0
  {
  }

  /** The entries a listing reports: every DENT but "." and "..". */
  function Entries(dir: bytes, dents: seq<Dent>): seq<FileInfo> {
    if dents == [] then []
    else
      var init, d := Entries(dir, dents[..|dents| - 1]), dents[|dents| - 1];
      if d.name == DOT || d.name == DOT_DOT then init
      else init + [FileInfoFromWire(JoinRemote(dir, d.name), d.name, d.mode, d.size, d.mtime)]
  }

  /** How a Push that is written must end: as its source does, or else as the
      daemon answers. */
  function PushVerdict(script: seq<SourceStep>, patience: nat, s: bytes): Outcome {
    if SourceVerdict(script, patience) == Finished then SendVerdict(s) else SourceVerdict(script, patience)
  }

  /** What the stream's first header says. */
  ghost predicate HeadIs(s: bytes, id: syncId, word: u32) {
    |s| >= HEADER_LEN && IdOf(s) == id && WordOf(s) == word
  }

  lemma ListUnfolds(s: bytes, any: bool, id: syncId, word: u32)
    requires |s| >= HEADER_LEN ==> HeadIs(s, id, word)
    ensures |s| < HEADER_LEN ==> ListVerdict(s, any) == WireFailed
    ensures |s| >= HEADER_LEN ==>
              var t := s[HEADER_LEN..];
              ListVerdict(s, any) ==
                if id == DENT then
                  if DentVerdict(t) != Finished then DentVerdict(t) else ListVerdict(t[12 + NameLen(t)..], true)
                else if id == DONE then if |t| < 12 then WireFailed else if any then Finished else NotThere
                else if id == FAIL then ListFailVerdict(t, word)
                else BadFrame
  {
    hide DentVerdict, NameLen, ListFailVerdict, IdOf, WordOf;
  }

  /** The words of an LSTAT reply, by where they stand. */
  lemma LstatWords(data: bytes, p: nat, mode: u32, rest: bytes)
    requires p + 16 <= |data| && data[p..p + 8] == Header(STAT, mode) && data[p + 8..p + 16] == rest
    ensures GetU32(data[p + 4..p + 8]) == mode
    ensures data[p + 8..p + 12] == rest[..4] && data[p + 12..p + 16] == rest[4..8]
  {
    hide GetU32, PutU32;
    assert data[p + 4..p + 8] == data[p..p + 8][4..8] == PutU32(mode);
    GetPut(mode);
  }

  lemma DataFrameIs(n: nat, chunk: bytes)
    requires |chunk| == n <= DATA_MAX
    ensures Header(DATA, n) + chunk == Frame(DATA, chunk)
  {
    hide Header;
  }

  lemma SliceFrom(data: bytes, p: nat, q: nat)
    requires p <= q <= |data|
    ensures data[p..][..q - p] == data[p..q]
  {
  }

  /** The DENTs that are entries: all but "." and "..". */
  function NamedDents(dents: seq<Dent>): seq<Dent> {
    if dents == [] then []
    else
      var d := dents[|dents| - 1];
      NamedDents(dents[..|dents| - 1]) + if d.name == [0x2E] || d.name == [0x2E, 0x2E] then [] else [d]
  }

  /** An entry carries its DENT's words and name, and a path that is the directory,
      one slash, and that name. */
  ghost predicate EntryOf(dir: bytes, d: Dent, e: FileInfo) {
    && Tells(e, d.mode, d.size, d.mtime) && e.name == d.name
    && (if dir != [] && dir[|dir| - 1] == 0x2F then e.path == dir + d.name else e.path == dir + [0x2F] + d.name)
  }

  ghost predicate EntriesOf(dir: bytes, dents: seq<Dent>, es: seq<FileInfo>) {
    |es| == |dents| && forall i :: 0 <= i < |es| ==> EntryOf(dir, dents[i], es[i])
  }

  lemma {:induction false} EntriesTell(dir: bytes, dents: seq<Dent>)
    ensures EntriesOf(dir, NamedDents(dents), Entries(dir, dents))
    decreases |dents|
  {
    if dents != [] {
      var d := dents[|dents| - 1];
      EntriesTell(dir, dents[..|dents| - 1]);
      WireTells(JoinRemote(dir, d.name), d.name, d.mode, d.size, d.mtime);
      hide FileInfoFromWire, Tells;
    }
  }

  lemma NoChunks()
    ensures DataFrames([]) == [] && Concat([]) == []
  {
  }

  lemma EntriesSnoc(dir: bytes, dents: seq<Dent>, d: Dent)
    ensures Entries(dir, dents + [d]) ==
            if d.name == DOT || d.name == DOT_DOT then Entries(dir, dents)
            else Entries(dir, dents) + [FileInfoFromWire(JoinRemote(dir, d.name), d.name, d.mode, d.size, d.mtime)]
  {
    hide FileInfoFromWire, JoinRemote;
    assert (dents + [d])[..|dents|] == dents;
  }

  lemma ListingEncoded(dents: seq<Dent>, word: u32, tail: bytes)
    requires (forall i :: 0 <= i < |dents| ==> |dents[i].name| <= PATH_MAX) && (dents != [] ==> |tail| == 12)
    ensures |tail| == 12 ==> ReplyOk(Listing(dents, word, tail))
    ensures EncodeReply(Listing(dents, word, tail)) == DentFrames(dents) + (Header(DONE, word) + tail)
    ensures DentFrames([]) == [] && forall dir :: Entries(dir, []) == []
  {
  }

  lemma DentArrived(data: bytes, p0: nat, p1: nat, p2: nat, p3: nat, dents: seq<Dent>, d: Dent)
    requires p0 <= p1 <= p2 <= p3 <= |data| && data[p0..p1] == DentFrames(dents)
    requires data[p1..p2] == Header(DENT, d.mode) && data[p2..p3] == DentTail(d.size, d.mtime, Len(d.name)) + d.name
    ensures data[p0..p3] == DentFrames(dents + [d])
  {
    hide Header, DentTail, DentFrames;
    assert data[p0..p3] == data[p0..p1] + (data[p1..p2] + data[p2..p3]);
    assert data[p1..p2] + data[p2..p3] == DentFrame(d);
    DentFramesSnoc(dents, d);
  }

  lemma DoneArrived(data: bytes, p0: nat, p1: nat, p2: nat, p3: nat, dents: seq<Dent>, word: u32)
    requires p0 <= p1 <= p2 <= p3 <= |data| && data[p0..p1] == DentFrames(dents)
    requires data[p1..p2] == Header(DONE, word) && p3 == p2 + 12
    requires forall i :: 0 <= i < |dents| ==> |dents[i].name| <= PATH_MAX
    ensures var reply := Listing(dents, word, data[p2..p3]);
            ReplyOk(reply) && data[p0..p3] == EncodeReply(reply)
  {
    hide Header, DentFrames;
    assert data[p0..p3] == data[p0..p1] + (data[p1..p2] + data[p2..p3]);
    ListingEncoded(dents, word, data[p2..p3]);
  }

  // ---------------------------------------------------------------------
  // Sorting by name
  // ---------------------------------------------------------------------

  /** Go's string order. */
  predicate LexLe(a: bytes, b: bytes) {
    a == [] || (b != [] && (a[0] < b[0] || (a[0] == b[0] && LexLe(a[1..], b[1..]))))
  }

  predicate NameLe(a: FileInfo, b: FileInfo) {
    LexLe(a.name, b.name)
  }

  predicate SortedByName(es: seq<FileInfo>) {
    forall i, j :: 0 <= i < j < |es| ==> NameLe(es[i], es[j])
  }

  lemma {:induction false} LexTotal(a: bytes, b: bytes)
    ensures LexLe(a, b) || LexLe(b, a)
    decreases |a|
  {
    if a != [] && b != [] {
      LexTotal(a[1..], b[1..]);
    }
  }

  lemma {:induction false} LexTransitive(a: bytes, b: bytes, c: bytes)
    requires LexLe(a, b) && LexLe(b, c)
    ensures LexLe(a, c)
    decreases |a|
  {
    if a != [] && a[0] == b[0] == c[0] {
      LexTransitive(a[1..], b[1..], c[1..]);
    }
  }

  /** The order is by the first byte that differs, and a prefix comes first. */
  lemma {:induction false} LexOrder(p: bytes, x: byte, y: byte, a: bytes, b: bytes)
    requires x < y
    ensures LexLe(p + [x] + a, p + [y] + b) && !LexLe(p + [y] + b, p + [x] + a)
    ensures LexLe(p, p + a) && (LexLe(p + a, p) <==> a == [])
    decreases |p|
  {
    if p == [] {
      assert p + [x] + a == [x] + a && p + [y] + b == [y] + b && p + a == a;
    } else {
      assert (p + [x] + a)[1..] == p[1..] + [x] + a && (p + [y] + b)[1..] == p[1..] + [y] + b;
      assert (p + a)[1..] == p[1..] + a;
      LexOrder(p[1..], x, y, a, b);
    }
  }

  method InsertByName(sorted: seq<FileInfo>, e: FileInfo) returns (r: seq<FileInfo>)
    requires SortedByName(sorted)
    ensures SortedByName(r) && multiset(r) == multiset(sorted) + multiset{e}
  {
    var k := |sorted|;
    while k > 0 && !NameLe(sorted[k - 1], e)
      invariant 0 <= k <= |sorted|
      invariant forall i :: k <= i < |sorted| ==> NameLe(e, sorted[i])
    {
      LexTotal(sorted[k - 1].name, e.name);
      k := k - 1;
    }
    forall i | 0 <= i < k
      ensures NameLe(sorted[i], e)
    {
      if i < k - 1 {
        LexTransitive(sorted[i].name, sorted[k - 1].name, e.name);
      }
    }
    InsertedAt(sorted, e, k);
    r := sorted[..k] + [e] + sorted[k..];
  }

  lemma InsertedAt(sorted: seq<FileInfo>, e: FileInfo, k: nat)
    requires SortedByName(sorted) && k <= |sorted|
    requires forall i :: 0 <= i < k ==> NameLe(sorted[i], e)
    requires forall i :: k <= i < |sorted| ==> NameLe(e, sorted[i])
    ensures var r := sorted[..k] + [e] + sorted[k..];
            SortedByName(r) && multiset(r) == multiset(sorted) + multiset{e}
  {
    hide NameLe;
    assert sorted == sorted[..k] + sorted[k..];
  }

  method SortByName(es: seq<FileInfo>) returns (r: seq<FileInfo>)
    ensures SortedByName(r) && multiset(r) == multiset(es)
  {
    r := [];
    for i := 0 to |es|
      invariant SortedByName(r) && multiset(r) == multiset(es[..i])
    {
      r := InsertByName(r, es[i]);
      assert es[..i + 1] == es[..i] + [es[i]];
    }
    assert es[..|es|] == es;
  }

  // ---------------------------------------------------------------------
  // The session
  // ---------------------------------------------------------------------

  /** What a finished Push put on the wire. */
  ghost predicate Pushed(e: Exchange, remote: bytes, mode: FileMode, mtime: u32, content: bytes) {
    && e.req.Send? && e.req.path == remote && e.req.mode == PosixMode(mode) && e.req.mtime == mtime
    && Concat(e.req.chunks) == content
  }

  /** What the daemon makes of a finished Push, whatever follows it: the path
      (commas and all), the mode, the modification time and the content. */
  lemma PushArrives(e: Exchange, remote: bytes, mode: FileMode, mtime: u32, content: bytes, rest: bytes)
    requires ExchangeOk(e) && Pushed(e, remote, mode, mtime, content)
    ensures exists chunks ::
              && ReadRequest(Encode(e.req) + rest) == Some((Send(remote, PosixMode(mode), chunks, mtime), rest))
              && Concat(chunks) == content && ChunksOk(chunks)
    ensures Sendable(mode) ==> OfPosix(PosixMode(mode)) == mode
  {
    RequestRoundTrip(e.req, rest);
    OfPosixInverts(mode);
    assert e.req == Send(remote, PosixMode(mode), e.req.chunks, mtime);
  }

  class SyncConn {
    const rd: Reader
    const wr: Writer
    const buf: array<byte>
    var broken: bool
    var closed: bool
    var busy: bool
    ghost var log: seq<Exchange>

    ghost predicate Shape()
      reads this, rd, wr
    {
      && rd.Valid() && buf.Length == HEADER_LEN + DATA_MAX && LogOk(log)
      && SentBytes(log) <= wr.sent && ReceivedBytes(log) <= rd.data[..rd.pos]
    }

    ghost predicate Aligned()
      reads this, rd, wr
      requires rd.Valid()
    {
      wr.sent == SentBytes(log) && rd.data[..rd.pos] == ReceivedBytes(log)
    }

    /** On a reply boundary, with nothing written beyond the log but the QUIT of a
        Close. */
    ghost predicate AtBoundary()
      reads this, rd, wr
      requires rd.Valid()
    {
      && rd.data[..rd.pos] == ReceivedBytes(log)
      && (wr.sent == SentBytes(log) || (closed && wr.sent == SentBytes(log) + Frame(QUIT, [])))
    }

    ghost predicate Valid()
      reads this, rd, wr
    {
      Shape() && (!broken && !busy ==> AtBoundary())
    }

    /** Flags, cursor and wire as given: what a refusal for usage leaves. */
    ghost predicate Untouched(broken0: bool, busy0: bool, pos0: nat, sent0: bytes)
      reads this, rd, wr
    {
      broken == broken0 && busy == busy0 && rd.pos == pos0 && wr.sent == sent0
    }

    constructor (rd: Reader, wr: Writer)
      requires rd.Valid() && rd.pos == 0 && wr.sent == []
      ensures Valid() && !broken && !closed && !busy && log == []
      ensures this.rd == rd && this.wr == wr && fresh(buf)
    {
      this.rd, this.wr := rd, wr;
      buf := new byte[HEADER_LEN + DATA_MAX];
      broken, closed, busy, log := false, false, false, [];
    }

    /** Another goroutine may call Close at any point of a request. The session
        is busy then, so all Close does is set the flag and fail the socket. */
    method Interrupted()
      modifies this`closed
      ensures old(closed) ==> closed
    {
      if * {
        closed := true;
      }
    }

    method Begin() returns (ok: bool)
      modifies this`busy
      ensures ok <==> !closed && !broken && !old(busy)
      ensures busy == (ok || old(busy))
    {
      ok := !closed && !broken && !busy;
      if ok {
        busy := true;
      }
    }

    /** Write p in full, or finish the session. */
    method Write(p: bytes) returns (ok: bool)
      modifies wr, this`broken, this`closed
      ensures ok ==> wr.sent == old(wr.sent) + p && broken == old(broken)
      ensures !ok ==> broken
      ensures old(wr.sent) <= wr.sent <= old(wr.sent) + p
      ensures old(wr.Reliable()) ==> ok && wr.Reliable()
    {
      var rest := p;
      while rest != []
        invariant wr.sent + rest == old(wr.sent) + p && broken == old(broken)
        invariant old(wr.sent) <= wr.sent
        invariant old(wr.Reliable()) ==> wr.Reliable()
        decreases |rest|, |wr.script|
      {
        Interrupted();
        var n, wrote := wr.Write(rest);
        assert wr.sent + rest[n..] == old(wr.sent) + p;
        if !wrote {
          broken := true;
          return false;
        }
        rest := rest[n..];
      }
      return true;
    }

    method WriteRequest(id: syncId, payload: bytes) returns (r: Outcome)
      modifies wr, this`broken, this`closed
      ensures r in {Finished, BadUsage, WireFailed}
      ensures r == BadUsage <==> |payload| > PATH_MAX
      ensures r == BadUsage ==> wr.sent == old(wr.sent)
      ensures r != WireFailed ==> broken == old(broken)
      ensures r == Finished ==> wr.sent == old(wr.sent) + Frame(id, payload)
      ensures r == WireFailed ==> broken && old(wr.sent) <= wr.sent
      ensures old(wr.Reliable()) ==> r != WireFailed && wr.Reliable()
    {
      if |payload| > PATH_MAX {
        return BadUsage;
      }
      var ok := Write(Frame(id, payload));
      return if ok then Finished else WireFailed;
    }

    /** io.ReadFull of n bytes into the staging buffer. */
    method Fill(n: nat) returns (ok: bool)
      requires rd.Valid() && n <= buf.Length
      modifies rd, buf, this`broken, this`closed
      ensures rd.Valid() && old(rd.pos) <= rd.pos
      ensures ok ==> rd.pos == old(rd.pos) + n && buf[..n] == rd.data[old(rd.pos)..rd.pos] && broken == old(broken)
      ensures !ok ==> broken
      ensures ok <==> old(rd.pos) + n <= |rd.data|
    {
      Interrupted();
      var err := rd.ReadFull(buf, n);
      ok := err == NoError;
      if !ok {
        broken := true;
      }
    }

    /** io.ReadFull into a small buffer of its own. */
    method ReadSmall(n: nat) returns (ok: bool, got: bytes)
      requires rd.Valid()
      modifies rd, this`broken, this`closed
      ensures rd.Valid() && old(rd.pos) <= rd.pos
      ensures ok ==>
                rd.pos == old(rd.pos) + n && got == rd.data[old(rd.pos)..rd.pos] && |got| == n && broken == old(broken)
      ensures !ok ==> broken
      ensures ok <==> old(rd.pos) + n <= |rd.data|
    {
      var small := new byte[n];
      Interrupted();
      var err := rd.ReadFull(small, n);
      ok, got := err == NoError, small[..];
      assert small[..n] == small[..];
      if !ok {
        broken := true;
      }
    }

    method ReadHead() returns (ok: bool, id: syncId, word: u32)
      requires rd.Valid()
      modifies rd, this`broken, this`closed
      ensures rd.Valid() && old(rd.pos) <= rd.pos
      ensures ok ==> rd.pos == old(rd.pos) + HEADER_LEN && broken == old(broken)
      ensures ok ==> rd.data[old(rd.pos)..rd.pos] == Header(id, word)
      ensures ok ==>
                HeadIs(rd.data[old(rd.pos)..], id, word) && rd.data[old(rd.pos)..][HEADER_LEN..] == rd.data[rd.pos..]
      ensures !ok ==> broken
      ensures ok <==> |rd.data[old(rd.pos)..]| >= HEADER_LEN
    {
      id, word := FAIL, 0;
      var hdr;
      ghost var p := rd.pos;
      ok, hdr := ReadSmall(HEADER_LEN);
      if ok {
        id, word := IdOf(hdr), WordOf(hdr);
        HeaderOf(hdr);
        assert hdr[HEADER_LEN..] == [];
        assert rd.data[p..] == Header(id, word) + rd.data[rd.pos..];
        ReadHeader(id, word, rd.data[rd.pos..]);
      }
    }

    /** The message after a FAIL. Whatever it says, the session is finished. */
    method ReadRefusal(n: u32) returns (r: Outcome, reason: bytes)
      requires rd.Valid() && buf.Length == HEADER_LEN + DATA_MAX
      modifies rd, buf, this`broken, this`closed
      ensures rd.Valid() && old(rd.pos) <= rd.pos && broken
      ensures r in {Refused, BadFrame, WireFailed}
      ensures r == Refused ==> rd.pos == old(rd.pos) + n && reason == rd.data[old(rd.pos)..rd.pos]
      ensures r == FailVerdict(rd.data[old(rd.pos)..], n)
    {
      reason := [];
      if n > DATA_MAX {
        r := BadFrame;
      } else {
        var ok := Fill(n);
        r := if ok then Refused else WireFailed;
        reason := buf[..n];
      }
      broken := true;
    }

    method PutHeader(id: syncId, word: u32)
      requires buf.Length >= HEADER_LEN
      modifies buf
      ensures buf[..HEADER_LEN] == Header(id, word)
      ensures buf[HEADER_LEN..] == old(buf[HEADER_LEN..])
    {
      var h := Header(id, word);
      forall i | 0 <= i < HEADER_LEN {
        buf[i] := h[i];
      }
    }

    /** Whether a request on this path gets as far as being written. */
    ghost predicate Admits(path: bytes)
      reads this
    {
      ValidPath(path) && !closed && !broken && !busy
    }

    /** State of a request that has claimed the session and written nothing. */
    ghost predicate Claimed()
      reads this, rd, wr
    {
      Shape() && Aligned() && busy && !broken
    }

    /** Records a request written in full and answered in full. */
    ghost method Record(e: Exchange, sent0: bytes, pos0: nat)
      requires rd.Valid() && pos0 <= rd.pos && LogOk(log) && ExchangeOk(e)
      requires sent0 == SentBytes(log) && rd.data[..pos0] == ReceivedBytes(log)
      requires wr.sent == sent0 + Encode(e.req)
      requires rd.data[pos0..rd.pos] == EncodeReply(e.reply)
      modifies this`log
      ensures log == old(log) + [e] && LogOk(log) && Aligned()
    {
      hide Encode, EncodeReply, RequestOk, ReplyOk;
      LogSnoc(log, e);
      assert rd.data[..rd.pos] == rd.data[..pos0] + rd.data[pos0..rd.pos];
      log := log + [e];
    }

    // -------------------------------------------------------------------
    // Push
    // -------------------------------------------------------------------

    /** Stream the source as DATA chunks through the staging buffer. */
    method SendChunks(src: Source, patience: nat) returns (r: Outcome, ghost chunks: seq<bytes>)
      requires buf.Length == HEADER_LEN + DATA_MAX
      modifies wr, buf, src, this`broken, this`closed
      ensures r in {Finished, WireFailed, Canceled, SourceBroke}
      ensures old(wr.sent) <= wr.sent
      ensures r != Finished ==> broken
      ensures r == Finished ==>
                && broken == old(broken) && ChunksOk(chunks)
                && wr.sent == old(wr.sent) + DataFrames(chunks)
                && src.yielded == old(src.yielded) + Concat(chunks)
      ensures old(wr.Reliable()) ==> r == SourceVerdict(old(src.script), patience) && wr.Reliable()
    {
      hide Frame, Header, DataFrames, Concat;
      NoChunks();
      chunks := [];
      r := Finished;
      var left := patience;
      while true
        invariant broken == old(broken) && ChunksOk(chunks)
        invariant SourceVerdict(src.script, left) == SourceVerdict(old(src.script), patience)
        invariant old(wr.Reliable()) ==> wr.Reliable()
        invariant wr.sent == old(wr.sent) + DataFrames(chunks)
        invariant src.yielded == old(src.yielded) + Concat(chunks)
        decreases |src.script|
      {
        // A source with nothing more to say is waited for until the context ends.
        if left == 0 || src.script == [] {
          broken := true;
          return Canceled, chunks;
        }
        left := left - 1;
        var n, end := src.Read(buf, HEADER_LEN);
        if n > 0 {
          ghost var chunk := buf[HEADER_LEN..HEADER_LEN + n];
          var ok := SendChunk(n, chunk);
          if !ok {
            return WireFailed, chunks;
          }
          DataFramesSnoc(chunks, chunk);
          ConcatSnoc(chunks, chunk);
          chunks := chunks + [chunk];
        } else {
          assert buf[HEADER_LEN..HEADER_LEN + n] == [];
        }
        if end == AtEof {
          break;
        } else if end == SourceFailed {
          broken := true;
          return SourceBroke, chunks;
        }
      }
    }

    /** One chunk is one write, header and payload from the same buffer. */
    method SendChunk(n: nat, ghost chunk: bytes) returns (ok: bool)
      requires buf.Length == HEADER_LEN + DATA_MAX && 0 < n <= DATA_MAX
      requires chunk == buf[HEADER_LEN..HEADER_LEN + n]
      modifies wr, buf, this`broken, this`closed
      ensures ok ==> wr.sent == old(wr.sent) + Frame(DATA, chunk) && broken == old(broken)
      ensures !ok ==> broken && old(wr.sent) <= wr.sent
      ensures old(wr.Reliable()) ==> ok && wr.Reliable()
    {
      hide Header, Frame, Len;
      PutHeader(DATA, n);
      assert buf[..HEADER_LEN + n] == buf[..HEADER_LEN] + buf[HEADER_LEN..][..n];
      assert buf[HEADER_LEN..][..n] == chunk;
      DataFrameIs(n, chunk);
      ok := Write(buf[..HEADER_LEN + n]);
    }

    /** The OKAY or FAIL that ends a SEND. */
    method ReadOutcome() returns (r: Outcome, word: u32)
      requires rd.Valid() && buf.Length == HEADER_LEN + DATA_MAX
      modifies rd, buf, this`broken, this`closed
      ensures rd.Valid() && old(rd.pos) <= rd.pos
      ensures r in {Finished, WireFailed, BadFrame, Refused}
      ensures r == Finished ==> broken == old(broken) && rd.data[old(rd.pos)..rd.pos] == Header(OKAY, word)
      ensures r != Finished ==> broken
      ensures r == SendVerdict(rd.data[old(rd.pos)..])
    {
      hide Header, IdOf, WordOf;
      var ok, id;
      ok, id, word := ReadHead();
      if !ok {
        r := WireFailed;
      } else if id == OKAY {
        r := Finished;
      } else if id == FAIL {
        var reason;
        r, reason := ReadRefusal(word);
      } else {
        broken := true;
        r := BadFrame;
      }
    }

    method PushClaimed(src: Source, remote: bytes, mode: FileMode, mtime: u32, patience: nat) returns (r: Outcome)
      requires Claimed()
      modifies this`broken, this`closed, this`log, rd, wr, buf, src
      ensures Shape() && (broken || Aligned())
      ensures r == Finished ==> !broken && |log| == |old(log)| + 1 && log[..|old(log)|] == old(log)
      ensures r == Finished ==> old(src.yielded) <= src.yielded
      ensures r == Finished ==> Pushed(log[|old(log)|], remote, mode, mtime, src.yielded[|old(src.yielded)|..])
      ensures r != Finished ==> log == old(log)
      ensures r == BadUsage ==> !broken && rd.pos == old(rd.pos) && wr.sent == old(wr.sent)
      ensures r !in {Finished, BadUsage} ==> broken
      ensures r == BadUsage <==> |SendSpec(remote, PosixMode(mode))| > PATH_MAX
      ensures old(wr.Reliable()) && r != BadUsage ==>
                r == PushVerdict(old(src.script), patience, rd.data[old(rd.pos)..])
    {
      hide Frame, Header, DataFrames, SendVerdict, SourceVerdict, SendSpec, SentBytes, ReceivedBytes, LogOk;
      var spec := SendSpec(remote, PosixMode(mode));
      r := WriteRequest(SEND, spec);
      if r != Finished {
        return;
      }
      ghost var chunks;
      r, chunks := SendChunks(src, patience);
      if r != Finished {
        return;
      }
      assert src.yielded[|old(src.yielded)|..] == Concat(chunks);
      PutHeader(DONE, mtime);
      var ok := Write(buf[..HEADER_LEN]);
      if !ok {
        return WireFailed;
      }
      ghost var req := Send(remote, PosixMode(mode), chunks, mtime);
      assert wr.sent == old(wr.sent) + Encode(req);
      var word;
      r, word := ReadOutcome();
      if r == Finished {
        Record(Exchange(req, Okay(word)), old(wr.sent), old(rd.pos));
      } else {
        assert rd.data[..old(rd.pos)] <= rd.data[..rd.pos];
      }
    }

    /** Push streams src to remote, creating it with mode. When it finishes, the
        log gained a SEND of exactly that path, mode and content; when it is
        refused for usage nothing was written; otherwise the session is done. */
    method Push(src: Source, remote: bytes, mode: FileMode, mtime: u32, patience: nat) returns (r: Outcome)
      requires Valid()
      modifies this, rd, wr, buf, src
      ensures Valid() && busy == old(busy)
      ensures r == Finished ==> !broken && |log| == |old(log)| + 1 && log[..|old(log)|] == old(log)
      ensures r == Finished ==> old(src.yielded) <= src.yielded
      ensures r == Finished ==> Pushed(log[|old(log)|], remote, mode, mtime, src.yielded[|old(src.yielded)|..])
      ensures r != Finished ==> log == old(log)
      ensures r == BadUsage ==> Untouched(old(broken), old(busy), old(rd.pos), old(wr.sent))
      ensures r !in {Finished, BadUsage} ==> broken
      ensures r == BadUsage <==> !old(Admits(remote)) || |SendSpec(remote, PosixMode(mode))| > PATH_MAX
      ensures old(wr.Reliable()) && r != BadUsage ==>
                r == PushVerdict(old(src.script), patience, rd.data[old(rd.pos)..])
    {
      hide SendSpec, PushVerdict;
      if !ValidPath(remote) {
        return BadUsage;
      }
      var ok := Begin();
      if !ok {
        return BadUsage;
      }
      r := PushClaimed(src, remote, mode, mtime, patience);
      busy := false;
    }

    // -------------------------------------------------------------------
    // Pull
    // -------------------------------------------------------------------

    /** One chunk: checked before its length is used, then read and handed on. */
    method TakeChunk(sink: Sink, n: u32) returns (r: Outcome, ghost chunk: bytes)
      requires rd.Valid() && buf.Length == HEADER_LEN + DATA_MAX
      modifies rd, buf, sink, this`broken, this`closed
      ensures rd.Valid() && old(rd.pos) <= rd.pos
      ensures r in {Finished, WireFailed, BadFrame, SinkBroke}
      ensures r == Finished ==>
                && n <= DATA_MAX && |chunk| == n && rd.pos == old(rd.pos) + n && broken == old(broken)
                && chunk == rd.data[old(rd.pos)..rd.pos] && sink.got == old(sink.got) + chunk
      ensures r != Finished ==> broken
      ensures r != Finished ==> old(sink.got) <= sink.got
      ensures r in {WireFailed, BadFrame} ==> sink.got == old(sink.got)
      ensures r == SinkBroke ==>
                && n <= DATA_MAX && old(rd.pos) + n <= |rd.data|
                && sink.got <= old(sink.got) + rd.data[old(rd.pos)..old(rd.pos) + n]
      ensures r == BadFrame <==> n > DATA_MAX
      ensures r == WireFailed <==> n <= DATA_MAX && old(rd.pos) + n > |rd.data|
      ensures old(sink.Reliable(DATA_MAX)) ==> r != SinkBroke && sink.Reliable(DATA_MAX)
    {
      chunk := [];
      if n > DATA_MAX {
        broken := true;
        return BadFrame, chunk;
      }
      if n == 0 {
        return Finished, chunk;
      }
      var ok := Fill(n);
      if !ok {
        return WireFailed, chunk;
      }
      chunk := buf[..n];
      var wrote;
      var nw;
      ghost var steady := sink.Reliable(DATA_MAX);
      nw, wrote := sink.Write(buf[..n]);
      if wrote && nw == n {
        assert buf[..n][..nw] == buf[..n];
        r := Finished;
      } else {
        broken := true;
        r := SinkBroke;
      }
    }

    /** One frame of a RECV's answer. `more` says a chunk arrived whole and was
        handed to the sink; otherwise r says how the answer ended. */
    method ReceiveFrame(sink: Sink) returns (r: Outcome, more: bool, ghost chunk: bytes, word: u32)
      requires rd.Valid() && buf.Length == HEADER_LEN + DATA_MAX
      modifies rd, buf, sink, this`broken, this`closed
      ensures rd.Valid() && old(rd.pos) <= rd.pos
      ensures r in {Finished, WireFailed, BadFrame, SinkBroke, Refused}
      ensures r != Finished ==> broken && !more
      ensures r == Finished ==> broken == old(broken) && old(rd.pos) < rd.pos
      ensures more ==>
                && |chunk| <= DATA_MAX && sink.got == old(sink.got) + chunk
                && rd.data[old(rd.pos)..rd.pos] == Frame(DATA, chunk)
                && LeadingPayload(rd.data[old(rd.pos)..]) == chunk + LeadingPayload(rd.data[rd.pos..])
      ensures r == Finished && !more ==>
                && rd.data[old(rd.pos)..rd.pos] == Header(DONE, word)
                && LeadingPayload(rd.data[old(rd.pos)..]) == []
      ensures !more ==> old(sink.got) <= sink.got <= old(sink.got) + LeadingPayload(rd.data[old(rd.pos)..])
      ensures r == Finished && !more ==> sink.got == old(sink.got)
      ensures old(sink.Reliable(DATA_MAX)) ==> r != SinkBroke && sink.Reliable(DATA_MAX)
      ensures r != SinkBroke ==>
                PullVerdict(rd.data[old(rd.pos)..]) == if more then PullVerdict(rd.data[rd.pos..]) else r
    {
      hide Frame, Header, LeadingPayload, IdOf, WordOf;
      ghost var p := rd.pos;
      r, more, chunk, word := WireFailed, false, [], 0;
      var ok, id, n := ReadHead();
      if !ok {
        return;
      }
      if id == DATA {
        r, chunk := TakeChunk(sink, n);
        more := r == Finished;
        if r == Finished || r == SinkBroke {
          DataFrameAt(rd.data, p, n);
        }
      } else if id == DONE {
        NoDataAt(rd.data, p, n);
        r, word := Finished, n;
      } else if id == FAIL {
        var reason;
        r, reason := ReadRefusal(n);
      } else {
        broken := true;
        r := BadFrame;
      }
    }

    /** The DATA frames of a RECV, up to its DONE or FAIL. */
    method ReceiveChunks(sink: Sink) returns (r: Outcome, ghost chunks: seq<bytes>, word: u32)
      requires rd.Valid() && buf.Length == HEADER_LEN + DATA_MAX
      modifies rd, buf, sink, this`broken, this`closed
      ensures rd.Valid() && old(rd.pos) <= rd.pos
      ensures r in {Finished, WireFailed, BadFrame, SinkBroke, Refused}
      ensures r != Finished ==> broken
      ensures r == Finished ==>
                && broken == old(broken) && FramesOk(chunks)
                && rd.data[old(rd.pos)..rd.pos] == DataFrames(chunks) + Header(DONE, word)
                && sink.got == old(sink.got) + Concat(chunks)
                && Concat(chunks) == LeadingPayload(rd.data[old(rd.pos)..])
      ensures old(sink.got) <= sink.got <= old(sink.got) + LeadingPayload(rd.data[old(rd.pos)..])
      ensures r != SinkBroke ==> r == PullVerdict(rd.data[old(rd.pos)..])
      ensures old(sink.Reliable(DATA_MAX)) ==> r != SinkBroke
    {
      hide Frame, Header, LeadingPayload, PullVerdict, DataFrames, Concat;
      NoChunks();
      ghost var p0, whole := rd.pos, LeadingPayload(rd.data[rd.pos..]);
      chunks, word, r := [], 0, Finished;
      var more := true;
      while more
        invariant rd.Valid() && p0 <= rd.pos && FramesOk(chunks)
        invariant r in {Finished, WireFailed, BadFrame, SinkBroke, Refused}
        invariant if r == Finished then broken == old(broken) else broken && !more
        invariant more ==> rd.data[p0..rd.pos] == DataFrames(chunks)
        invariant r == Finished && !more ==> rd.data[p0..rd.pos] == DataFrames(chunks) + Header(DONE, word)
        invariant r == Finished ==> sink.got == old(sink.got) + Concat(chunks)
        invariant more ==> whole == Concat(chunks) + LeadingPayload(rd.data[rd.pos..])
        invariant r == Finished && !more ==> whole == Concat(chunks)
        invariant !more ==> old(sink.got) <= sink.got <= old(sink.got) + whole
        invariant r != SinkBroke ==> PullVerdict(rd.data[p0..]) == if more then PullVerdict(rd.data[rd.pos..]) else r
        invariant old(sink.Reliable(DATA_MAX)) ==> r != SinkBroke && sink.Reliable(DATA_MAX)
        decreases more, |rd.data| - rd.pos
      {
        ghost var p1 := rd.pos;
        ghost var chunk;
        r, more, chunk, word := ReceiveFrame(sink);
        assert rd.data[p0..rd.pos] == rd.data[p0..p1] + rd.data[p1..rd.pos];
        if more {
          DataFramesSnoc(chunks, chunk);
          ConcatSnoc(chunks, chunk);
          chunks := chunks + [chunk];
        }
      }
    }

    method PullClaimed(sink: Sink, remote: bytes) returns (r: Outcome)
      requires Claimed()
      modifies this`broken, this`closed, this`log, rd, wr, buf, sink
      ensures Shape() && (broken || Aligned())
      ensures r == Finished ==> exists chunks, word ::
                  && !broken && log == old(log) + [Exchange(Recv(remote), File(chunks, word))]
                  && sink.got == old(sink.got) + Concat(chunks)
      ensures r == Finished ==> sink.got == old(sink.got) + LeadingPayload(rd.data[old(rd.pos)..])
      ensures old(sink.got) <= sink.got <= old(sink.got) + LeadingPayload(rd.data[old(rd.pos)..])
      ensures r != Finished ==> log == old(log)
      ensures r == BadUsage ==> !broken && rd.pos == old(rd.pos) && wr.sent == old(wr.sent) && sink.got == old(sink.got)
      ensures r !in {Finished, BadUsage} ==> broken
      ensures r == BadUsage <==> |remote| > PATH_MAX
      ensures old(wr.Reliable() && sink.Reliable(DATA_MAX)) && r != BadUsage ==>
                r == PullVerdict(rd.data[old(rd.pos)..])
    {
      hide Frame, Header, DataFrames, LeadingPayload, PullVerdict, SentBytes, ReceivedBytes, LogOk;
      r := WriteRequest(RECV, remote);
      if r != Finished {
        return;
      }
      ghost var chunks, req := [], Recv(remote);
      assert wr.sent == old(wr.sent) + Encode(req);
      var word;
      r, chunks, word := ReceiveChunks(sink);
      if r == Finished {
        Record(Exchange(req, File(chunks, word)), old(wr.sent), old(rd.pos));
      } else {
        assert rd.data[..old(rd.pos)] <= rd.data[..rd.pos];
      }
    }

    /** Pull streams remote into the sink. When it finishes the sink gained
        exactly the DATA payloads up to DONE; whenever it fails the sink gained
        a prefix of the payloads the stream holds. */
    method Pull(sink: Sink, remote: bytes) returns (r: Outcome)
      requires Valid()
      modifies this, rd, wr, buf, sink
      ensures Valid() && busy == old(busy)
      ensures r == Finished ==> exists chunks, word ::
                  && !broken && log == old(log) + [Exchange(Recv(remote), File(chunks, word))]
                  && sink.got == old(sink.got) + Concat(chunks)
      ensures r == Finished ==> sink.got == old(sink.got) + LeadingPayload(rd.data[old(rd.pos)..])
      ensures old(sink.got) <= sink.got <= old(sink.got) + LeadingPayload(rd.data[old(rd.pos)..])
      ensures r != Finished ==> log == old(log)
      ensures r == BadUsage ==>
                Untouched(old(broken), old(busy), old(rd.pos), old(wr.sent)) && sink.got == old(sink.got)
      ensures r !in {Finished, BadUsage} ==> broken
      ensures r == BadUsage <==> !old(Admits(remote))
      ensures old(wr.Reliable() && sink.Reliable(DATA_MAX)) && r != BadUsage ==>
                r == PullVerdict(rd.data[old(rd.pos)..])
    {
      hide LeadingPayload, PullVerdict;
      if !ValidPath(remote) {
        return BadUsage;
      }
      var ok := Begin();
      if !ok {
        return BadUsage;
      }
      r := PullClaimed(sink, remote);
      busy := false;
    }

    // -------------------------------------------------------------------
    // Stat
    // -------------------------------------------------------------------

    method StatClaimed(remote: bytes) returns (r: Outcome, info: Option<FileInfo>)
      requires Claimed()
      modifies this`broken, this`closed, this`log, rd, wr, buf
      ensures Shape() && (broken || Aligned())
      ensures r == Finished ==> exists mode, size, mtime ::
                  && !broken && log == old(log) + [Exchange(SyncWire.Stat(remote), Lstat(mode, size, mtime))]
                  && info == Some(FileInfoFromWire(remote, BaseName(remote), mode, size, mtime))
      ensures r == Finished ==> Told(rd.data, old(rd.pos), remote, info)
      ensures r != Finished ==> log == old(log) && info == None
      ensures r == BadUsage ==> !broken && rd.pos == old(rd.pos) && wr.sent == old(wr.sent)
      ensures r !in {Finished, BadUsage} ==> broken
      ensures r == BadUsage <==> |remote| > PATH_MAX
      ensures old(wr.Reliable()) && r != BadUsage ==> r == StatVerdict(rd.data[old(rd.pos)..])
    {
      hide Frame, Header, SentBytes, ReceivedBytes, LogOk, FileInfoFromWire, PutU32, GetU32, IdOf, WordOf, BaseName,
           Tells;
      info := None;
      r := WriteRequest(STAT, remote);
      if r != Finished {
        return;
      }
      ghost var req := SyncWire.Stat(remote);
      assert wr.sent == old(wr.sent) + Encode(req);
      var ok, id, mode := ReadHead();
      if !ok {
        return WireFailed, None;
      }
      if id == FAIL {
        var reason;
        r, reason := ReadRefusal(mode);
        return;
      } else if id != STAT {
        broken := true;
        return BadFrame, None;
      }
      ghost var p1 := rd.pos;
      var rest;
      ok, rest := ReadSmall(8);
      if !ok {
        return WireFailed, None;
      }
      var size, mtime := GetU32(rest[..4]), GetU32(rest[4..8]);
      PutGet(rest[..4]);
      PutGet(rest[4..8]);
      assert rest == PutU32(size) + PutU32(mtime);
      WireTells(remote, BaseName(remote), mode, size, mtime);
      LstatWords(rd.data, old(rd.pos), mode, rest);
      assert rd.data[old(rd.pos)..rd.pos] == rd.data[old(rd.pos)..p1] + rd.data[p1..rd.pos];
      Record(Exchange(req, Lstat(mode, size, mtime)), old(wr.sent), old(rd.pos));
      return Finished, Some(FileInfoFromWire(remote, BaseName(remote), mode, size, mtime));
    }

    /** Stat reports the three words of the LSTAT reply that was read in full. */
    method Stat(remote: bytes) returns (r: Outcome, info: Option<FileInfo>)
      requires Valid()
      modifies this, rd, wr, buf
      ensures Valid() && busy == old(busy)
      ensures r == Finished ==> exists mode, size, mtime ::
                  && !broken && log == old(log) + [Exchange(SyncWire.Stat(remote), Lstat(mode, size, mtime))]
                  && info == Some(FileInfoFromWire(remote, BaseName(remote), mode, size, mtime))
      ensures r == Finished ==> Told(rd.data, old(rd.pos), remote, info)
      ensures r != Finished ==> log == old(log) && info == None
      ensures r == BadUsage ==> Untouched(old(broken), old(busy), old(rd.pos), old(wr.sent))
      ensures r !in {Finished, BadUsage} ==> broken
      ensures r == BadUsage <==> !old(Admits(remote))
      ensures old(wr.Reliable()) && r != BadUsage ==> r == StatVerdict(rd.data[old(rd.pos)..])
    {
      hide StatVerdict, Told, BaseName, FileInfoFromWire, SentBytes, ReceivedBytes, LogOk;
      if !ValidPath(remote) {
        return BadUsage, None;
      }
      var ok := Begin();
      if !ok {
        return BadUsage, None;
      }
      r, info := StatClaimed(remote);
      busy := false;
    }

    // -------------------------------------------------------------------
    // List
    // -------------------------------------------------------------------

    /** The rest of a DENT whose header has been read. */
    method TakeDent(mode: u32) returns (r: Outcome, d: Dent)
      requires rd.Valid() && buf.Length == HEADER_LEN + DATA_MAX
      modifies rd, buf, this`broken, this`closed
      ensures rd.Valid() && old(rd.pos) <= rd.pos
      ensures r in {Finished, WireFailed, BadFrame}
      ensures r == Finished ==>
                && broken == old(broken) && d.mode == mode && |d.name| <= PATH_MAX
                && rd.data[old(rd.pos)..rd.pos] == DentTail(d.size, d.mtime, Len(d.name)) + d.name
      ensures r != Finished ==> broken
      ensures r == DentVerdict(rd.data[old(rd.pos)..])
      ensures r == Finished ==>
                var t := rd.data[old(rd.pos)..];
                rd.data[rd.pos..] == t[12 + NameLen(t)..]
    {
      hide PutU32, GetU32;
      d := Dent(mode, 0, 0, []);
      var ok, tail := ReadSmall(12);
      if !ok {
        return WireFailed, d;
      }
      var size, mtime, n := GetU32(tail[..4]), GetU32(tail[4..8]), GetU32(tail[8..12]);
      PutGet(tail[..4]);
      PutGet(tail[4..8]);
      PutGet(tail[8..12]);
      assert tail == DentTail(size, mtime, n);
      assert rd.data[old(rd.pos)..][8..12] == tail[8..12];
      if n > PATH_MAX {
        broken := true;
        return BadFrame, d;
      }
      ghost var p1 := rd.pos;
      ok := Fill(n);
      if !ok {
        return WireFailed, d;
      }
      d := Dent(mode, size, mtime, buf[..n]);
      assert rd.data[old(rd.pos)..rd.pos] == rd.data[old(rd.pos)..p1] + rd.data[p1..rd.pos];
      r := Finished;
    }

    /** A listing's FAIL: the daemon may say that way too that there is nothing. */
    method ReadListRefusal(n: u32) returns (r: Outcome)
      requires rd.Valid() && buf.Length == HEADER_LEN + DATA_MAX
      modifies rd, buf, this`broken, this`closed
      ensures rd.Valid() && old(rd.pos) <= rd.pos && broken
      ensures r in {WireFailed, BadFrame, Refused, RefusedAbsent}
      ensures r == ListFailVerdict(rd.data[old(rd.pos)..], n)
    {
      hide AbsentReason;
      var reason;
      ghost var p := rd.pos;
      r, reason := ReadRefusal(n);
      if r == Refused {
        SliceFrom(rd.data, p, rd.pos);
        if AbsentReason(reason) {
          r := RefusedAbsent;
        }
      }
    }

    /** The DENTs of a LIST, up to its 20-byte DONE or a FAIL. */
    method ReceiveDents(dir: bytes) returns (r: Outcome, entries: seq<FileInfo>, raw: nat, ghost reply: Reply)
      requires rd.Valid() && buf.Length == HEADER_LEN + DATA_MAX
      modifies rd, buf, this`broken, this`closed
      ensures rd.Valid() && old(rd.pos) <= rd.pos
      ensures r in {Finished, WireFailed, BadFrame, Refused, RefusedAbsent}
      ensures r != Finished ==> broken
      ensures ListVerdict(rd.data[old(rd.pos)..], false) == if r == Finished && raw == 0 then NotThere else r
      ensures r == Finished ==>
                && broken == old(broken) && reply.Listing? && ReplyOk(reply)
                && rd.data[old(rd.pos)..rd.pos] == EncodeReply(reply)
                && raw == |reply.dents| && entries == Entries(dir, reply.dents)
    {
      hide Header, DentTail, Len, FileInfoFromWire, JoinRemote, AbsentReason, Entries, DentFrames, ReplyOk, EncodeReply,
           ListVerdict, DentVerdict, NameLen, ListFailVerdict, HeadIs, DentFrame;
      ListingEncoded([], 0, []);
      ghost var p0 := rd.pos;
      ghost var dents: seq<Dent> := [];
      entries, raw, reply := [], 0, Okay(0);
      while true
        invariant rd.Valid() && p0 <= rd.pos && broken == old(broken)
        invariant forall i :: 0 <= i < |dents| ==> |dents[i].name| <= PATH_MAX
        invariant rd.data[p0..rd.pos] == DentFrames(dents)
        invariant raw == |dents| && entries == Entries(dir, dents)
        invariant ListVerdict(rd.data[p0..], false) == ListVerdict(rd.data[rd.pos..], raw > 0)
        decreases |rd.data| - rd.pos
      {
        ghost var p1 := rd.pos;
        var ok, id, second := ReadHead();
        if !ok {
          r := WireFailed;
          ListUnfolds(rd.data[p1..], raw > 0, FAIL, 0);
          return;
        }
        ghost var p2 := rd.pos;
        ListUnfolds(rd.data[p1..], raw > 0, id, second);
        if id == DENT {
          var d;
          r, d := TakeDent(second);
          if r != Finished {
            return;
          }
          DentArrived(rd.data, p0, p1, p2, rd.pos, dents, d);
          EntriesSnoc(dir, dents, d);
          dents, raw := dents + [d], raw + 1;
          if d.name != DOT && d.name != DOT_DOT {
            entries := entries + [FileInfoFromWire(JoinRemote(dir, d.name), d.name, d.mode, d.size, d.mtime)];
          }
        } else if id == DONE {
          var tail;
          ok, tail := ReadSmall(12);
          if !ok {
            r := WireFailed;
            return;
          }
          DoneArrived(rd.data, p0, p1, p2, rd.pos, dents, second);
          r, reply := Finished, Listing(dents, second, tail);
          return;
        } else if id == FAIL {
          r := ReadListRefusal(second);
          return;
        } else {
          broken := true;
          r := BadFrame;
          return;
        }
      }
    }

    method ListClaimed(dir: bytes) returns (r: Outcome, entries: seq<FileInfo>)
      requires Claimed()
      modifies this`broken, this`closed, this`log, rd, wr, buf
      ensures Shape() && (broken || Aligned())
      ensures r == Finished ==> !broken && Listed(old(log), log, dir, entries)
      ensures r == NotThere ==> !broken && ListedNothing(old(log), log, dir)
      ensures r !in {Finished, NotThere} ==> log == old(log)
      ensures r == BadUsage <==> |dir| > PATH_MAX
      ensures old(wr.Reliable()) && r != BadUsage ==> r == ListVerdict(rd.data[old(rd.pos)..], false)
      ensures r == BadUsage ==> !broken && rd.pos == old(rd.pos) && wr.sent == old(wr.sent)
      ensures r !in {Finished, BadUsage, NotThere} ==> broken
    {
      hide Frame, Header, DentFrames, SentBytes, ReceivedBytes, LogOk, Entries, NamedDents, EntriesOf, ListVerdict;
      entries := [];
      r := WriteRequest(LIST, dir);
      if r != Finished {
        return;
      }
      ghost var req := SyncWire.List(dir);
      assert wr.sent == old(wr.sent) + Encode(req);
      var raw;
      ghost var reply;
      r, entries, raw, reply := ReceiveDents(dir);
      if r != Finished {
        assert rd.data[..old(rd.pos)] <= rd.data[..rd.pos];
        return;
      }
      Record(Exchange(req, reply), old(wr.sent), old(rd.pos));
      if raw == 0 {
        r := NotThere;
      } else {
        EntriesTell(dir, reply.dents);
        entries := SortByName(entries);
        assert multiset(entries) == multiset(Entries(dir, reply.dents));
      }
    }

    /** List reports a directory's entries sorted by name. A listing without a
        single DENT is "no such directory", and leaves the session usable. */
    method List(dir: bytes) returns (r: Outcome, entries: seq<FileInfo>)
      requires Valid()
      modifies this, rd, wr, buf
      ensures Valid() && busy == old(busy)
      ensures r == Finished ==> !broken && Listed(old(log), log, dir, entries)
      ensures r == NotThere ==> !broken && ListedNothing(old(log), log, dir)
      ensures r !in {Finished, NotThere} ==> log == old(log)
      ensures r == BadUsage <==> !old(Admits(dir))
      ensures old(wr.Reliable()) && r != BadUsage ==> r == ListVerdict(rd.data[old(rd.pos)..], false)
      ensures r == BadUsage ==> Untouched(old(broken), old(busy), old(rd.pos), old(wr.sent))
      ensures r !in {Finished, BadUsage, NotThere} ==> broken
    {
      if !ValidPath(dir) {
        return BadUsage, [];
      }
      var ok := Begin();
      if !ok {
        return BadUsage, [];
      }
      r, entries := ListClaimed(dir);
      busy := false;
    }

    // -------------------------------------------------------------------
    // Close
    // -------------------------------------------------------------------

    /** Close says QUIT only on a session nobody is using and nothing broke. */
    method Close()
      requires Valid()
      modifies this`closed, this`broken, wr
      ensures Valid() && closed && log == old(log)
      ensures old(closed || broken || busy) ==> wr.sent == old(wr.sent) && broken == old(broken)
      ensures old(wr.sent) <= wr.sent
      ensures !old(closed || broken || busy) && !broken ==> wr.sent == old(wr.sent) + Frame(QUIT, [])
    {
      var quit := !closed && !broken && !busy;
      closed := true;
      if quit {
        var r := WriteRequest(QUIT, []);
      }
      closed := true;
    }
  }

  /** How a listing answered: the log gained it, and the entries are its named
      DENTs in name order. */
  ghost predicate Listed(before: seq<Exchange>, after: seq<Exchange>, dir: bytes, entries: seq<FileInfo>) {
    && |after| == |before| + 1 && after[..|before|] == before
    && after[|before|].req == List(dir) && after[|before|].reply.Listing? && after[|before|].reply.dents != []
    && SortedByName(entries)
    && exists es :: EntriesOf(dir, NamedDents(after[|before|].reply.dents), es) && multiset(entries) == multiset(es)
  }

  ghost predicate ListedNothing(before: seq<Exchange>, after: seq<Exchange>, dir: bytes) {
    && |after| == |before| + 1 && after[..|before|] == before
    && after[|before|].req == List(dir) && after[|before|].reply.Listing? && after[|before|].reply.dents == []
  }

  // ---------------------------------------------------------------------
  // Streams seen at a cursor
  // ---------------------------------------------------------------------

  lemma DataFrameAt(data: bytes, p: nat, n: u32)
    requires n <= DATA_MAX && p + HEADER_LEN + n <= |data|
    requires data[p..p + HEADER_LEN] == Header(DATA, n)
    ensures var chunk := data[p + HEADER_LEN..p + HEADER_LEN + n];
            && data[p..p + HEADER_LEN + n] == Frame(DATA, chunk)
            && LeadingPayload(data[p..]) == chunk + LeadingPayload(data[p + HEADER_LEN + n..])
  {
    hide Header, LeadingPayload;
    var e := p + HEADER_LEN + n;
    var chunk := data[p + HEADER_LEN..e];
    assert data[p..e] == data[p..p + HEADER_LEN] + chunk;
    assert data[p..] == data[p..e] + data[e..];
    LeadingPayloadStep(chunk, data[e..]);
  }

  lemma NoDataAt(data: bytes, p: nat, word: u32)
    requires p + HEADER_LEN <= |data| && data[p..p + HEADER_LEN] == Header(DONE, word)
    ensures LeadingPayload(data[p..]) == []
  {
    assert data[p..][..4] == data[p..p + HEADER_LEN][..4] == DONE;
  }

  // ---------------------------------------------------------------------
  // Whole histories
  // ---------------------------------------------------------------------

  datatype Call =
    | DoPush(script: seq<SourceStep>, path: bytes, mode: FileMode, mtime: u32, patience: nat)
    | DoPull(sink: seq<SinkStep>, path: bytes)
    | DoStat(path: bytes)
    | DoList(path: bytes)
    | DoClose

  /** Any history of calls, against any peer, any fragmentation, any source and
      any sink, with a Close by another goroutine at any point, leaves a session
      that is not broken on a reply boundary: what it consumed is exactly the
      replies of its log, and what it sent is what a daemon reads as exactly the
      requests of its log, with nothing after it but the QUIT of a Close. */
  method RunHistory(c: SyncConn, calls: seq<Call>)
    requires c.Valid() && !c.busy
    modifies c, c.rd, c.wr, c.buf
    ensures c.Valid()
    ensures !c.broken ==>
              && LogOk(c.log) && c.rd.data[..c.rd.pos] == ReceivedBytes(c.log)
              && ReadRequests(SentBytes(c.log)) == Some(Requests(c.log))
              && (c.wr.sent == SentBytes(c.log) || (c.closed && c.wr.sent == SentBytes(c.log) + Frame(QUIT, [])))
    ensures !c.broken && !c.closed ==> ReadRequests(c.wr.sent) == Some(Requests(c.log))
  {
    for i := 0 to |calls|
      invariant c.Valid() && !c.busy
    {
      RunCall(c, calls[i]);
    }
    if !c.broken {
      DaemonReadsTheLog(c.log);
    }
  }

  method RunCall(c: SyncConn, call: Call)
    requires c.Valid() && !c.busy
    modifies c, c.rd, c.wr, c.buf
    ensures c.Valid() && !c.busy
  {
    match call {
      case DoPush(script, path, mode, mtime, patience) =>
        var src := new Source(script);
        var r := c.Push(src, path, mode, mtime, patience);
      case DoPull(script, path) =>
        var sink := new Sink(script);
        var r := c.Pull(sink, path);
      case DoStat(path) =>
        var r, info := c.Stat(path);
      case DoList(path) =>
        var r, entries := c.List(path);
      case DoClose =>
        c.Close();
    }
  }
}
