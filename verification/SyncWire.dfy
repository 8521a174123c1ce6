/** The grammar of the ADB file-sync protocol: what a client may send, what a
    daemon answers, and how the daemon reads what it is sent. */
module SyncWire {
  import opened Bytes
  import opened Options
  import Decimal

  type syncId = b: bytes | |b| == 4 witness [0x53, 0x45, 0x4E, 0x44]

  const SEND: syncId := [0x53, 0x45, 0x4E, 0x44]
  const RECV: syncId := [0x52, 0x45, 0x43, 0x56]
  const STAT: syncId := [0x53, 0x54, 0x41, 0x54]
  const LIST: syncId := [0x4C, 0x49, 0x53, 0x54]
  const DATA: syncId := [0x44, 0x41, 0x54, 0x41]
  const DENT: syncId := [0x44, 0x45, 0x4E, 0x54]
  const DONE: syncId := [0x44, 0x4F, 0x4E, 0x45]
  const OKAY: syncId := [0x4F, 0x4B, 0x41, 0x59]
  const FAIL: syncId := [0x46, 0x41, 0x49, 0x4C]
  const QUIT: syncId := [0x51, 0x55, 0x49, 0x54]

  const HEADER_LEN := 8
  const DATA_MAX := 65536
  const PATH_MAX := 1024
  const COMMA: byte := 0x2C

  function Header(id: syncId, word: u32): (h: bytes)
    ensures |h| == HEADER_LEN
  {
    id + PutU32(word)
  }

  /** A length as its uint32 field carries it. */
  function Len(payload: bytes): u32 {
    |payload| % U32_LIMIT
  }

  function Frame(id: syncId, payload: bytes): bytes {
    Header(id, Len(payload)) + payload
  }

  function IdOf(s: bytes): syncId
    requires |s| >= HEADER_LEN
  {
    s[..4]
  }

  function WordOf(s: bytes): u32
    requires |s| >= HEADER_LEN
  {
    GetU32(s[4..8])
  }

  lemma ReadHeader(id: syncId, word: u32, rest: bytes)
    ensures var s := Header(id, word) + rest;
            IdOf(s) == id && WordOf(s) == word && s[HEADER_LEN..] == rest
  {
    var s := Header(id, word) + rest;
    assert s[..4] == id;
    assert s[4..8] == PutU32(word);
    GetPut(word);
    assert s[8..] == rest;
  }

  lemma HeaderOf(s: bytes)
    requires |s| >= HEADER_LEN
    ensures s == Header(IdOf(s), WordOf(s)) + s[HEADER_LEN..]
  {
    PutGet(s[4..8]);
    assert s == s[..4] + s[4..8] + s[8..];
  }

  // ---------------------------------------------------------------------
  // Requests
  // ---------------------------------------------------------------------

  datatype Request =
    | Send(path: bytes, mode: u32, chunks: seq<bytes>, mtime: u32)
    | Recv(path: bytes)
    | Stat(path: bytes)
    | List(path: bytes)

  function DecimalBytes(n: nat): bytes {
    var ds: seq<int> := Decimal.Digits(n);
    seq(|ds|, i requires 0 <= i < |ds| => 48 + ds[i])
  }

  /** A SEND's payload: path and decimal mode, joined by a comma. */
  function SendSpec(path: bytes, mode: u32): bytes {
    path + [COMMA] + DecimalBytes(mode)
  }

  function RequestId(r: Request): syncId {
    match r
    case Send(_, _, _, _) => SEND
    case Recv(_) => RECV
    case Stat(_) => STAT
    case List(_) => LIST
  }

  function RequestPayload(r: Request): bytes {
    if r.Send? then SendSpec(r.path, r.mode) else r.path
  }

  ghost predicate ChunksOk(chunks: seq<bytes>) {
    forall i :: 0 <= i < |chunks| ==> 1 <= |chunks[i]| <= DATA_MAX
  }

  ghost predicate RequestOk(r: Request) {
    |RequestPayload(r)| <= PATH_MAX && (r.Send? ==> ChunksOk(r.chunks))
  }

  ghost predicate FramesOk(chunks: seq<bytes>) {
    forall i :: 0 <= i < |chunks| ==> |chunks[i]| <= DATA_MAX
  }

  function DataFrames(chunks: seq<bytes>): bytes {
    if chunks == [] then [] else Frame(DATA, chunks[0]) + DataFrames(chunks[1..])
  }

  function Encode(r: Request): bytes {
    Frame(RequestId(r), RequestPayload(r))
    + if r.Send? then DataFrames(r.chunks) + Header(DONE, r.mtime) else []
  }

  lemma {:induction false} DataFramesSnoc(chunks: seq<bytes>, last: bytes)
    ensures DataFrames(chunks + [last]) == DataFrames(chunks) + Frame(DATA, last)
  {
    if chunks == [] {
      assert chunks + [last] == [last];
      assert [last][1..] == [];
    } else {
      assert (chunks + [last])[1..] == chunks[1..] + [last];
      DataFramesSnoc(chunks[1..], last);
    }
  }

  // ---------------------------------------------------------------------
  // How the daemon reads requests
  // ---------------------------------------------------------------------

  function LastComma(s: bytes): (i: Option<nat>)
    ensures i.Some? ==> i.value < |s|
  {
    if s == [] then None
    else if s[|s| - 1] == COMMA then Some(|s| - 1)
    else LastComma(s[..|s| - 1])
  }

  function ReadDecimal(s: bytes): Option<u32> {
    if s != [] && (forall i :: 0 <= i < |s| ==> 48 <= s[i] < 58) then
      var v := Decimal.Value(seq(|s|, i requires 0 <= i < |s| => s[i] - 48));
      if v < U32_LIMIT then Some(v) else None
    else None
  }

  /** The path and mode of a SEND, split at the LAST comma. */
  function ReadSendSpec(s: bytes): Option<(bytes, u32)> {
    match LastComma(s)
    case None => None
    case Some(i) =>
      match ReadDecimal(s[i + 1..])
      case None => None
      case Some(mode) => Some((s[..i], mode))
  }

  /** The DATA chunks and the DONE word that follow a SEND. */
  function ReadTransfer(s: bytes): Option<(seq<bytes>, u32, bytes)>
    decreases |s|
  {
    if |s| < HEADER_LEN then None
    else if IdOf(s) == DONE then Some(([], WordOf(s), s[HEADER_LEN..]))
    else if IdOf(s) == DATA && WordOf(s) <= |s| - HEADER_LEN then
      var n := HEADER_LEN + WordOf(s);
      match ReadTransfer(s[n..])
      case None => None
      case Some((chunks, mtime, rest)) => Some(([s[HEADER_LEN..n]] + chunks, mtime, rest))
    else None
  }

  /** One request off the front of what a client sent, and what is left. */
  function ReadRequest(s: bytes): (r: Option<(Request, bytes)>)
    ensures r.Some? ==> |r.value.1| < |s|
  {
    if |s| < HEADER_LEN || WordOf(s) > |s| - HEADER_LEN then None
    else
      var n := HEADER_LEN + WordOf(s);
      var payload := s[HEADER_LEN..n];
      if IdOf(s) == RECV then Some((Recv(payload), s[n..]))
      else if IdOf(s) == STAT then Some((Stat(payload), s[n..]))
      else if IdOf(s) == LIST then Some((List(payload), s[n..]))
      else if IdOf(s) == SEND then
        match ReadSendSpec(payload)
        case None => None
        case Some((path, mode)) =>
          match ReadTransfer(s[n..])
          case None => None
          case Some((chunks, mtime, rest)) =>
            if |rest| < |s| then Some((Send(path, mode, chunks, mtime), rest)) else None
      else None
  }

  function ReadRequests(s: bytes): Option<seq<Request>>
    decreases |s|
  {
    if s == [] then Some([])
    else
      match ReadRequest(s)
      case None => None
      case Some((r, rest)) =>
        match ReadRequests(rest)
        case None => None
        case Some(rs) => Some([r] + rs)
  }

  lemma ReadDecimalBytes(n: u32)
    ensures ReadDecimal(DecimalBytes(n)) == Some(n)
  {
    var ds, s := Decimal.Digits(n), DecimalBytes(n);
    assert seq(|s|, i requires 0 <= i < |s| => s[i] - 48) == ds;
    Decimal.ValueOfDigits(n);
  }

  lemma {:induction false} LastCommaBefore(path: bytes, tail: bytes)
    requires forall i :: 0 <= i < |tail| ==> tail[i] != COMMA
    ensures LastComma(path + [COMMA] + tail) == Some(|path|)
    decreases |tail|
  {
    var s := path + [COMMA] + tail;
    if tail != [] {
      var shorter := tail[..|tail| - 1];
      assert s[..|s| - 1] == path + [COMMA] + shorter;
      LastCommaBefore(path, shorter);
    }
  }

  /** A path may hold any number of commas and still comes back whole. */
  lemma SendSpecRoundTrip(path: bytes, mode: u32)
    ensures ReadSendSpec(SendSpec(path, mode)) == Some((path, mode))
  {
    var s := SendSpec(path, mode);
    LastCommaBefore(path, DecimalBytes(mode));
    assert s[..|path|] == path;
    assert s[|path| + 1..] == DecimalBytes(mode);
    ReadDecimalBytes(mode);
  }

  lemma ReadFrame(id: syncId, payload: bytes, rest: bytes)
    requires |payload| <= DATA_MAX
    ensures var s := Frame(id, payload) + rest;
            var n := HEADER_LEN + |payload|;
            && |s| >= n && IdOf(s) == id && WordOf(s) == |payload|
            && s[HEADER_LEN..n] == payload && s[n..] == rest
  {
    var s := Frame(id, payload) + rest;
    assert s == Header(id, |payload|) + (payload + rest);
    ReadHeader(id, |payload|, payload + rest);
    assert s[HEADER_LEN..][..|payload|] == payload && s[HEADER_LEN..][|payload|..] == rest;
  }

  lemma {:induction false} TransferRoundTrip(chunks: seq<bytes>, mtime: u32, rest: bytes)
    requires FramesOk(chunks)
    ensures ReadTransfer(DataFrames(chunks) + (Header(DONE, mtime) + rest)) == Some((chunks, mtime, rest))
  {
    hide Header, Frame, IdOf, WordOf;
    if chunks == [] {
      ReadHeader(DONE, mtime, rest);
      assert DataFrames(chunks) + (Header(DONE, mtime) + rest) == Header(DONE, mtime) + rest;
    } else {
      var tail := DataFrames(chunks[1..]) + (Header(DONE, mtime) + rest);
      var s := DataFrames(chunks) + (Header(DONE, mtime) + rest);
      assert s == Frame(DATA, chunks[0]) + tail;
      ReadFrame(DATA, chunks[0], tail);
      TransferRoundTrip(chunks[1..], mtime, rest);
      assert chunks == [chunks[0]] + chunks[1..];
    }
  }

  /** The daemon reads back exactly the request that was encoded. */
  lemma RequestRoundTrip(r: Request, rest: bytes)
    requires RequestOk(r)
    ensures ReadRequest(Encode(r) + rest) == Some((r, rest))
  {
    hide Frame, Header, IdOf, WordOf, DataFrames, SendSpec, ReadSendSpec, ReadTransfer;
    var payload := RequestPayload(r);
    var body := if r.Send? then DataFrames(r.chunks) + Header(DONE, r.mtime) else [];
    assert Encode(r) + rest == Frame(RequestId(r), payload) + (body + rest);
    ReadFrame(RequestId(r), payload, body + rest);
    if r.Send? {
      SendSpecRoundTrip(r.path, r.mode);
      TransferRoundTrip(r.chunks, r.mtime, rest);
      assert body + rest == DataFrames(r.chunks) + (Header(DONE, r.mtime) + rest);
    } else {
      assert body + rest == rest;
    }
  }

  // ---------------------------------------------------------------------
  // Replies
  // ---------------------------------------------------------------------

  datatype Dent = Dent(mode: u32, size: u32, mtime: u32, name: bytes)

  /** The replies that leave a session able to carry another request. A FAIL
      is not among them: the daemon ends the session on one. */
  datatype Reply =
    | Okay(word: u32)
    | Lstat(mode: u32, size: u32, mtime: u32)
    | File(chunks: seq<bytes>, word: u32)
    | Listing(dents: seq<Dent>, word: u32, tail: bytes)

  ghost predicate ReplyOk(p: Reply) {
    && (p.File? ==> FramesOk(p.chunks))
    && (p.Listing? ==> |p.tail| == 12 && forall i :: 0 <= i < |p.dents| ==> |p.dents[i].name| <= PATH_MAX)
  }

  function DentTail(size: u32, mtime: u32, length: u32): (t: bytes)
    ensures |t| == 12
  {
    PutU32(size) + PutU32(mtime) + PutU32(length)
  }

  function DentFrame(d: Dent): bytes {
    Header(DENT, d.mode) + DentTail(d.size, d.mtime, Len(d.name)) + d.name
  }

  function DentFrames(dents: seq<Dent>): bytes {
    if dents == [] then [] else DentFrame(dents[0]) + DentFrames(dents[1..])
  }

  function EncodeReply(p: Reply): bytes {
    match p
    case Okay(w) => Header(OKAY, w)
    case Lstat(mode, size, mtime) => Header(STAT, mode) + (PutU32(size) + PutU32(mtime))
    case File(chunks, w) => DataFrames(chunks) + Header(DONE, w)
    case Listing(dents, w, tail) => DentFrames(dents) + (Header(DONE, w) + tail)
  }

  predicate Answers(r: Request, p: Reply) {
    match r
    case Send(_, _, _, _) => p.Okay?
    case Recv(_) => p.File?
    case Stat(_) => p.Lstat?
    case List(_) => p.Listing?
  }

  predicate SameKind(p: Reply, q: Reply) {
    p.Okay? == q.Okay? && p.Lstat? == q.Lstat? && p.File? == q.File? && p.Listing? == q.Listing?
  }

  lemma {:induction false} DentFramesSnoc(dents: seq<Dent>, last: Dent)
    ensures DentFrames(dents + [last]) == DentFrames(dents) + DentFrame(last)
  {
    if dents == [] {
      assert dents + [last] == [last];
      assert [last][1..] == [];
    } else {
      assert (dents + [last])[1..] == dents[1..] + [last];
      DentFramesSnoc(dents[1..], last);
    }
  }

  lemma WordsOf(a: u32, b: u32, c: u32)
    ensures var t := DentTail(a, b, c);
            |t| == 12 && GetU32(t[..4]) == a && GetU32(t[4..8]) == b && GetU32(t[8..12]) == c
  {
    var t := DentTail(a, b, c);
    assert t[..4] == PutU32(a) && t[4..8] == PutU32(b) && t[8..12] == PutU32(c);
    GetPut(a);
    GetPut(b);
    GetPut(c);
  }

  lemma DentFrameUnambiguous(d1: Dent, x1: bytes, d2: Dent, x2: bytes)
    requires |d1.name| <= PATH_MAX && |d2.name| <= PATH_MAX
    requires DentFrame(d1) + x1 == DentFrame(d2) + x2
    ensures d1 == d2 && x1 == x2
  {
    hide Header, DentTail, GetU32, IdOf, WordOf;
    var t1, t2 := DentTail(d1.size, d1.mtime, Len(d1.name)), DentTail(d2.size, d2.mtime, Len(d2.name));
    assert DentFrame(d1) + x1 == Header(DENT, d1.mode) + (t1 + (d1.name + x1));
    assert DentFrame(d2) + x2 == Header(DENT, d2.mode) + (t2 + (d2.name + x2));
    ReadHeader(DENT, d1.mode, t1 + (d1.name + x1));
    ReadHeader(DENT, d2.mode, t2 + (d2.name + x2));
    SplitEqual(t1, d1.name + x1, t2, d2.name + x2);
    WordsOf(d1.size, d1.mtime, Len(d1.name));
    WordsOf(d2.size, d2.mtime, Len(d2.name));
    SplitEqual(d1.name, x1, d2.name, x2);
  }

  lemma ListingStart(p: Reply, x: bytes)
    requires p.Listing?
    ensures var s := EncodeReply(p) + x;
            |s| >= HEADER_LEN && IdOf(s) == if p.dents == [] then DONE else DENT
  {
    hide PutU32;
    if p.dents == [] {
      assert EncodeReply(p) + x == Header(DONE, p.word) + (p.tail + x);
    } else {
      var d := p.dents[0];
      assert EncodeReply(p) + x == Header(DENT, d.mode)
        + (DentTail(d.size, d.mtime, Len(d.name)) + d.name + DentFrames(p.dents[1..])
           + (Header(DONE, p.word) + p.tail) + x);
    }
  }

  lemma {:induction false} ListingUnambiguous(p: Reply, x: bytes, q: Reply, y: bytes)
    requires p.Listing? && q.Listing? && ReplyOk(p) && ReplyOk(q)
    requires EncodeReply(p) + x == EncodeReply(q) + y
    ensures p == q && x == y
    decreases |p.dents|
  {
    hide Header, DentFrame, IdOf, WordOf;
    ListingStart(p, x);
    ListingStart(q, y);
    if p.dents != [] {
      var p', q' := p.(dents := p.dents[1..]), q.(dents := q.dents[1..]);
      assert EncodeReply(p) + x == DentFrame(p.dents[0]) + (EncodeReply(p') + x);
      assert EncodeReply(q) + y == DentFrame(q.dents[0]) + (EncodeReply(q') + y);
      DentFrameUnambiguous(p.dents[0], EncodeReply(p') + x, q.dents[0], EncodeReply(q') + y);
      ListingUnambiguous(p', x, q', y);
      assert p.dents == [p.dents[0]] + p.dents[1..] && q.dents == [q.dents[0]] + q.dents[1..];
    } else {
      EmptyListingUnambiguous(p, x, q, y);
    }
  }

  lemma EmptyListingUnambiguous(p: Reply, x: bytes, q: Reply, y: bytes)
    requires p.Listing? && q.Listing? && ReplyOk(p) && ReplyOk(q) && p.dents == q.dents == []
    requires EncodeReply(p) + x == EncodeReply(q) + y
    ensures p == q && x == y
  {
    hide Header, DentFrame, IdOf, WordOf;
    var endP, endQ := Header(DONE, p.word) + p.tail, Header(DONE, q.word) + q.tail;
    assert EncodeReply(p) == endP && EncodeReply(q) == endQ;
    SplitEqual(endP, x, endQ, y);
    ReadHeader(DONE, p.word, p.tail);
    ReadHeader(DONE, q.word, q.tail);
  }

  lemma LstatUnambiguous(p: Reply, x: bytes, q: Reply, y: bytes)
    requires p.Lstat? && q.Lstat?
    requires EncodeReply(p) + x == EncodeReply(q) + y
    ensures p == q && x == y
  {
    hide PutU32, GetU32;
    SplitEqual(EncodeReply(p), x, EncodeReply(q), y);
    var t, u := DentTail(p.mode, p.size, p.mtime), DentTail(q.mode, q.size, q.mtime);
    assert EncodeReply(p) == STAT + t && EncodeReply(q) == STAT + u;
    SplitEqual(STAT, t, STAT, u);
    WordsOf(p.mode, p.size, p.mtime);
    WordsOf(q.mode, q.size, q.mtime);
  }

  lemma FileUnambiguous(p: Reply, x: bytes, q: Reply, y: bytes)
    requires p.File? && q.File? && ReplyOk(p) && ReplyOk(q)
    requires EncodeReply(p) + x == EncodeReply(q) + y
    ensures p == q && x == y
  {
    hide Header, DataFrames;
    assert EncodeReply(p) + x == DataFrames(p.chunks) + (Header(DONE, p.word) + x);
    assert EncodeReply(q) + y == DataFrames(q.chunks) + (Header(DONE, q.word) + y);
    TransferRoundTrip(p.chunks, p.word, x);
    TransferRoundTrip(q.chunks, q.word, y);
  }

  /** No reply is a proper prefix of another reply of its kind, so where a
      reply ends is decided by its own bytes. */
  lemma ReplyUnambiguous(p: Reply, x: bytes, q: Reply, y: bytes)
    requires SameKind(p, q) && ReplyOk(p) && ReplyOk(q)
    requires EncodeReply(p) + x == EncodeReply(q) + y
    ensures p == q && x == y
  {
    match p {
      case Okay(w) =>
        hide Header, IdOf, WordOf;
        ReadHeader(OKAY, w, x);
        ReadHeader(OKAY, q.word, y);
      case Lstat(_, _, _) => LstatUnambiguous(p, x, q, y);
      case File(_, _) => FileUnambiguous(p, x, q, y);
      case Listing(_, _, _) => ListingUnambiguous(p, x, q, y);
    }
  }

  // ---------------------------------------------------------------------
  // Sessions: a list of requests, each with its reply
  // ---------------------------------------------------------------------

  datatype Exchange = Exchange(req: Request, reply: Reply)

  ghost predicate ExchangeOk(e: Exchange) {
    RequestOk(e.req) && ReplyOk(e.reply) && Answers(e.req, e.reply)
  }

  ghost predicate LogOk(log: seq<Exchange>) {
    forall i :: 0 <= i < |log| ==> ExchangeOk(log[i])
  }

  function SentBytes(log: seq<Exchange>): bytes {
    if log == [] then [] else SentBytes(log[..|log| - 1]) + Encode(log[|log| - 1].req)
  }

  function ReceivedBytes(log: seq<Exchange>): bytes {
    if log == [] then [] else ReceivedBytes(log[..|log| - 1]) + EncodeReply(log[|log| - 1].reply)
  }

  function Requests(log: seq<Exchange>): seq<Request> {
    seq(|log|, i requires 0 <= i < |log| => log[i].req)
  }

  lemma LogSnoc(log: seq<Exchange>, e: Exchange)
    ensures SentBytes(log + [e]) == SentBytes(log) + Encode(e.req)
    ensures ReceivedBytes(log + [e]) == ReceivedBytes(log) + EncodeReply(e.reply)
  {
    assert (log + [e])[..|log|] == log;
  }

  lemma {:induction false} LogCons(log: seq<Exchange>)
    requires log != []
    ensures SentBytes(log) == Encode(log[0].req) + SentBytes(log[1..])
    ensures ReceivedBytes(log) == EncodeReply(log[0].reply) + ReceivedBytes(log[1..])
    decreases |log|
  {
    hide Encode, EncodeReply;
    var init, last := log[..|log| - 1], log[|log| - 1];
    if init == [] {
      assert log == [last];
    } else {
      LogCons(init);
      assert log[1..] == init[1..] + [last];
      LogSnoc(init[1..], last);
      assert SentBytes(log) == Encode(log[0].req) + (SentBytes(init[1..]) + Encode(last.req));
    }
  }

  lemma EncodeNonEmpty(r: Request)
    ensures Encode(r) != []
  {
  }

  /** A daemon that reads everything an aligned session ever sent finds exactly
      the requests of its log, in order. */
  lemma {:induction false} DaemonReadsTheLog(log: seq<Exchange>)
    requires LogOk(log)
    ensures ReadRequests(SentBytes(log)) == Some(Requests(log))
    decreases |log|
  {
    hide Encode, EncodeReply, SentBytes, ReceivedBytes, ReadRequest, ReplyOk;
    if log == [] {
      NothingReceived();
      assert SentBytes(log) == SentBytes([]) && Requests(log) == [];
    } else {
      LogCons(log);
      RequestRoundTrip(log[0].req, SentBytes(log[1..]));
      EncodeNonEmpty(log[0].req);
      DaemonReadsTheLog(log[1..]);
      var s := SentBytes(log);
      assert s == Encode(log[0].req) + SentBytes(log[1..]);
      assert s != [];
      assert Requests(log) == [log[0].req] + Requests(log[1..]);
    }
  }

  /** The cursor position of an aligned session is the only one possible: two
      readings of one stream as replies to the same requests agree on every
      reply and on where the last one ends. */
  lemma {:induction false} AlignmentUnique(log1: seq<Exchange>, x: bytes, log2: seq<Exchange>, y: bytes)
    requires LogOk(log1) && LogOk(log2)
    requires |log1| == |log2| && forall i :: 0 <= i < |log1| ==> log1[i].req == log2[i].req
    requires ReceivedBytes(log1) + x == ReceivedBytes(log2) + y
    ensures log1 == log2 && x == y
    decreases |log1|
  {
    hide Encode, EncodeReply, ReceivedBytes, ReplyOk, RequestOk;
    if log1 == [] {
      NothingReceived();
      assert x == [] + x == [] + y == y;
    } else {
      var x', y' := ReceivedBytes(log1[1..]) + x, ReceivedBytes(log2[1..]) + y;
      assert ReceivedBytes(log1) + x == EncodeReply(log1[0].reply) + x' by {
        LogCons(log1);
      }
      assert ReceivedBytes(log2) + y == EncodeReply(log2[0].reply) + y' by {
        LogCons(log2);
      }
      assert ExchangeOk(log1[0]) && ExchangeOk(log2[0]);
      ReplyUnambiguous(log1[0].reply, x', log2[0].reply, y');
      AlignmentUnique(log1[1..], x, log2[1..], y);
      assert log1 == [log1[0]] + log1[1..] && log2 == [log2[0]] + log2[1..];
    }
  }

  lemma NothingReceived()
    ensures ReceivedBytes([]) == [] && SentBytes([]) == []
  {
  }

  // ---------------------------------------------------------------------
  // What a Pull may hand its sink
  // ---------------------------------------------------------------------

  /** The payloads of the whole DATA frames at the front of a stream. */
  function LeadingPayload(s: bytes): bytes
    decreases |s|
  {
    if |s| >= HEADER_LEN && IdOf(s) == DATA && WordOf(s) <= DATA_MAX && HEADER_LEN + WordOf(s) <= |s| then
      var n := HEADER_LEN + WordOf(s);
      s[HEADER_LEN..n] + LeadingPayload(s[n..])
    else []
  }

  lemma LeadingPayloadStep(chunk: bytes, rest: bytes)
    requires |chunk| <= DATA_MAX
    ensures LeadingPayload(Frame(DATA, chunk) + rest) == chunk + LeadingPayload(rest)
  {
    hide Header, IdOf, WordOf;
    var s := Frame(DATA, chunk) + rest;
    assert s == Header(DATA, |chunk|) + (chunk + rest);
    ReadHeader(DATA, |chunk|, chunk + rest);
    assert s[HEADER_LEN..HEADER_LEN + |chunk|] == chunk;
    assert s[HEADER_LEN + |chunk|..] == rest;
  }
}
