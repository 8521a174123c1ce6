/** The two halves of a socket, and the source and sink a transfer is handed.

    Whatever an io.Reader or io.Writer is free to choose is a script fixed in
    advance, so a theorem about these objects holds for every choice. */
module Io {
  import opened Bytes

  /** What one Read may do: hand over at most `max` bytes (zero is legal), and
      report the end of the stream together with its last bytes or only later. */
  datatype Fragment = Fragment(max: nat, eagerEnd: bool)

  /** How the peer's stream ends: hung up, or failed (reset, deadline, closed). */
  datatype Ending = HungUp | Broke

  datatype ReadError = NoError | Eof | UnexpectedEof | Failure

  class Reader {
    const data: bytes
    const ending: Ending
    var pos: nat
    var script: seq<Fragment>

    ghost predicate Valid()
      reads this
    {
      pos <= |data|
    }

    constructor (data: bytes, ending: Ending, script: seq<Fragment>)
      ensures this.data == data && this.ending == ending
      ensures pos == 0 && Valid()
    {
      this.data, this.ending, this.script := data, ending, script;
      pos := 0;
    }

    function End(): ReadError {
      if ending == HungUp then Eof else Failure
    }

    /** One io.Reader.Read into dst[lo..hi]. */
    method Read(dst: array<byte>, lo: nat, hi: nat) returns (n: nat, err: ReadError)
      requires Valid() && lo <= hi <= dst.Length
      modifies this`pos, this`script, dst
      ensures Valid() && pos == old(pos) + n && n <= hi - lo
      ensures dst[lo..lo + n] == data[old(pos)..pos]
      ensures forall i :: 0 <= i < dst.Length && !(lo <= i < lo + n) ==> dst[i] == old(dst[i])
      ensures err == NoError || (err == End() && pos == |data|)
      ensures old(pos) == |data| && lo < hi && err == NoError ==> |script| < |old(script)|
      ensures n == 0 && err == NoError && lo < hi ==> |script| < |old(script)|
      ensures |script| <= |old(script)|
    {
      var room := if hi - lo <= |data| - pos then hi - lo else |data| - pos;
      var eager := false;
      n := room;
      var stalled := false;
      if script != [] {
        n := if script[0].max < room then script[0].max else room;
        eager := script[0].eagerEnd;
        stalled := script[0].max == 0 && !eager;
        script := script[1..];
      }
      var start := pos;
      forall k | lo <= k < lo + n {
        dst[k] := data[start + k - lo];
      }
      assert dst[lo..lo + n] == data[start..start + n];
      pos := pos + n;
      err := if pos == |data| && !stalled && (eager || n == 0) then End() else NoError;
    }

    /** io.ReadFull into dst[..n]: however the stream is fragmented, it succeeds
        exactly when n bytes are left, and otherwise drains what there was. */
    method ReadFull(dst: array<byte>, n: nat) returns (err: ReadError)
      requires Valid() && n <= dst.Length
      modifies this`pos, this`script, dst
      ensures Valid()
      ensures err == NoError <==> old(pos) + n <= |data|
      ensures err == NoError ==> pos == old(pos) + n && dst[..n] == data[old(pos)..pos]
      ensures err != NoError ==> pos == |data|
      ensures err != NoError ==>
                err == if ending == Broke then Failure else if old(pos) == |data| then Eof else UnexpectedEof
      ensures forall i :: n <= i < dst.Length ==> dst[i] == old(dst[i])
    {
      var got, e := 0, NoError;
      while got < n && e == NoError
        invariant Valid() && got <= n && pos == old(pos) + got
        invariant dst[..got] == data[old(pos)..pos]
        invariant e == NoError || (e == End() && pos == |data|)
        invariant forall i :: n <= i < dst.Length ==> dst[i] == old(dst[i])
        decreases n - got, |script|, if e == NoError then 1 else 0
      {
        ghost var before, p := dst[..got], pos;
        var k: nat;
        k, e := Read(dst, got, n);
        assert dst[..got] == before;
        assert dst[..got + k] == dst[..got] + dst[got..got + k];
        assert data[old(pos)..pos] == data[old(pos)..p] + data[p..pos];
        got := got + k;
      }
      if got >= n {
        err := NoError;
      } else if got > 0 && e == Eof {
        err := UnexpectedEof;
      } else {
        err := e;
      }
    }
  }

  /** What one Write to the socket may do: put at most `max` bytes on the wire,
      and then fail or not. */
  datatype WriteStep = WriteStep(max: nat, fails: bool)

  class Writer {
    var sent: bytes
    var script: seq<WriteStep>

    constructor (script: seq<WriteStep>)
      ensures sent == []
    {
      sent, this.script := [], script;
    }

    /** No write of its script fails. */
    ghost predicate Reliable()
      reads this
    {
      forall i :: 0 <= i < |script| ==> !script[i].fails
    }

    method Write(p: bytes) returns (n: nat, ok: bool)
      modifies this
      ensures n <= |p| && sent == old(sent) + p[..n]
      ensures |script| <= |old(script)|
      ensures ok && n == 0 && p != [] ==> |script| < |old(script)|
      ensures old(Reliable()) ==> ok && Reliable()
      ensures old(script) == [] || old(script)[0].max >= |p| ==> n == |p|
    {
      n, ok := |p|, true;
      if script != [] {
        n := if script[0].max < |p| then script[0].max else |p|;
        ok := !script[0].fails;
        script := script[1..];
      }
      sent := sent + p[..n];
    }
  }

  datatype SourceEnd = More | AtEof | SourceFailed

  /** One answer of the reader a Push is handed. */
  datatype SourceStep = SourceStep(chunk: bytes, end: SourceEnd)

  /** The reader a Push is handed. Once its script is used up it answers
      (0, nil) for ever, which only the context can end. */
  class Source {
    var script: seq<SourceStep>
    var yielded: bytes

    constructor (script: seq<SourceStep>)
      ensures this.script == script && yielded == []
    {
      this.script, yielded := script, [];
    }

    /** io.Reader.Read into dst[lo..]; n never exceeds the room it was given. */
    method Read(dst: array<byte>, lo: nat) returns (n: nat, end: SourceEnd)
      requires script != [] && lo <= dst.Length
      modifies this, dst
      ensures n <= dst.Length - lo
      ensures yielded == old(yielded) + dst[lo..lo + n]
      ensures forall i :: 0 <= i < lo ==> dst[i] == old(dst[i])
      ensures script == old(script)[1..] && end == old(script)[0].end
    {
      var step := script[0];
      script := script[1..];
      n := if |step.chunk| <= dst.Length - lo then |step.chunk| else dst.Length - lo;
      end := step.end;
      forall k | lo <= k < lo + n {
        dst[k] := step.chunk[k - lo];
      }
      assert dst[lo..lo + n] == step.chunk[..n];
      yielded := yielded + step.chunk[..n];
    }
  }

  datatype SinkStep = SinkStep(max: nat, fails: bool)

  /** The writer a Pull is handed. */
  class Sink {
    var got: bytes
    var script: seq<SinkStep>

    constructor (script: seq<SinkStep>)
      ensures got == []
    {
      got, this.script := [], script;
    }

    /** No write of its script fails or takes less than cap. */
    ghost predicate Reliable(cap: nat)
      reads this
    {
      forall i :: 0 <= i < |script| ==> !script[i].fails && cap <= script[i].max
    }

    method Write(p: bytes) returns (n: nat, ok: bool)
      modifies this
      ensures n <= |p| && got == old(got) + p[..n]
      ensures forall cap: nat :: |p| <= cap && old(Reliable(cap)) ==> ok && n == |p| && Reliable(cap)
    {
      n, ok := |p|, true;
      if script != [] {
        n := if script[0].max < |p| then script[0].max else |p|;
        ok := !script[0].fails;
        script := script[1..];
      }
      got := got + p[..n];
    }
  }
}
