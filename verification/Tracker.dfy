/** The device tracker: one producer, a channel of depth one whose stale entry is
    dropped on overflow, and a consumer that may receive at any moment. */
module Tracker {
  import opened Options
  import opened Bytes
  import opened Io
  import F = HostFraming

  /** What a message becomes; the parsed devices are a function of the payload. */
  datatype Snapshot = Snapshot(sequence: nat, payload: bytes)

  /** The snapshot of the n-th message read, counting from 1. */
  function Numbered(read: seq<bytes>, n: nat): Snapshot
    requires 1 <= n <= |read|
  {
    Snapshot(n, read[n - 1])
  }

  predicate FromRead(read: seq<bytes>, s: Snapshot) {
    1 <= s.sequence <= |read| && s == Numbered(read, s.sequence)
  }

  predicate Increasing(ss: seq<Snapshot>) {
    forall i, j :: 0 <= i < j < |ss| ==> ss[i].sequence < ss[j].sequence
  }

  predicate AllFromRead(read: seq<bytes>, ss: seq<Snapshot>) {
    forall i :: 0 <= i < |ss| ==> FromRead(read, ss[i])
  }

  predicate AllBelow(ss: seq<Snapshot>, n: nat) {
    forall i :: 0 <= i < |ss| ==> ss[i].sequence < n
  }

  /** Every message ever read is one of: delivered, dropped, waiting in the slot,
      or given up by an emit that saw the context end. */
  datatype History = History(
    read: seq<bytes>, delivered: seq<Snapshot>, dropped: seq<Snapshot>, abandoned: seq<Snapshot>)

  ghost predicate Held(h: History, slot: Option<Snapshot>) {
    && AllFromRead(h.read, h.delivered) && AllFromRead(h.read, h.dropped) && AllFromRead(h.read, h.abandoned)
    && Increasing(h.delivered)
    && (slot.Some? ==> FromRead(h.read, slot.value) && AllBelow(h.delivered, slot.value.sequence))
  }

  function SlotCount(slot: Option<Snapshot>): nat {
    if slot.Some? then 1 else 0
  }

  /** Where the snapshots are. */
  ghost function Settled(h: History, slot: Option<Snapshot>): multiset<Snapshot> {
    multiset(h.delivered) + multiset(h.dropped) + multiset(h.abandoned) +
    if slot.Some? then multiset{slot.value} else multiset{}
  }

  /** One snapshot for each message read. */
  ghost function Snapshots(read: seq<bytes>): multiset<Snapshot> {
    if read == [] then multiset{} else Snapshots(read[..|read| - 1]) + multiset{Numbered(read, |read|)}
  }

  /** The newest message is waiting, or is the last one the consumer got. */
  predicate NewestOut(h: History, slot: Option<Snapshot>) {
    h.read != [] ==>
      var newest := Numbered(h.read, |h.read|);
      slot == Some(newest) || (h.delivered != [] && h.delivered[|h.delivered| - 1] == newest)
  }

  /** A receive from the slot. */
  function Receive(h: History, slot: Option<Snapshot>): History {
    if slot.None? then h else h.(delivered := h.delivered + [slot.value])
  }

  lemma ReceiveKeeps(h: History, slot: Option<Snapshot>)
    requires Held(h, slot)
    ensures Held(Receive(h, slot), None)
    ensures Settled(Receive(h, slot), None) == Settled(h, slot)
    ensures NewestOut(h, slot) ==> NewestOut(Receive(h, slot), None)
    ensures forall n: nat :: AllBelow(h.delivered, n) && (slot.Some? ==> slot.value.sequence < n) ==>
              AllBelow(Receive(h, slot).delivered, n)
  {
    ReceiveHeld(h, slot);
    hide Held, AllFromRead, Increasing, FromRead;
    if slot.Some? {
      assert multiset(h.delivered + [slot.value]) == multiset(h.delivered) + multiset{slot.value};
    }
  }

  lemma ReceiveHeld(h: History, slot: Option<Snapshot>)
    requires Held(h, slot)
    ensures Held(Receive(h, slot), None)
  {
    hide FromRead;
  }

  class Tracker {
    var slot: Option<Snapshot>
    var sequence: nat
    var lastErr: bool
    /** How many moments have passed at which the world outside may act. */
    var moment: nat
    /** Fixed in advance: the moment the context ends, if it does, and the moments
        at which the consumer receives. */
    const ends: Option<nat>
    const receives: nat -> bool
    ghost var h: History

    predicate Cancelled()
      reads this
    {
      ends.Some? && ends.value <= moment
    }

    /** Between emits. */
    ghost predicate Valid()
      reads this
    {
      && sequence == |h.read|
      && Held(h, slot)
      && Settled(h, slot) == Snapshots(h.read)
      && (!Cancelled() ==> NewestOut(h, slot) && h.abandoned == [])
    }

    /** While snap is on its way to the slot, everything else is older. */
    ghost predicate Emitting(snap: Snapshot)
      reads this
    {
      && sequence == |h.read| >= 1
      && snap == Numbered(h.read, |h.read|)
      && Held(h, slot)
      && Settled(h, slot) + multiset{snap} == Snapshots(h.read)
      && AllBelow(h.delivered, snap.sequence)
      && (slot.Some? ==> slot.value.sequence < snap.sequence)
      && (!Cancelled() ==> h.abandoned == [])
    }

    constructor (ends: Option<nat>, receives: nat -> bool)
      ensures Valid() && h == History([], [], [], []) && slot.None? && moment == 0 && !lastErr
      ensures this.ends == ends && this.receives == receives
    {
      this.ends, this.receives := ends, receives;
      slot, sequence, lastErr, moment := None, 0, false, 0;
      h := History([], [], [], []);
    }

    /** A moment passes: the consumer receives if this is one of its moments, and
        the context ends if this is the one. */
    method Interfere(ghost snap: Option<Snapshot>)
      requires if snap.Some? then Emitting(snap.value) else Valid()
      modifies this`slot, this`moment, this`h
      ensures if snap.Some? then Emitting(snap.value) else Valid()
      ensures moment == old(moment) + 1
      ensures if receives(old(moment)) then slot.None? && h == Receive(old(h), old(slot))
              else slot == old(slot) && h == old(h)
      ensures h.read == old(h.read) && old(h.delivered) <= h.delivered
    {
      hide Held, Settled, Snapshots, NewestOut, AllBelow;
      if receives(moment) {
        ReceiveKeeps(h, slot);
        if slot.Some? {
          h := Receive(h, slot);
          slot := None;
        }
      }
      moment := moment + 1;
    }

    /** Puts a fresh snapshot in the slot, dropping a stale one if it must. It
        needs at most two rounds: nobody but the caller fills the slot. */
    method Emit(payload: bytes) returns (rounds: nat)
      requires Valid()
      modifies this
      ensures Valid() && !lastErr
      ensures h.read == old(h.read) + [payload]
      ensures old(h.delivered) <= h.delivered
      ensures 1 <= rounds <= 2 && old(moment) < moment <= old(moment) + 4
      ensures (forall m :: !receives(m)) ==> h.delivered == old(h.delivered)
      ensures !Cancelled() ==>
                var snap := Snapshot(sequence, payload);
                slot == Some(snap) || (h.delivered != [] && h.delivered[|h.delivered| - 1] == snap)
    {
      hide Held, Settled, Snapshots, NewestOut, AllBelow, AllFromRead, Increasing, Receive;
      sequence := sequence + 1;
      var snap := Snapshot(sequence, payload);
      lastErr := false;
      ReadKeeps(h, slot, payload);
      h := h.(read := h.read + [payload]);
      rounds := 0;
      var done := false;
      while !done
        invariant if done then Valid() && 1 <= rounds <= 2 else Emitting(snap) && rounds + SlotCount(slot) <= 1
        invariant h.read == old(h.read) + [payload] && !lastErr && sequence == snap.sequence
        invariant old(h.delivered) <= h.delivered
        invariant if done then old(moment) < moment <= old(moment) + 2 * rounds else moment == old(moment) + 2 * rounds
        invariant (forall m :: !receives(m)) ==> h.delivered == old(h.delivered)
        decreases 2 - rounds, !done
      {
        rounds := rounds + 1;
        done := TrySend(snap);
        if !done {
          Drain(snap);
        }
      }
      NewestOutMeans(h, slot);
    }

    /** The first select: give up if the context has ended, send if the slot is
        free, the runtime picking either if both; otherwise the slot was full. */
    method TrySend(snap: Snapshot) returns (done: bool)
      requires Emitting(snap)
      modifies this`slot, this`moment, this`h
      ensures if done then Valid() else Emitting(snap) && slot.Some? && old(slot).Some?
      ensures if done then old(moment) < moment <= old(moment) + 2 else moment == old(moment) + 1
      ensures h.read == old(h.read) && old(h.delivered) <= h.delivered
      ensures (forall m :: !receives(m)) ==> h.delivered == old(h.delivered)
    {
      hide Held, Settled, Snapshots, NewestOut, AllBelow, Receive;
      Interfere(Some(snap));
      if Cancelled() {
        if slot.Some? {
          Abandon(snap);
          return true;
        } else {
          if * {
            Abandon(snap);
            return true;
          }
        }
      }
      if slot.Some? {
        return false;
      }
      SendKeeps(h, snap);
      slot := Some(snap);
      Interfere(None);
      return true;
    }

    /** The second select: discard the superseded snapshot, if it is still there. */
    method Drain(snap: Snapshot)
      requires Emitting(snap)
      modifies this`slot, this`moment, this`h
      ensures Emitting(snap) && slot.None? && moment == old(moment) + 1
      ensures h.read == old(h.read) && old(h.delivered) <= h.delivered
      ensures (forall m :: !receives(m)) ==> h.delivered == old(h.delivered)
    {
      hide Held, Settled, Snapshots, NewestOut, AllBelow, Receive;
      Interfere(Some(snap));
      if slot.Some? {
        DropKeeps(h, slot);
        h := h.(dropped := h.dropped + [slot.value]);
        slot := None;
      }
    }

    ghost method Abandon(snap: Snapshot)
      requires Emitting(snap) && Cancelled()
      modifies this`h
      ensures Valid() && h == old(h).(abandoned := old(h).abandoned + [snap])
    {
      h := h.(abandoned := h.abandoned + [snap]);
    }

    /** One connection, from the server's OKAY on: the messages of its stream are
        read and emitted until one cannot be. Losing it emits nothing. */
    method Session(rd: Reader) returns (n: nat)
      requires Valid() && rd.Valid()
      modifies this, rd
      ensures Valid()
      ensures var carried := F.Messages(rd.data[old(rd.pos)..]);
              && n <= |carried| && h.read == old(h.read) + carried[..n]
              && (!Cancelled() ==> n == |carried|)
      ensures old(h.delivered) <= h.delivered
      ensures old(moment) < moment <= old(moment) + 5 * n + 1
      ensures (forall m :: !receives(m)) ==> h.delivered == old(h.delivered)
    {
      hide Held, Settled, Snapshots, NewestOut, Receive, F.Front, F.Messages;
      n := 0;
      ghost var carried := F.Messages(rd.data[rd.pos..]);
      assert carried[0..] == carried && carried[..0] == [];
      while true
        invariant Valid() && rd.Valid() && n <= |carried|
        invariant F.Messages(rd.data[rd.pos..]) == carried[n..]
        invariant h.read == old(h.read) + carried[..n]
        invariant old(h.delivered) <= h.delivered
        invariant old(moment) <= moment <= old(moment) + 5 * n
        invariant (forall m :: !receives(m)) ==> h.delivered == old(h.delivered)
        decreases |rd.data| - rd.pos
      {
        Interfere(None);
        if Cancelled() {
          if * {
            return;
          }
        }
        ghost var p := rd.pos;
        var m := F.ReadMessage(rd);
        NextMessage(rd.data[p..]);
        if m.None? {
          return;
        }
        assert rd.data[p..][F.PREFIX_LEN + |m.value|..] == rd.data[rd.pos..];
        assert carried[..n + 1] == carried[..n] + [carried[n]];
        assert carried[n..][1..] == carried[n + 1..];
        var _ := Emit(m.value);
        n := n + 1;
      }
    }

    /** Any number of connections, each dropped in its turn; a failed dial is one
        whose stream is empty. The snapshots are those of the messages read. */
    method Run(streams: seq<Stream>)
      requires Valid() && h.read == []
      modifies this
      ensures Valid()
      ensures h.read <= Flatten(Carried(streams))
      ensures moment <= old(moment) + 5 * |h.read| + 3 * |streams|
      ensures (forall m :: !receives(m)) ==> h.delivered == old(h.delivered)
      ensures !Cancelled() ==> h.read == Flatten(Carried(streams))
      ensures !Cancelled() && streams != [] ==> lastErr
      ensures Increasing(h.delivered) && AllFromRead(h.read, h.delivered)
    {
      hide Held, Settled, Snapshots, NewestOut, Receive, Flatten, AllFromRead, Increasing, F.Messages;
      ghost var sessions := Carried(streams);
      assert sessions[..0] == [];
      FlattenNone();
      for i := 0 to |streams|
        invariant Valid()
        invariant h.read == Flatten(sessions[..i])
        invariant moment <= old(moment) + 5 * |h.read| + 3 * i
        invariant (forall m :: !receives(m)) ==> h.delivered == old(h.delivered)
        invariant !Cancelled() && i > 0 ==> lastErr
      {
        FlattenPrefix(sessions, i);
        Interfere(None);
        if Cancelled() {
          HeldMeans(h, slot);
          return;
        }
        var rd := new Reader(streams[i].data, streams[i].ending, streams[i].script);
        assert rd.data[0..] == rd.data;
        var n := Session(rd);
        Interfere(None);
        if Cancelled() {
          assert sessions[i][..n] <= sessions[i];
          HeldMeans(h, slot);
          return;
        }
        assert sessions[i][..n] == sessions[i];
        lastErr := true;
      }
      assert sessions[..|sessions|] == sessions;
      HeldMeans(h, slot);
    }
  }

  /** What one connection delivers after its OKAY, and how it fragments and ends. */
  datatype Stream = Stream(data: bytes, ending: Ending, script: seq<Fragment>)

  function Carried(streams: seq<Stream>): (ms: seq<seq<bytes>>)
    ensures |ms| == |streams|
  {
    seq(|streams|, i requires 0 <= i < |streams| => F.Messages(streams[i].data))
  }

  /** The first message of a stream is the one at its front. */
  lemma NextMessage(s: bytes)
    ensures F.Front(s).None? ==> F.Messages(s) == []
    ensures F.Front(s).Some? ==>
              var m := F.Front(s).value;
              F.PREFIX_LEN + |m| <= |s| && F.Messages(s) == [m] + F.Messages(s[F.PREFIX_LEN + |m|..])
  {
  }

  function Flatten(sessions: seq<seq<bytes>>): seq<bytes> {
    if sessions == [] then [] else Flatten(sessions[..|sessions| - 1]) + sessions[|sessions| - 1]
  }

  lemma FlattenNone()
    ensures Flatten([]) == []
  {
  }

  lemma {:induction false} FlattenPrefix(sessions: seq<seq<bytes>>, i: nat)
    requires i < |sessions|
    ensures Flatten(sessions[..i + 1]) == Flatten(sessions[..i]) + sessions[i]
    ensures Flatten(sessions[..i + 1]) <= Flatten(sessions)
    ensures Flatten(sessions[..i]) <= Flatten(sessions)
    decreases |sessions|
  {
    assert sessions[..i + 1][..i] == sessions[..i];
    if i + 1 == |sessions| {
      assert sessions[..i + 1] == sessions;
    } else {
      var k := |sessions| - 1;
      FlattenPrefix(sessions[..k], i);
      assert sessions[..k][..i + 1] == sessions[..i + 1];
    }
  }

  // ---------------------------------------------------------------------
  // What each move keeps
  // ---------------------------------------------------------------------

  lemma ReadKeeps(h: History, slot: Option<Snapshot>, payload: bytes)
    requires Held(h, slot)
    ensures var r := h.(read := h.read + [payload]);
            && Held(r, slot) && AllBelow(h.delivered, |r.read|)
            && (slot.Some? ==> slot.value.sequence < |r.read|)
            && Settled(r, slot) == Settled(h, slot)
            && Snapshots(r.read) == Snapshots(h.read) + multiset{Snapshot(|r.read|, payload)}
  {
    assert (h.read + [payload])[..|h.read|] == h.read;
  }

  lemma HeldMeans(h: History, slot: Option<Snapshot>)
    requires Held(h, slot)
    ensures Increasing(h.delivered) && AllFromRead(h.read, h.delivered)
  {
  }

  lemma NewestOutMeans(h: History, slot: Option<Snapshot>)
    requires h.read != []
    ensures NewestOut(h, slot) ==>
              var snap := Snapshot(|h.read|, h.read[|h.read| - 1]);
              slot == Some(snap) || (h.delivered != [] && h.delivered[|h.delivered| - 1] == snap)
  {
  }

  lemma SendKeeps(h: History, snap: Snapshot)
    requires Held(h, None) && h.read != [] && snap == Numbered(h.read, |h.read|) && AllBelow(h.delivered, snap.sequence)
    ensures Held(h, Some(snap)) && NewestOut(h, Some(snap))
            && Settled(h, Some(snap)) == Settled(h, None) + multiset{snap}
  {
  }

  lemma DropKeeps(h: History, slot: Option<Snapshot>)
    requires Held(h, slot) && slot.Some?
    ensures var r := h.(dropped := h.dropped + [slot.value]);
            Held(r, None) && Settled(r, None) == Settled(h, slot)
  {
  }
}
