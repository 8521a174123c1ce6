/** Who may write to a sync session's socket, when any number of goroutines
    call requests and Close on it.

    Every call is a process; its steps interleave arbitrarily with the steps of
    every other call. The session's mutex makes begin, end, markBroken and the
    flag part of Close atomic; bytes leave one at a time. */
module SyncExclusion {

  datatype Phase =
    | Running            // a request between begin and end
    | Quitting(left: nat)// a Close writing its QUIT
    | Returned

  datatype Event =
    | Began(call: nat)
    | Sent(call: nat)         // one byte of a request
    | Ended(call: nat)
    | Claimed(call: nat)      // a Close took the session
    | SentQuit(call: nat)     // one byte of QUIT

  datatype State = State(
    closed: bool, broken: bool, busy: bool,
    calls: map<nat, Phase>,
    history: seq<Event>)

  datatype Step =
    | Begin(call: nat)        // begin succeeds
    | Refuse(call: nat)       // begin fails
    | WriteByte(call: nat)
    | Break(call: nat)        // markBroken, by a request or by a failed QUIT
    | End(call: nat)
    | Close(call: nat)        // the flag part of Close
    | WriteQuit(call: nat)
    | CloseDone(call: nat)    // the socket is closed

  const QUIT_BYTES := 8

  predicate Init(s: State) {
    s == State(false, false, false, map[], [])
  }

  predicate InPhase(s: State, call: nat, p: Phase) {
    call in s.calls && s.calls[call] == p
  }

  predicate IsQuitting(s: State, call: nat) {
    call in s.calls && s.calls[call].Quitting?
  }

  predicate NextStep(s: State, t: State, step: Step) {
    match step
    case Begin(c) =>
      && c !in s.calls && !s.closed && !s.broken && !s.busy
      && t == s.(busy := true, calls := s.calls[c := Running], history := s.history + [Began(c)])
    case Refuse(c) =>
      && c !in s.calls && (s.closed || s.broken || s.busy)
      && t == s.(calls := s.calls[c := Returned])
    case WriteByte(c) =>
      && InPhase(s, c, Running)
      && t == s.(history := s.history + [Sent(c)])
    case Break(c) =>
      && (InPhase(s, c, Running) || IsQuitting(s, c))
      && t == s.(broken := true)
    case End(c) =>
      && InPhase(s, c, Running)
      && t == s.(busy := false, calls := s.calls[c := Returned], history := s.history + [Ended(c)])
    case Close(c) =>
      && c !in s.calls
      && var quit := !s.closed && !s.broken && !s.busy;
         t == s.(closed := true,
                 calls := s.calls[c := if quit then Quitting(QUIT_BYTES) else Returned],
                 history := s.history + [Claimed(c)])
    case WriteQuit(c) =>
      && IsQuitting(s, c) && s.calls[c].left > 0
      && t == s.(calls := s.calls[c := Quitting(s.calls[c].left - 1)], history := s.history + [SentQuit(c)])
    case CloseDone(c) =>
      && IsQuitting(s, c)
      && t == s.(calls := s.calls[c := Returned])
  }

  ghost predicate Next(s: State, t: State) {
    exists step :: NextStep(s, t, step)
  }

  ghost predicate Run(states: seq<State>) {
    && states != [] && Init(states[0])
    && forall i :: 0 <= i < |states| - 1 ==> Next(states[i], states[i + 1])
  }

  // ---------------------------------------------------------------------
  // What every reachable state satisfies
  // ---------------------------------------------------------------------

  predicate Writing(s: State, call: nat) {
    call in s.calls && !s.calls[call].Returned?
  }

  /** At most one call may be writing. */
  ghost predicate Exclusive(s: State) {
    forall c, d :: Writing(s, c) && Writing(s, d) ==> c == d
  }

  predicate OnWire(e: Event) {
    !e.Claimed?
  }

  /** From a call's first event on the wire to its last, nothing else is on the
      wire: no request and no QUIT lands inside another request. */
  ghost predicate Contiguous(h: seq<Event>) {
    forall i, j, k :: 0 <= i < j < k < |h| && OnWire(h[i]) && OnWire(h[j]) && OnWire(h[k]) && h[i].call == h[k].call
      ==> h[j].call == h[i].call
  }

  /** After the first byte of QUIT there is nothing but the rest of that QUIT. */
  ghost predicate QuitIsLast(h: seq<Event>) {
    forall i, j :: 0 <= i < j < |h| && h[i].SentQuit? && OnWire(h[j]) ==> h[j] == h[i]
  }

  /** No request begins once a Close has claimed the session. */
  ghost predicate NoneAfterClaim(h: seq<Event>) {
    forall i, j :: 0 <= i < j < |h| && h[i].Claimed? ==> !h[j].Began?
  }

  function QuitBytes(h: seq<Event>): nat {
    if h == [] then 0 else QuitBytes(h[..|h| - 1]) + if h[|h| - 1].SentQuit? then 1 else 0
  }

  ghost predicate Safe(s: State) {
    && Exclusive(s) && Contiguous(s.history) && QuitIsLast(s.history) && NoneAfterClaim(s.history)
    && QuitBytes(s.history) <= 8
  }

  /** Nothing but c's own events follow c on the wire. */
  ghost predicate Owns(h: seq<Event>, c: nat) {
    forall i, j :: 0 <= i < j < |h| && OnWire(h[i]) && OnWire(h[j]) && h[i].call == c ==> h[j].call == c
  }

  /** A call that may still write owns the tail of the wire. */
  ghost predicate OwnsTail(s: State) {
    forall c :: Writing(s, c) ==> Owns(s.history, c)
  }

  ghost predicate WritersFlagged(s: State) {
    forall c :: Writing(s, c) ==> if s.calls[c].Running? then s.busy else s.closed && !s.busy
  }

  ghost predicate EventsKnown(s: State) {
    forall i :: 0 <= i < |s.history| ==> s.history[i].call in s.calls && (s.history[i].Claimed? ==> s.closed)
  }

  /** The QUIT bytes already written are by a Close that may still be writing. */
  ghost predicate QuitOwned(s: State) {
    forall i :: 0 <= i < |s.history| && s.history[i].SentQuit? ==>
      s.closed && !s.busy && forall c :: Writing(s, c) ==> s.history[i].call == c
  }

  ghost predicate QuitCounted(s: State) {
    && (!s.closed ==> QuitBytes(s.history) == 0)
    && (forall c :: Writing(s, c) && s.calls[c].Quitting? ==> QuitBytes(s.history) + s.calls[c].left <= QUIT_BYTES)
  }

  ghost predicate Inv(s: State) {
    Safe(s) && OwnsTail(s) && WritersFlagged(s) && EventsKnown(s) && QuitOwned(s) && QuitCounted(s)
  }

  // ---------------------------------------------------------------------
  // What a step adds
  // ---------------------------------------------------------------------

  /** The event a step leaves in the history. */
  function Leaves(step: Step): seq<Event> {
    match step
    case Begin(c) => [Began(c)]
    case WriteByte(c) => [Sent(c)]
    case End(c) => [Ended(c)]
    case Close(c) => [Claimed(c)]
    case WriteQuit(c) => [SentQuit(c)]
    case _ => []
  }

  /** A step adds at most one event, its own, and at most one writer, itself; it
      never reopens the session. */
  lemma StepShape(s: State, t: State, step: Step)
    requires NextStep(s, t, step)
    ensures t.history == s.history + Leaves(step)
    ensures forall c :: c in s.calls ==> c in t.calls && (c != step.call ==> t.calls[c] == s.calls[c])
    ensures forall c :: c != step.call ==> (Writing(t, c) <==> Writing(s, c))
    ensures step.call in t.calls && (s.closed ==> t.closed)
  {
  }

  /** Only Begin makes the session busy, only a Close closes it. */
  lemma FlagShape(s: State, t: State, step: Step)
    requires NextStep(s, t, step)
    ensures t.busy ==> s.busy || step.Begin?
    ensures step.Begin? ==> !s.closed && !s.busy && t.busy && step.call !in s.calls
    ensures t.closed == (s.closed || step.Close?)
    ensures t.busy != s.busy ==> step.Begin? || step.End?
  {
  }

  /** A call may write after the step if it could before, or has just been let in:
      which takes a session that was free. */
  lemma WriterShape(s: State, t: State, step: Step)
    requires NextStep(s, t, step) && Writing(t, step.call)
    ensures Writing(s, step.call) || ((step.Begin? || step.Close?) && !s.closed && !s.busy && step.call !in s.calls)
    ensures Writing(s, step.call) ==>
              t.calls[step.call].Running? == s.calls[step.call].Running? && t.closed == s.closed && t.busy == s.busy
    ensures step.Begin? ==> t.calls[step.call].Running?
    ensures step.Close? ==> t.calls[step.call] == Quitting(QUIT_BYTES) && t.closed && !t.busy
  {
  }

  /** A session that is neither closed nor busy has no writer. */
  lemma FreeHasNoWriter(s: State, c: nat)
    requires WritersFlagged(s) && !s.closed && !s.busy
    ensures !Writing(s, c)
  {
  }

  /** A step on the wire is by the only call that may write, before and after. */
  lemma WireShape(s: State, t: State, step: Step)
    requires Inv(s) && NextStep(s, t, step) && Leaves(step) != [] && !step.Close?
    ensures step.Begin? ==> step.call !in s.calls && forall c :: !Writing(s, c)
    ensures !step.Begin? ==> forall c :: Writing(s, c) <==> c == step.call
    ensures forall c :: Writing(t, c) ==> c == step.call
  {
    hide Contiguous, QuitIsLast, NoneAfterClaim, OwnsTail, QuitOwned, QuitCounted, EventsKnown, QuitBytes;
    StepShape(s, t, step);
    if step.Begin? {
      forall c ensures !Writing(s, c) {
        FreeHasNoWriter(s, c);
      }
    } else {
      assert Writing(s, step.call);
    }
  }

  // ---------------------------------------------------------------------
  // Each step keeps it
  // ---------------------------------------------------------------------

  lemma ExclusiveStep(s: State, t: State, step: Step)
    requires Exclusive(s) && WritersFlagged(s) && NextStep(s, t, step)
    ensures Exclusive(t)
  {
    StepShape(s, t, step);
    if Writing(t, step.call) {
      WriterShape(s, t, step);
      hide NextStep;
      forall c, d | Writing(t, c) && Writing(t, d)
        ensures c == d
      {
        if !Writing(s, step.call) {
          FreeHasNoWriter(s, c);
          FreeHasNoWriter(s, d);
        }
      }
    } else {
      hide NextStep;
    }
  }

  lemma FlaggedStep(s: State, t: State, step: Step)
    requires Exclusive(s) && WritersFlagged(s) && NextStep(s, t, step)
    ensures WritersFlagged(t)
  {
    StepShape(s, t, step);
    FlagShape(s, t, step);
    forall c | Writing(t, c)
      ensures if t.calls[c].Running? then t.busy else t.closed && !t.busy
    {
      if c == step.call {
        WriterShape(s, t, step);
      } else {
        assert Writing(s, c);
        OtherWriter(s, t, step, c);
      }
    }
  }

  /** While c may write, another call's step moves neither flag c relies on. */
  lemma OtherWriter(s: State, t: State, step: Step, c: nat)
    requires Exclusive(s) && WritersFlagged(s) && NextStep(s, t, step) && Writing(s, c) && c != step.call
    ensures t.busy == s.busy && (s.closed ==> t.closed)
  {
    FlagShape(s, t, step);
    if step.End? {
      assert Writing(s, step.call);
    }
    if step.Begin? {
      FreeHasNoWriter(s, c);
    }
  }

  lemma KnownStep(s: State, t: State, step: Step)
    requires EventsKnown(s) && NextStep(s, t, step)
    ensures EventsKnown(t)
  {
    StepShape(s, t, step);
    FlagShape(s, t, step);
    hide NextStep;
    forall i | 0 <= i < |t.history|
      ensures t.history[i].call in t.calls && (t.history[i].Claimed? ==> t.closed)
    {
      if i < |s.history| {
        assert t.history[i] == s.history[i];
      }
    }
  }

  lemma OwnsSnoc(h: seq<Event>, e: Event, c: nat)
    requires Owns(h, c)
    requires OnWire(e) ==> e.call == c || forall i :: 0 <= i < |h| ==> h[i].call != c
    ensures Owns(h + [e], c)
  {
  }

  lemma ContiguousSnoc(h: seq<Event>, e: Event)
    requires Contiguous(h) && (OnWire(e) ==> Owns(h, e.call))
    ensures Contiguous(h + [e])
  {
  }

  lemma UnknownOwns(s: State, c: nat)
    requires EventsKnown(s) && c !in s.calls
    ensures Owns(s.history, c) && forall i :: 0 <= i < |s.history| ==> s.history[i].call != c
  {
  }

  /** Nobody's bytes come between another's. */
  lemma TailStep(s: State, t: State, step: Step)
    requires Inv(s) && NextStep(s, t, step)
    ensures OwnsTail(t) && Contiguous(t.history)
  {
    hide Owns, Contiguous, QuitIsLast, NoneAfterClaim, QuitOwned, QuitCounted, QuitBytes;
    StepShape(s, t, step);
    if step.call !in s.calls {
      UnknownOwns(s, step.call);
    }
    if Leaves(step) == [] {
      assert t.history == s.history;
      QuietWriter(s, t, step);
    } else {
      var e := Leaves(step)[0];
      if step.Close? {
        ContiguousSnoc(s.history, e);
        forall c | Writing(t, c)
          ensures Owns(t.history, c)
        {
          OwnsSnoc(s.history, e, c);
        }
      } else {
        WireShape(s, t, step);
        assert Owns(s.history, step.call);
        ContiguousSnoc(s.history, e);
        OwnsSnoc(s.history, e, step.call);
      }
    }
  }

  lemma QuietWriter(s: State, t: State, step: Step)
    requires NextStep(s, t, step) && Leaves(step) == []
    ensures forall c :: Writing(t, c) ==> Writing(s, c)
  {
  }

  lemma QuitOwnedStep(s: State, t: State, step: Step)
    requires Inv(s) && NextStep(s, t, step)
    ensures QuitOwned(t)
  {
    hide Contiguous, QuitIsLast, NoneAfterClaim, OwnsTail, QuitCounted, EventsKnown, QuitBytes;
    StepShape(s, t, step);
    FlagShape(s, t, step);
    forall i | 0 <= i < |t.history| && t.history[i].SentQuit?
      ensures t.closed && !t.busy && forall c :: Writing(t, c) ==> t.history[i].call == c
    {
      if i < |s.history| {
        assert t.history[i] == s.history[i];
        SameWriters(s, t, step);
      } else {
        WireShape(s, t, step);
        assert Writing(s, step.call);
      }
    }
  }

  /** A closed session lets nobody new write. */
  lemma SameWriters(s: State, t: State, step: Step)
    requires NextStep(s, t, step) && s.closed
    ensures forall c :: Writing(t, c) ==> Writing(s, c)
  {
    StepShape(s, t, step);
    if Writing(t, step.call) {
      WriterShape(s, t, step);
    }
  }

  lemma QuitCountedStep(s: State, t: State, step: Step)
    requires Inv(s) && NextStep(s, t, step)
    ensures QuitCounted(t) && QuitBytes(t.history) <= QUIT_BYTES
  {
    hide Contiguous, QuitIsLast, NoneAfterClaim, OwnsTail, QuitOwned, EventsKnown, QuitBytes;
    StepShape(s, t, step);
    if Leaves(step) != [] {
      QuitBytesSnoc(s.history, Leaves(step)[0]);
      assert t.history == s.history + [Leaves(step)[0]];
    } else {
      assert t.history == s.history;
    }
    if step.WriteQuit? {
      WireShape(s, t, step);
      assert Writing(s, step.call);
    }
  }

  /** After QUIT and after a claim, nothing begins. */
  lemma LastStep(s: State, t: State, step: Step)
    requires Inv(s) && NextStep(s, t, step)
    ensures QuitIsLast(t.history) && NoneAfterClaim(t.history)
  {
    hide Contiguous, OwnsTail, QuitCounted, QuitBytes;
    StepShape(s, t, step);
    FlagShape(s, t, step);
    if Leaves(step) == [] {
      assert t.history == s.history;
    } else {
      var e := Leaves(step)[0];
      if !step.Close? {
        WireShape(s, t, step);
      }
      hide NextStep;
      LastSnoc(s, step, e);
    }
  }

  lemma LastSnoc(s: State, step: Step, e: Event)
    requires QuitIsLast(s.history) && NoneAfterClaim(s.history) && QuitOwned(s) && EventsKnown(s)
    requires Leaves(step) == [e] && (e.Began? ==> !s.closed)
    requires OnWire(e) && !e.Began? ==> Writing(s, e.call)
    requires Writing(s, e.call) && s.closed && !s.busy ==> IsQuitting(s, e.call)
    requires IsQuitting(s, e.call) && OnWire(e) ==> e.SentQuit?
    ensures QuitIsLast(s.history + [e]) && NoneAfterClaim(s.history + [e])
  {
    var h := s.history + [e];
    forall i, j | 0 <= i < j < |h| && h[i].SentQuit? && OnWire(h[j])
      ensures h[j] == h[i]
    {
      if j == |s.history| {
        assert s.history[i] == h[i];
      }
    }
    forall i, j | 0 <= i < j < |h| && h[i].Claimed?
      ensures !h[j].Began?
    {
      if j == |s.history| {
        assert s.history[i] == h[i];
      }
    }
  }

  lemma QuitBytesSnoc(h: seq<Event>, e: Event)
    ensures QuitBytes(h + [e]) == QuitBytes(h) + if e.SentQuit? then 1 else 0
  {
    assert (h + [e])[..|h|] == h;
  }

  lemma InvStep(s: State, t: State, step: Step)
    requires Inv(s) && NextStep(s, t, step)
    ensures Inv(t)
  {
    hide NextStep, QuitBytes, Contiguous, QuitIsLast, NoneAfterClaim, OwnsTail, WritersFlagged, EventsKnown, QuitOwned,
         QuitCounted, Exclusive;
    ExclusiveStep(s, t, step);
    FlaggedStep(s, t, step);
    KnownStep(s, t, step);
    TailStep(s, t, step);
    QuitOwnedStep(s, t, step);
    QuitCountedStep(s, t, step);
    LastStep(s, t, step);
  }

  /** Every state of every interleaving is safe. */
  lemma {:induction false} WriterExclusion(states: seq<State>, n: nat)
    requires Run(states) && n < |states|
    ensures Inv(states[n]) && Safe(states[n])
    decreases n
  {
    if n > 0 {
      WriterExclusion(states, n - 1);
      assert Next(states[n - 1], states[n - 1 + 1]);
      var step :| NextStep(states[n - 1], states[n], step);
      hide NextStep, Inv;
      InvStep(states[n - 1], states[n], step);
    }
    InvIsSafe(states[n]);
  }

  lemma InvIsSafe(s: State)
    ensures Inv(s) ==> Safe(s)
    ensures Init(s) ==> Inv(s)
  {
  }
}
