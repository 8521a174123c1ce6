/** The bulk-run scheduler: a goroutine per hub, a goroutine per target, a
    semaphore per hub, one semaphore for the farm, cancellation at any point,
    and the bookkeeping that closes the run once every worker is gone. */
module BulkRun {
  import opened Options

  const GLOBAL_LIMIT := 64

  /** How a target's command ended: the transport failed, the executor gave
      neither result nor error, or the command exited. */
  datatype Ending = ExecFailed | NoResult | ExitedWith(code: int)

  datatype RowState = Pending | Running | Ok | Error | Skipped

  /** Where one target's goroutine is. */
  datatype Phase =
    | Unspawned
    | WaitHub            // spawned, wants its hub's semaphore
    | WaitGlobal         // holds the hub's, wants the global one
    | Claimed            // holds both
    | Marked             // row marked running
    | Executed(ending: Ending) // the command ran
    | Recorded           // result written
    | HubOnly            // global released, or never taken
    | Leaving            // hub's released, or never taken
    | Exited

  /** One target: its hub, its goroutine, its farm.bulk_targets row, how often its
      command was sent, and how it last ended. */
  datatype Target = Target(hub: nat, phase: Phase, row: RowState, execs: nat, ended: Option<Ending>)

  /** A hub's goroutine: about to check the context, cleared to spawn one
      target, waiting for its targets, or done. */
  datatype HubPhase = Checking | Cleared | Waiting | HubDone

  datatype Hub = Hub(phase: HubPhase, held: nat, waitGroup: nat)

  datatype Finish = NotYet | Closing(aborted: bool, skipped: bool) | Over

  datatype RunState = RunRunning | RunDone | RunCancelled

  datatype State = State(
    ts: seq<Target>, hubs: seq<Hub>, global: nat, waitGroup: nat,
    cancelled: bool,
    lost: bool,          // some bookkeeping write failed
    finish: Finish, run: RunState)

  datatype Step =
    | Cancel
    | Check(h: nat) | Spawn(h: nat, t: nat) | Break(h: nat) | ListDone(h: nat) | Join(h: nat)
    | AcquireHub(t: nat) | GiveUpHub(t: nat) | AcquireGlobal(t: nat) | GiveUpGlobal(t: nat)
    | Mark(t: nat, written: bool) | Execute(t: nat, ending: Ending) | Record(t: nat, written: bool)
    | ReleaseGlobal(t: nat) | ReleaseHub(t: nat) | Exit(t: nat)
    | Evaluate | SkipOutstanding(written: bool) | EndRun(written: bool)

  /** The hub cap a request gets: four unless it asks, never above 32. */
  function MaxPerHub(requested: int): (m: nat)
    ensures 1 <= m <= 32
    ensures 1 <= requested <= 32 ==> m == requested
    ensures requested < 1 ==> m == 4
  {
    if requested <= 0 then 4 else if requested > 32 then 32 else requested
  }

  predicate InRange(s: State, t: nat) {
    t < |s.ts| && s.ts[t].hub < |s.hubs|
  }

  predicate Enabled(max: nat, s: State, step: Step) {
    match step
    case Cancel => !s.cancelled
    case Check(h) => h < |s.hubs| && s.hubs[h].phase == Checking && !s.cancelled && Spawnable(s.ts, h)
    case Spawn(h, t) => h < |s.hubs| && s.hubs[h].phase == Cleared && t < |s.ts| && Unstarted(s.ts[t], h)
    case Break(h) => h < |s.hubs| && s.hubs[h].phase == Checking && s.cancelled
    case ListDone(h) =>
      h < |s.hubs| && s.hubs[h].phase == Checking && forall t :: 0 <= t < |s.ts| ==> !Unstarted(s.ts[t], h)
    case Join(h) => h < |s.hubs| && s.hubs[h].phase == Waiting && s.hubs[h].waitGroup == 0 && s.waitGroup > 0
    case AcquireHub(t) => InRange(s, t) && s.ts[t].phase == WaitHub && s.hubs[s.ts[t].hub].held < max
    case GiveUpHub(t) => InRange(s, t) && s.ts[t].phase == WaitHub && s.cancelled
    case AcquireGlobal(t) => InRange(s, t) && s.ts[t].phase == WaitGlobal && s.global < GLOBAL_LIMIT
    case GiveUpGlobal(t) => InRange(s, t) && s.ts[t].phase == WaitGlobal && s.cancelled
    case Mark(t, _) => InRange(s, t) && s.ts[t].phase == Claimed
    case Execute(t, _) => InRange(s, t) && s.ts[t].phase == Marked
    case Record(t, _) => InRange(s, t) && s.ts[t].phase.Executed?
    case ReleaseGlobal(t) => InRange(s, t) && s.ts[t].phase == Recorded && s.global > 0
    case ReleaseHub(t) => InRange(s, t) && s.ts[t].phase == HubOnly && s.hubs[s.ts[t].hub].held > 0
    case Exit(t) => InRange(s, t) && s.ts[t].phase == Leaving && s.hubs[s.ts[t].hub].waitGroup > 0
    case Evaluate => s.finish == NotYet && s.waitGroup == 0
    case SkipOutstanding(_) => s.finish == Closing(true, false)
    case EndRun(_) => s.finish.Closing? && (s.finish.aborted ==> s.finish.skipped)
  }

  predicate Unstarted(t: Target, h: nat) {
    t.hub == h && t.phase == Unspawned
  }

  function At(s: State, t: nat, p: Phase): State
    requires t < |s.ts|
  {
    s.(ts := s.ts[t := s.ts[t].(phase := p)])
  }

  function HubAt(s: State, h: nat, hub: Hub): State
    requires h < |s.hubs|
  {
    s.(hubs := s.hubs[h := hub])
  }

  function Apply(max: nat, s: State, step: Step): State
    requires Enabled(max, s, step)
  {
    match step
    case Cancel => s.(cancelled := true)
    case Check(h) => HubAt(s, h, s.hubs[h].(phase := Cleared))
    case Spawn(h, t) =>
      HubAt(At(s, t, WaitHub), h, s.hubs[h].(phase := Checking, waitGroup := s.hubs[h].waitGroup + 1))
    case Break(h) => HubAt(s, h, s.hubs[h].(phase := Waiting))
    case ListDone(h) => HubAt(s, h, s.hubs[h].(phase := Waiting))
    case Join(h) => HubAt(s, h, s.hubs[h].(phase := HubDone)).(waitGroup := s.waitGroup - 1)
    case AcquireHub(t) =>
      var h := s.ts[t].hub;
      HubAt(At(s, t, WaitGlobal), h, s.hubs[h].(held := s.hubs[h].held + 1))
    case GiveUpHub(t) => At(s, t, Leaving)
    case AcquireGlobal(t) => At(s, t, Claimed).(global := s.global + 1)
    case GiveUpGlobal(t) => At(s, t, HubOnly)
    case Mark(t, written) =>
      var row := if written && s.ts[t].row == Pending then Running else s.ts[t].row;
      s.(ts := s.ts[t := s.ts[t].(phase := Marked, row := row)], lost := s.lost || !written)
    case Execute(t, ending) =>
      s.(ts := s.ts[t := s.ts[t].(phase := Executed(ending), execs := s.ts[t].execs + 1, ended := Some(ending))])
    case Record(t, written) =>
      var row := if written then (if s.ts[t].phase.ending == ExitedWith(0) then Ok else Error) else s.ts[t].row;
      s.(ts := s.ts[t := s.ts[t].(phase := Recorded, row := row)], lost := s.lost || !written)
    case ReleaseGlobal(t) => At(s, t, HubOnly).(global := s.global - 1)
    case ReleaseHub(t) =>
      var h := s.ts[t].hub;
      HubAt(At(s, t, Leaving), h, s.hubs[h].(held := s.hubs[h].held - 1))
    case Exit(t) =>
      var h := s.ts[t].hub;
      HubAt(At(s, t, Exited), h, s.hubs[h].(waitGroup := s.hubs[h].waitGroup - 1))
    case Evaluate => s.(finish := Closing(s.cancelled && s.ts != [], false))
    case SkipOutstanding(written) =>
      s.(ts := if written then SkipRows(s.ts) else s.ts, lost := s.lost || !written, finish := Closing(true, true))
    case EndRun(written) =>
      s.(run := if !written then s.run else if s.finish.aborted then RunCancelled else RunDone,
         lost := s.lost || !written, finish := Over)
  }

  function SkipRows(ts: seq<Target>): seq<Target> {
    seq(|ts|, i requires 0 <= i < |ts| => if ts[i].row in {Pending, Running} then ts[i].(row := Skipped) else ts[i])
  }

  predicate Init(s: State) {
    && (forall t :: 0 <= t < |s.ts| ==>
          s.ts[t].hub < |s.hubs| && s.ts[t] == Target(s.ts[t].hub, Unspawned, Pending, 0, None))
    && (forall h :: 0 <= h < |s.hubs| ==> s.hubs[h] == Hub(Checking, 0, 0))
    && s.global == 0 && s.waitGroup == |s.hubs| && !s.lost && s.finish == NotYet && s.run == RunRunning
  }

  // ---------------------------------------------------------------------
  // Counting
  // ---------------------------------------------------------------------

  datatype Question = HoldsGlobal | HoldsHub(h: nat) | AliveOn(h: nat)

  predicate Answer(q: Question, t: Target) {
    match q
    case HoldsGlobal => t.phase in {Claimed, Marked, Recorded} || t.phase.Executed?
    case HoldsHub(h) => t.hub == h && (t.phase in {WaitGlobal, Claimed, Marked, Recorded, HubOnly} || t.phase.Executed?)
    case AliveOn(h) => t.hub == h && t.phase !in {Unspawned, Exited}
  }

  function Count(q: Question, ts: seq<Target>): nat {
    if ts == [] then 0 else Count(q, ts[..|ts| - 1]) + if Answer(q, ts[|ts| - 1]) then 1 else 0
  }

  lemma {:induction false} CountUpdate(q: Question, ts: seq<Target>, i: nat, t: Target)
    requires i < |ts|
    ensures Count(q, ts[i := t]) == Count(q, ts) - (if Answer(q, ts[i]) then 1 else 0) + (if Answer(q, t) then 1 else 0)
    decreases |ts|
  {
    hide Answer;
    var n := |ts| - 1;
    if i < n {
      CountUpdate(q, ts[..n], i, t);
      assert ts[i := t][..n] == ts[..n][i := t];
    } else {
      assert ts[i := t][..n] == ts[..n];
    }
  }

  lemma {:induction false} CountZero(q: Question, ts: seq<Target>, i: nat)
    requires Count(q, ts) == 0 && i < |ts|
    ensures !Answer(q, ts[i])
    decreases |ts|
  {
    hide Answer;
    var n := |ts| - 1;
    if i < n {
      CountZero(q, ts[..n], i);
    }
  }

  lemma {:induction false} CountSome(q: Question, ts: seq<Target>) returns (i: nat)
    requires Count(q, ts) > 0
    ensures i < |ts| && Answer(q, ts[i])
    decreases |ts|
  {
    hide Answer;
    i := |ts| - 1;
    if !Answer(q, ts[i]) {
      i := CountSome(q, ts[..i]);
    }
  }

  lemma {:induction false} CountNone(q: Question, ts: seq<Target>)
    requires forall t :: 0 <= t < |ts| ==> !Answer(q, ts[t])
    ensures Count(q, ts) == 0
    decreases |ts|
  {
    if ts != [] {
      CountNone(q, ts[..|ts| - 1]);
    }
  }

  /** Counts look only at hub and phase. */
  lemma {:induction false} CountSkipped(q: Question, ts: seq<Target>)
    ensures Count(q, SkipRows(ts)) == Count(q, ts)
    decreases |ts|
  {
    if ts != [] {
      var n := |ts| - 1;
      assert SkipRows(ts)[..n] == SkipRows(ts[..n]);
      CountSkipped(q, ts[..n]);
    }
  }

  function Unfinished(hubs: seq<Hub>): nat {
    if hubs == [] then 0 else Unfinished(hubs[..|hubs| - 1]) + if hubs[|hubs| - 1].phase == HubDone then 0 else 1
  }

  lemma {:induction false} UnfinishedUpdate(hubs: seq<Hub>, i: nat, h: Hub)
    requires i < |hubs|
    ensures Unfinished(hubs[i := h]) ==
            Unfinished(hubs) - (if hubs[i].phase == HubDone then 0 else 1) + (if h.phase == HubDone then 0 else 1)
    decreases |hubs|
  {
    var n := |hubs| - 1;
    if i < n {
      UnfinishedUpdate(hubs[..n], i, h);
      assert hubs[i := h][..n] == hubs[..n][i := h];
    } else {
      assert hubs[i := h][..n] == hubs[..n];
    }
  }

  lemma {:induction false} UnfinishedZero(hubs: seq<Hub>, i: nat)
    requires Unfinished(hubs) == 0 && i < |hubs|
    ensures hubs[i].phase == HubDone
    decreases |hubs|
  {
    if i < |hubs| - 1 {
      UnfinishedZero(hubs[..|hubs| - 1], i);
    }
  }

  lemma {:induction false} AllUnfinished(hubs: seq<Hub>)
    requires forall h :: 0 <= h < |hubs| ==> hubs[h].phase != HubDone
    ensures Unfinished(hubs) == |hubs|
    decreases |hubs|
  {
    if hubs != [] {
      AllUnfinished(hubs[..|hubs| - 1]);
    }
  }

  lemma {:induction false} SomeUnfinished(hubs: seq<Hub>) returns (i: nat)
    requires Unfinished(hubs) > 0
    ensures i < |hubs| && hubs[i].phase != HubDone
    decreases |hubs|
  {
    i := |hubs| - 1;
    if hubs[i].phase == HubDone {
      i := SomeUnfinished(hubs[..i]);
    }
  }

  // ---------------------------------------------------------------------
  // What every reachable state satisfies
  // ---------------------------------------------------------------------

  /** Semaphores and wait groups count what they stand for, within bounds. */
  ghost predicate Counters(max: nat, s: State) {
    && (forall t :: 0 <= t < |s.ts| ==> s.ts[t].hub < |s.hubs|)
    && s.global == Count(HoldsGlobal, s.ts) <= GLOBAL_LIMIT
    && (forall h :: 0 <= h < |s.hubs| ==> HubCounts(max, s, h))
    && s.waitGroup == Unfinished(s.hubs)
  }

  ghost predicate HubCounts(max: nat, s: State, h: nat)
    requires h < |s.hubs|
  {
    s.hubs[h].held == Count(HoldsHub(h), s.ts) <= max && s.hubs[h].waitGroup == Count(AliveOn(h), s.ts)
  }

  /** A target's row and its number of executions follow its goroutine. */
  predicate TargetOk(t: Target, cancelled: bool) {
    match t.phase
    case Unspawned => t.execs == 0
    case WaitHub => t.execs == 0
    case WaitGlobal => t.execs == 0
    case Claimed => t.execs == 0
    case Marked => t.execs == 0
    case Executed(_) => t.execs == 1
    case Recorded => t.execs == 1
    case _ => t.execs <= 1 && (!cancelled ==> t.execs == 1)
  }

  predicate RowOk(t: Target) {
    match t.phase
    case Marked => t.row == Running
    case Executed(_) => t.row == Running
    case Recorded => t.row in {Ok, Error}
    case HubOnly => t.row in (if t.execs == 1 then {Ok, Error} else {Pending})
    case Leaving => t.row in (if t.execs == 1 then {Ok, Error} else {Pending})
    case Exited => t.row in (if t.execs == 1 then {Ok, Error} else {Pending})
    case _ => t.row == Pending
  }

  ghost predicate Targets(s: State) {
    && (forall t :: 0 <= t < |s.ts| ==> TargetOk(s.ts[t], s.cancelled))
    && (!s.lost && !Skipping(s) ==> forall t :: 0 <= t < |s.ts| ==> RowOk(s.ts[t]))
  }

  predicate Skipping(s: State) {
    s.finish == Over || (s.finish.Closing? && s.finish.skipped)
  }

  /** Hub goroutines that stopped spawning left nobody behind unless the run was
      cancelled, and those that are done left nobody alive. */
  ghost predicate Hubs(s: State) {
    forall t :: 0 <= t < |s.ts| && s.ts[t].hub < |s.hubs| ==>
      && (s.hubs[s.ts[t].hub].phase in {Waiting, HubDone} && !s.cancelled ==> s.ts[t].phase != Unspawned)
      && (s.hubs[s.ts[t].hub].phase == HubDone ==> s.ts[t].phase in {Unspawned, Exited})
  }

  /** A hub cleared to spawn still has somebody to spawn. */
  ghost predicate Ready(s: State) {
    forall h :: 0 <= h < |s.hubs| && s.hubs[h].phase == Cleared ==> Spawnable(s.ts, h)
  }

  predicate Spawnable(ts: seq<Target>, h: nat) {
    exists t :: 0 <= t < |ts| && Unstarted(ts[t], h)
  }

  ghost predicate AllRan(s: State) {
    forall t :: 0 <= t < |s.ts| ==> s.ts[t].phase == Exited && s.ts[t].execs == 1
  }

  ghost predicate NoneOutstanding(s: State) {
    forall t :: 0 <= t < |s.ts| ==> s.ts[t].row !in {Pending, Running}
  }

  ghost predicate AllRecorded(s: State) {
    forall t :: 0 <= t < |s.ts| ==> s.ts[t].row in {Ok, Error}
  }

  ghost predicate Finishing(s: State) {
    && (s.finish != NotYet ==> s.waitGroup == 0)
    && (s.finish.Closing? && !s.finish.aborted ==> AllRan(s) && !s.finish.skipped)
    && (s.finish.Closing? && s.finish.skipped && !s.lost ==> NoneOutstanding(s))
    && (s.finish != Over ==> s.run == RunRunning)
    && (s.finish == Over && !s.lost ==>
          || (s.run == RunDone && AllRan(s) && AllRecorded(s))
          || (s.run == RunCancelled && NoneOutstanding(s)))
  }

  ghost predicate Inv(max: nat, s: State) {
    Counters(max, s) && Targets(s) && Hubs(s) && Ready(s) && Finishing(s)
  }

  lemma InitInv(max: nat, s: State)
    requires Init(s)
    ensures Inv(max, s)
  {
    CountNone(HoldsGlobal, s.ts);
    forall h | 0 <= h < |s.hubs|
      ensures HubCounts(max, s, h)
    {
      CountNone(HoldsHub(h), s.ts);
      CountNone(AliveOn(h), s.ts);
    }
    AllUnfinished(s.hubs);
  }

  /** One target's goroutine moved and its own hub's counters moved with it. */
  lemma CountersMove(max: nat, s: State, r: State, t: nat, next: Target)
    requires Counters(max, s) && t < |s.ts| && next.hub == s.ts[t].hub
    requires r.ts == s.ts[t := next] && |r.hubs| == |s.hubs|
    requires r.global == s.global - B(Answer(HoldsGlobal, s.ts[t])) + B(Answer(HoldsGlobal, next))
    requires s.global + 1 <= GLOBAL_LIMIT || r.global <= s.global
    requires forall h :: 0 <= h < |s.hubs| ==>
               && r.hubs[h].held == s.hubs[h].held - B(Answer(HoldsHub(h), s.ts[t])) + B(Answer(HoldsHub(h), next))
               && (s.hubs[h].held + 1 <= max || r.hubs[h].held <= s.hubs[h].held)
               && r.hubs[h].waitGroup ==
                    s.hubs[h].waitGroup - B(Answer(AliveOn(h), s.ts[t])) + B(Answer(AliveOn(h), next))
    requires r.waitGroup == Unfinished(r.hubs)
    ensures Counters(max, r)
  {
    hide Answer;
    CountUpdate(HoldsGlobal, s.ts, t, next);
    forall h | 0 <= h < |r.hubs|
      ensures HubCounts(max, r, h)
    {
      assert HubCounts(max, s, h);
      CountUpdate(HoldsHub(h), s.ts, t, next);
      CountUpdate(AliveOn(h), s.ts, t, next);
    }
  }

  function B(b: bool): int {
    if b then 1 else 0
  }

  function Mover(step: Step): (t: nat) {
    match step
    case Spawn(_, t) => t
    case AcquireHub(t) => t
    case GiveUpHub(t) => t
    case AcquireGlobal(t) => t
    case GiveUpGlobal(t) => t
    case Mark(t, _) => t
    case Execute(t, _) => t
    case Record(t, _) => t
    case ReleaseGlobal(t) => t
    case ReleaseHub(t) => t
    case Exit(t) => t
    case _ => 0
  }

  predicate MovesTarget(step: Step) {
    step.Spawn? || step.AcquireHub? || step.GiveUpHub? || step.AcquireGlobal? || step.GiveUpGlobal? || step.Mark?
    || step.Execute? || step.Record? || step.ReleaseGlobal? || step.ReleaseHub? || step.Exit?
  }

  /** What a step of a target's goroutine changes, and nothing else. */
  lemma MoveShape(max: nat, s: State, step: Step)
    requires Enabled(max, s, step) && MovesTarget(step) && Mover(step) < |s.ts| && s.ts[Mover(step)].hub < |s.hubs|
    ensures var r, t := Apply(max, s, step), Mover(step);
            var h := s.ts[t].hub;
            && |r.ts| == |s.ts| && r.ts == s.ts[t := r.ts[t]] && r.ts[t].hub == h
            && |r.hubs| == |s.hubs| && r.hubs == s.hubs[h := r.hubs[h]]
            && r.waitGroup == s.waitGroup && (r.hubs[h].phase == HubDone <==> s.hubs[h].phase == HubDone)
  {
  }

  lemma MoveGlobal(max: nat, s: State, step: Step)
    requires Enabled(max, s, step) && MovesTarget(step) && Mover(step) < |s.ts| && s.ts[Mover(step)].hub < |s.hubs|
    ensures var r, t := Apply(max, s, step), Mover(step);
            && t < |r.ts|
            && r.global == s.global - B(Answer(HoldsGlobal, s.ts[t])) + B(Answer(HoldsGlobal, r.ts[t]))
            && (s.global + 1 <= GLOBAL_LIMIT || r.global <= s.global)
  {
  }

  lemma MoveCounts(max: nat, s: State, step: Step, h: nat)
    requires Enabled(max, s, step) && MovesTarget(step) && Mover(step) < |s.ts| && h < |s.hubs|
    requires s.ts[Mover(step)].hub < |s.hubs|
    ensures var r, t := Apply(max, s, step), Mover(step);
            && t < |r.ts| && h < |r.hubs|
            && r.hubs[h].held == s.hubs[h].held - B(Answer(HoldsHub(h), s.ts[t])) + B(Answer(HoldsHub(h), r.ts[t]))
            && (s.hubs[h].held + 1 <= max || r.hubs[h].held <= s.hubs[h].held)
            && r.hubs[h].waitGroup ==
                 s.hubs[h].waitGroup - B(Answer(AliveOn(h), s.ts[t])) + B(Answer(AliveOn(h), r.ts[t]))
  {
  }

  lemma CountersMoveStep(max: nat, s: State, step: Step)
    requires Counters(max, s) && Enabled(max, s, step) && MovesTarget(step) && Mover(step) < |s.ts|
    ensures Counters(max, Apply(max, s, step))
  {
    hide Count, Unfinished, Answer, Apply, Enabled, HubCounts;
    var r, t := Apply(max, s, step), Mover(step);
    var h := s.ts[t].hub;
    MoveShape(max, s, step);
    UnfinishedUpdate(s.hubs, h, r.hubs[h]);
    MoveGlobal(max, s, step);
    forall i | 0 <= i < |s.hubs|
      ensures
        && r.hubs[i].held == s.hubs[i].held - B(Answer(HoldsHub(i), s.ts[t])) + B(Answer(HoldsHub(i), r.ts[t]))
        && (s.hubs[i].held + 1 <= max || r.hubs[i].held <= s.hubs[i].held)
        && r.hubs[i].waitGroup == s.hubs[i].waitGroup - B(Answer(AliveOn(i), s.ts[t])) + B(Answer(AliveOn(i), r.ts[t]))
    {
      MoveCounts(max, s, step, i);
    }
    CountersMove(max, s, r, t, r.ts[t]);
  }

  lemma CountersStep(max: nat, s: State, step: Step)
    requires Counters(max, s) && Enabled(max, s, step)
    ensures Counters(max, Apply(max, s, step))
  {
    hide Count, Unfinished;
    if MovesTarget(step) {
      CountersMoveStep(max, s, step);
    } else {
      var r := Apply(max, s, step);
      if step.SkipOutstanding? {
        CountSkipped(HoldsGlobal, s.ts);
        forall h | 0 <= h < |s.hubs|
          ensures HubCounts(max, r, h)
        {
          assert HubCounts(max, s, h);
          CountSkipped(HoldsHub(h), s.ts);
          CountSkipped(AliveOn(h), s.ts);
        }
      } else if step.Check? || step.Break? || step.ListDone? || step.Join? {
        HubMoved(max, s, r, step.h);
      } else {
        assert forall h :: 0 <= h < |s.hubs| ==> HubCounts(max, s, h) ==> HubCounts(max, r, h);
      }
    }
  }

  lemma HubMoved(max: nat, s: State, r: State, h: nat)
    requires Counters(max, s) && h < |s.hubs| && r.ts == s.ts && r.global == s.global
    requires |r.hubs| == |s.hubs| && r.hubs == s.hubs[h := s.hubs[h].(phase := r.hubs[h].phase)]
    requires r.waitGroup == s.waitGroup - B(r.hubs[h].phase == HubDone && s.hubs[h].phase != HubDone)
    requires s.hubs[h].phase == HubDone ==> r.hubs[h].phase == HubDone
    ensures Counters(max, r)
  {
    hide Count, Unfinished;
    UnfinishedUpdate(s.hubs, h, r.hubs[h]);
    forall i | 0 <= i < |r.hubs|
      ensures HubCounts(max, r, i)
    {
      assert HubCounts(max, s, i);
    }
  }

  /** A target's step leaves the others, the cancellation and the finish alone. */
  lemma MoveLeaves(max: nat, s: State, step: Step)
    requires Enabled(max, s, step) && MovesTarget(step)
    ensures var r, t := Apply(max, s, step), Mover(step);
            && t < |s.ts| && |r.ts| == |s.ts| && r.ts == s.ts[t := r.ts[t]]
            && r.cancelled == s.cancelled && r.finish == s.finish && (s.lost ==> r.lost)
  {
  }

  lemma MovedTargetOk(max: nat, s: State, step: Step)
    requires Enabled(max, s, step) && MovesTarget(step) && Mover(step) < |s.ts|
    requires TargetOk(s.ts[Mover(step)], s.cancelled)
    ensures var r, t := Apply(max, s, step), Mover(step);
            t < |r.ts| && TargetOk(r.ts[t], r.cancelled)
  {
  }

  lemma MovedRowOk(max: nat, s: State, step: Step)
    requires Enabled(max, s, step) && MovesTarget(step) && Mover(step) < |s.ts|
    requires TargetOk(s.ts[Mover(step)], s.cancelled) && RowOk(s.ts[Mover(step)])
    ensures var r, t := Apply(max, s, step), Mover(step);
            t < |r.ts| && (!r.lost ==> RowOk(r.ts[t]))
  {
  }

  lemma TargetsMoveStep(max: nat, s: State, step: Step)
    requires Targets(s) && Enabled(max, s, step) && MovesTarget(step)
    ensures Targets(Apply(max, s, step))
  {
    hide Enabled, Apply, TargetOk, RowOk, MovesTarget, Mover;
    MoveLeaves(max, s, step);
    MovedTargetOk(max, s, step);
    if !s.lost && !Skipping(s) {
      MovedRowOk(max, s, step);
    }
  }

  /** Any other step changes no goroutine, and rows only when skipping. */
  lemma OthersLeave(max: nat, s: State, step: Step)
    requires Enabled(max, s, step) && !MovesTarget(step)
    ensures var r := Apply(max, s, step);
            && |r.ts| == |s.ts| && (s.cancelled ==> r.cancelled) && (s.lost ==> r.lost)
            && (forall t :: 0 <= t < |s.ts| ==> r.ts[t].phase == s.ts[t].phase && r.ts[t].execs == s.ts[t].execs)
            && (r.ts == s.ts || Skipping(r)) && (Skipping(s) ==> Skipping(r) || s.finish == NotYet)
  {
  }

  lemma TargetsStep(max: nat, s: State, step: Step)
    requires Targets(s) && Finishing(s) && Enabled(max, s, step)
    ensures Targets(Apply(max, s, step))
  {
    if MovesTarget(step) {
      TargetsMoveStep(max, s, step);
    } else {
      OthersLeave(max, s, step);
      hide Enabled, Apply, RowOk, Finishing, MovesTarget;
    }
  }

  /** A target that moves is on a hub that is still spawning or waiting, and ends
      spawned; its hub stops neither. */
  lemma MoveOnHub(max: nat, s: State, step: Step)
    requires Enabled(max, s, step) && MovesTarget(step) && Mover(step) < |s.ts| && s.ts[Mover(step)].hub < |s.hubs|
    ensures var r, t := Apply(max, s, step), Mover(step);
            var h := s.ts[t].hub;
            && t < |r.ts| && r.ts[t].phase != Unspawned && r.ts[t].hub == h && h < |r.hubs|
            && (r.hubs[h].phase == s.hubs[h].phase || (step.Spawn? && r.hubs[h].phase == Checking))
            && (s.ts[t].phase in {Unspawned, Exited} ==> step.Spawn?)
  {
  }

  lemma HubsMoveStep(max: nat, s: State, step: Step)
    requires Hubs(s) && Enabled(max, s, step) && MovesTarget(step)
    ensures Hubs(Apply(max, s, step))
  {
    MoveLeaves(max, s, step);
    MoverInRange(max, s, step);
    MoveShape(max, s, step);
    MoveOnHub(max, s, step);
    hide Enabled, Apply, MovesTarget, Mover;
  }

  lemma MoverInRange(max: nat, s: State, step: Step)
    requires Enabled(max, s, step) && MovesTarget(step)
    ensures Mover(step) < |s.ts| && s.ts[Mover(step)].hub < |s.hubs|
  {
  }

  lemma HubsStep(max: nat, s: State, step: Step)
    requires Hubs(s) && Counters(max, s) && Enabled(max, s, step)
    ensures Hubs(Apply(max, s, step))
  {
    if MovesTarget(step) {
      HubsMoveStep(max, s, step);
    } else {
      HubsOtherStep(max, s, step);
    }
  }

  lemma HubsOtherStep(max: nat, s: State, step: Step)
    requires Hubs(s) && Counters(max, s) && Enabled(max, s, step) && !MovesTarget(step)
    ensures Hubs(Apply(max, s, step))
  {
    hide Count, Unfinished;
    var r := Apply(max, s, step);
    forall t | 0 <= t < |r.ts| && r.ts[t].hub < |r.hubs|
      ensures r.hubs[r.ts[t].hub].phase in {Waiting, HubDone} && !r.cancelled ==> r.ts[t].phase != Unspawned
      ensures r.hubs[r.ts[t].hub].phase == HubDone ==> r.ts[t].phase in {Unspawned, Exited}
    {
      if step.Join? && step.h == s.ts[t].hub {
        assert HubCounts(max, s, step.h);
        CountZero(AliveOn(step.h), s.ts, t);
      }
    }
  }

  lemma ReadyStep(max: nat, s: State, step: Step)
    requires Ready(s) && Enabled(max, s, step)
    ensures Ready(Apply(max, s, step))
  {
    var r := Apply(max, s, step);
    forall h | 0 <= h < |r.hubs| && r.hubs[h].phase == Cleared
      ensures Spawnable(r.ts, h)
    {
      assert Spawnable(s.ts, h);
      var t :| 0 <= t < |s.ts| && Unstarted(s.ts[t], h);
      assert Unstarted(r.ts[t], h);
    }
  }

  lemma FinishingStep(max: nat, s: State, step: Step)
    requires Inv(max, s) && Enabled(max, s, step)
    ensures Finishing(Apply(max, s, step))
  {
    hide Count, Unfinished;
    var r := Apply(max, s, step);
    if s.finish != NotYet || step == Evaluate {
      AllGone(max, s);
    }
  }

  /** Once the last worker has left, every goroutine is gone. */
  lemma AllGone(max: nat, s: State)
    requires Counters(max, s) && Hubs(s) && s.waitGroup == 0
    ensures forall t :: 0 <= t < |s.ts| ==> s.ts[t].phase in {Unspawned, Exited}
    ensures !s.cancelled ==> forall t :: 0 <= t < |s.ts| ==> s.ts[t].phase == Exited
    ensures forall h :: 0 <= h < |s.hubs| ==> s.hubs[h].phase == HubDone
  {
    hide Count, Unfinished;
    forall h | 0 <= h < |s.hubs|
      ensures s.hubs[h].phase == HubDone
    {
      UnfinishedZero(s.hubs, h);
    }
  }

  lemma InvStep(max: nat, s: State, step: Step)
    requires Inv(max, s) && Enabled(max, s, step)
    ensures Inv(max, Apply(max, s, step))
  {
    hide Apply, Enabled, Counters, Targets, Hubs, Ready, Finishing;
    ReadyStep(max, s, step);
    CountersStep(max, s, step);
    TargetsStep(max, s, step);
    HubsStep(max, s, step);
    FinishingStep(max, s, step);
  }

  // ---------------------------------------------------------------------
  // Runs
  // ---------------------------------------------------------------------

  /** A run: each step enabled where it is taken. */
  predicate IsRun(max: nat, s: State, steps: seq<Step>)
    decreases |steps|
  {
    steps == [] || (Enabled(max, s, steps[0]) && IsRun(max, Apply(max, s, steps[0]), steps[1..]))
  }

  function Result(max: nat, s: State, steps: seq<Step>): State
    requires IsRun(max, s, steps)
    decreases |steps|
  {
    if steps == [] then s else Result(max, Apply(max, s, steps[0]), steps[1..])
  }

  lemma {:induction false} InvOverRuns(max: nat, s: State, steps: seq<Step>)
    requires Inv(max, s) && IsRun(max, s, steps)
    ensures Inv(max, Result(max, s, steps))
    decreases |steps|
  {
    hide Apply, Enabled, Inv;
    if steps != [] {
      InvStep(max, s, steps[0]);
      InvOverRuns(max, Apply(max, s, steps[0]), steps[1..]);
    }
  }

  // ---------------------------------------------------------------------
  // What the rows and the run end up saying
  // ---------------------------------------------------------------------

  /** A row says ok exactly of a command that exited with status zero, error of one
      that ended any other way, and skipped only in a run that was cancelled. */
  predicate RowTells(t: Target, cancelled: bool) {
    && (t.phase.Executed? ==> t.ended == Some(t.phase.ending))
    && (t.phase in {Unspawned, WaitHub, WaitGlobal, Claimed, Marked} ==> t.row !in {Ok, Error})
    && (t.row == Ok ==> t.ended == Some(ExitedWith(0)))
    && (t.row == Error ==> t.ended.Some? && t.ended != Some(ExitedWith(0)))
    && (t.row == Skipped ==> cancelled)
  }

  ghost predicate RowsTell(s: State) {
    forall t :: 0 <= t < |s.ts| ==> RowTells(s.ts[t], s.cancelled)
  }

  /** Only a run that was cancelled, and had targets, ends cancelled. */
  ghost predicate EndTells(s: State) {
    && (s.finish.Closing? && s.finish.aborted ==> s.cancelled && s.ts != [])
    && (s.run == RunCancelled ==> s.cancelled && s.ts != [])
  }

  lemma MovedRowTells(max: nat, s: State, step: Step)
    requires Enabled(max, s, step) && MovesTarget(step) && Mover(step) < |s.ts|
    requires RowTells(s.ts[Mover(step)], s.cancelled)
    ensures var r, t := Apply(max, s, step), Mover(step);
            t < |r.ts| && RowTells(r.ts[t], r.cancelled)
  {
  }

  lemma OthersTell(max: nat, s: State, step: Step)
    requires Enabled(max, s, step) && !MovesTarget(step) && RowsTell(s) && EndTells(s)
    ensures RowsTell(Apply(max, s, step))
  {
  }

  lemma TellsStep(max: nat, s: State, step: Step)
    requires Enabled(max, s, step) && RowsTell(s) && EndTells(s)
    ensures RowsTell(Apply(max, s, step)) && EndTells(Apply(max, s, step))
  {
    EndTellsStep(max, s, step);
    if MovesTarget(step) {
      MoveLeaves(max, s, step);
      MovedRowTells(max, s, step);
      hide Enabled, Apply, RowTells, MovesTarget, Mover, EndTells;
    } else {
      OthersTell(max, s, step);
    }
  }

  lemma EndTellsStep(max: nat, s: State, step: Step)
    requires Enabled(max, s, step) && EndTells(s)
    ensures EndTells(Apply(max, s, step))
  {
  }

  lemma {:induction false} TellsOverRuns(max: nat, s: State, steps: seq<Step>)
    requires RowsTell(s) && EndTells(s) && IsRun(max, s, steps)
    ensures RowsTell(Result(max, s, steps)) && EndTells(Result(max, s, steps))
    decreases |steps|
  {
    hide Apply, Enabled, RowsTell, EndTells;
    if steps != [] {
      TellsStep(max, s, steps[0]);
      TellsOverRuns(max, Apply(max, s, steps[0]), steps[1..]);
    }
  }

  /** A run already cancelled while it is not yet being closed. */
  predicate Doomed(s: State) {
    && s.cancelled && s.ts != []
    && (s.finish.Closing? ==> s.finish.aborted)
    && (s.finish == Over && !s.lost ==> s.run == RunCancelled)
  }

  lemma DoomedStep(max: nat, s: State, step: Step)
    requires Doomed(s) && Enabled(max, s, step)
    ensures Doomed(Apply(max, s, step))
  {
  }

  lemma {:induction false} DoomedOverRuns(max: nat, s: State, steps: seq<Step>)
    requires Doomed(s) && IsRun(max, s, steps)
    ensures Doomed(Result(max, s, steps))
    decreases |steps|
  {
    hide Apply, Enabled, Doomed;
    if steps != [] {
      DoomedStep(max, s, steps[0]);
      DoomedOverRuns(max, Apply(max, s, steps[0]), steps[1..]);
    }
  }

  // ---------------------------------------------------------------------
  // Cancellation stops the spawning
  // ---------------------------------------------------------------------

  /** The hubs that have looked at the context and not yet spawned on it. */
  function ClearedHubs(hubs: seq<Hub>): nat {
    if hubs == [] then 0 else ClearedHubs(hubs[..|hubs| - 1]) + if hubs[|hubs| - 1].phase == Cleared then 1 else 0
  }

  lemma {:induction false} ClearedUpdate(hubs: seq<Hub>, i: nat, h: Hub)
    requires i < |hubs|
    ensures ClearedHubs(hubs[i := h]) ==
            ClearedHubs(hubs) - (if hubs[i].phase == Cleared then 1 else 0) + (if h.phase == Cleared then 1 else 0)
    decreases |hubs|
  {
    var n := |hubs| - 1;
    if i < n {
      ClearedUpdate(hubs[..n], i, h);
      assert hubs[i := h][..n] == hubs[..n][i := h];
    } else {
      assert hubs[i := h][..n] == hubs[..n];
    }
  }

  function Spawns(steps: seq<Step>): nat {
    if steps == [] then 0 else (if steps[0].Spawn? then 1 else 0) + Spawns(steps[1..])
  }

  /** The one hub a step may touch. */
  function Touched(s: State, step: Step): nat
    requires MovesTarget(step) ==> Mover(step) < |s.ts|
  {
    if MovesTarget(step) then s.ts[Mover(step)].hub
    else match step
      case Check(h) => h
      case Break(h) => h
      case ListDone(h) => h
      case Join(h) => h
      case _ => 0
  }

  lemma ClearedStep(max: nat, s: State, step: Step)
    requires s.cancelled && Enabled(max, s, step)
    ensures Apply(max, s, step).cancelled
    ensures ClearedHubs(Apply(max, s, step).hubs) + (if step.Spawn? then 1 else 0) <= ClearedHubs(s.hubs)
  {
    hide ClearedHubs;
    var r := Apply(max, s, step);
    if r.hubs != s.hubs {
      var h := Touched(s, step);
      assert h < |s.hubs| && r.hubs == s.hubs[h := r.hubs[h]];
      ClearedUpdate(s.hubs, h, r.hubs[h]);
    }
  }

  /** Once a run is cancelled a hub spawns at most the one target it had already been
      cleared for. */
  lemma {:induction false} CancelStopsSpawning(max: nat, s: State, steps: seq<Step>)
    requires s.cancelled && IsRun(max, s, steps)
    ensures Spawns(steps) + ClearedHubs(Result(max, s, steps).hubs) <= ClearedHubs(s.hubs)
    decreases |steps|
  {
    hide Apply, Enabled, ClearedHubs;
    if steps != [] {
      ClearedStep(max, s, steps[0]);
      CancelStopsSpawning(max, Apply(max, s, steps[0]), steps[1..]);
    }
  }

  /** With bookkeeping intact, a run that has targets and is cancelled before its
      last worker is gone ends cancelled, however it goes on from there. */
  lemma CancelledEndsCancelled(max: nat, s: State, steps: seq<Step>)
    requires s.cancelled && s.finish == NotYet && s.ts != [] && IsRun(max, s, steps)
    ensures var r := Result(max, s, steps);
            r.finish == Over && !r.lost ==> r.run == RunCancelled
  {
    DoomedOverRuns(max, s, steps);
  }

  /** In every interleaving: no hub runs more than its cap, the farm no more than
      64, no target more than once, and the run is closed only after the last
      worker has left. With bookkeeping intact, 'done' means every target ended
      ok or error, 'cancelled' leaves none pending or running. A row says how its
      command ended, and only a run that was cancelled ends cancelled or has a
      target skipped: any other ends done. */
  lemma SchedulerSafe(max: nat, start: State, steps: seq<Step>)
    requires Init(start) && IsRun(max, start, steps)
    ensures var s := Result(max, start, steps);
            && Count(HoldsGlobal, s.ts) <= 64
            && (forall h :: 0 <= h < |s.hubs| ==> Count(HoldsHub(h), s.ts) <= max)
            && (forall t :: 0 <= t < |s.ts| ==> s.ts[t].execs <= 1)
            && (s.finish != NotYet ==> forall t :: 0 <= t < |s.ts| ==> s.ts[t].phase in {Unspawned, Exited})
            && (s.finish == Over && !s.lost ==> s.run != RunRunning)
            && (s.run == RunDone && !s.lost ==> AllRan(s) && AllRecorded(s))
            && (s.run == RunCancelled && !s.lost ==> NoneOutstanding(s))
            && (s.run == RunCancelled ==> s.cancelled && s.ts != [])
            && (s.finish == Over && !s.lost && (!s.cancelled || s.ts == []) ==> s.run == RunDone)
            && (forall t :: 0 <= t < |s.ts| ==>
                  && (s.ts[t].row == Ok ==> s.ts[t].ended == Some(ExitedWith(0)))
                  && (s.ts[t].row == Error ==> s.ts[t].ended.Some? && s.ts[t].ended != Some(ExitedWith(0)))
                  && (s.ts[t].row == Skipped ==> s.cancelled))
  {
    hide Count, Unfinished, Result, IsRun;
    TellsOverRuns(max, start, steps);
    InitInv(max, start);
    InvOverRuns(max, start, steps);
    var s := Result(max, start, steps);
    forall h | 0 <= h < |s.hubs|
      ensures Count(HoldsHub(h), s.ts) <= max
    {
      assert HubCounts(max, s, h);
    }
    forall t | 0 <= t < |s.ts|
      ensures s.ts[t].execs <= 1
    {
      assert TargetOk(s.ts[t], s.cancelled);
    }
    assert forall t :: 0 <= t < |s.ts| ==> RowTells(s.ts[t], s.cancelled);
    if s.finish != NotYet {
      AllGone(max, s);
    }
  }

  // ---------------------------------------------------------------------
  // Progress and termination
  // ---------------------------------------------------------------------

  /** While the run is open some step other than a cancellation is enabled. */
  lemma Progress(max: nat, s: State) returns (step: Step)
    requires Inv(max, s) && max >= 1 && s.finish != Over
    ensures step != Cancel && Enabled(max, s, step)
  {
    hide Count, Unfinished;
    if s.finish.Closing? {
      step := if s.finish.aborted && !s.finish.skipped then SkipOutstanding(true) else EndRun(true);
    } else if s.waitGroup == 0 {
      step := Evaluate;
    } else {
      var h := SomeUnfinished(s.hubs);
      assert HubCounts(max, s, h);
      if s.hubs[h].phase == Waiting && s.hubs[h].waitGroup > 0 {
        var t := CountSome(AliveOn(h), s.ts);
        step := MoveOn(max, s, t);
      } else if s.hubs[h].phase == Waiting {
        step := Join(h);
      } else {
        step := SpawnOn(max, s, h);
      }
    }
  }

  lemma SpawnOn(max: nat, s: State, h: nat) returns (step: Step)
    requires Inv(max, s) && max >= 1 && h < |s.hubs| && s.hubs[h].phase in {Checking, Cleared}
    ensures step != Cancel && Enabled(max, s, step)
  {
    hide Count, Unfinished;
    if s.hubs[h].phase == Cleared {
      assert Spawnable(s.ts, h);
      var t :| 0 <= t < |s.ts| && Unstarted(s.ts[t], h);
      step := Spawn(h, t);
    } else if s.cancelled {
      step := Break(h);
    } else if Spawnable(s.ts, h) {
      step := Check(h);
    } else {
      step := ListDone(h);
    }
  }

  /** A goroutine that is alive can move, or the holder it waits for can. */
  lemma MoveOn(max: nat, s: State, t: nat) returns (step: Step)
    requires Counters(max, s) && max >= 1 && t < |s.ts| && s.ts[t].phase !in {Unspawned, Exited}
    ensures step != Cancel && Enabled(max, s, step)
  {
    hide Count, Unfinished;
    var h := s.ts[t].hub;
    assert HubCounts(max, s, h);
    match s.ts[t].phase {
      case WaitHub =>
        if s.hubs[h].held < max {
          step := AcquireHub(t);
        } else {
          var u := CountSome(HoldsHub(h), s.ts);
          step := MoveHolder(max, s, u);
        }
      case _ => step := MoveHolder(max, s, t);
    }
  }

  /** Past its hub's semaphore a goroutine waits for nobody but the global
      semaphore, whose holders wait for nobody. */
  lemma MoveHolder(max: nat, s: State, t: nat) returns (step: Step)
    requires Counters(max, s) && t < |s.ts| && s.ts[t].phase !in {Unspawned, WaitHub, Exited}
    ensures step != Cancel && Enabled(max, s, step)
  {
    hide Count, Unfinished;
    var u := t;
    if s.ts[t].phase == WaitGlobal && s.global >= GLOBAL_LIMIT {
      u := CountSome(HoldsGlobal, s.ts);
    }
    var h := s.ts[u].hub;
    assert HubCounts(max, s, h);
    CountPositive(s.ts, u);
    match s.ts[u].phase {
      case WaitGlobal => step := AcquireGlobal(u);
      case Claimed => step := Mark(u, true);
      case Marked => step := Execute(u, ExitedWith(0));
      case Executed(_) => step := Record(u, true);
      case Recorded => step := ReleaseGlobal(u);
      case HubOnly => step := ReleaseHub(u);
      case Leaving => step := Exit(u);
    }
  }

  lemma CountPositive(ts: seq<Target>, t: nat)
    requires t < |ts|
    ensures Answer(HoldsGlobal, ts[t]) ==> Count(HoldsGlobal, ts) > 0
    ensures Answer(HoldsHub(ts[t].hub), ts[t]) ==> Count(HoldsHub(ts[t].hub), ts) > 0
    ensures Answer(AliveOn(ts[t].hub), ts[t]) ==> Count(AliveOn(ts[t].hub), ts) > 0
  {
    hide Count, Answer;
    if Count(HoldsGlobal, ts) == 0 {
      CountZero(HoldsGlobal, ts, t);
    }
    if Count(HoldsHub(ts[t].hub), ts) == 0 {
      CountZero(HoldsHub(ts[t].hub), ts, t);
    }
    if Count(AliveOn(ts[t].hub), ts) == 0 {
      CountZero(AliveOn(ts[t].hub), ts, t);
    }
  }

  function PhaseRank(p: Phase): nat {
    match p
    case Unspawned => 20
    case WaitHub => 9
    case WaitGlobal => 8
    case Claimed => 7
    case Marked => 6
    case Executed(_) => 5
    case Recorded => 4
    case HubOnly => 3
    case Leaving => 2
    case Exited => 1
  }

  function HubRank(p: HubPhase): nat {
    match p
    case Checking => 4
    case Cleared => 3
    case Waiting => 2
    case HubDone => 1
  }

  function FinishRank(f: Finish): nat {
    match f
    case NotYet => 3
    case Closing(_, skipped) => if skipped then 1 else 2
    case Over => 0
  }

  function TargetRanks(ts: seq<Target>): nat {
    if ts == [] then 0 else TargetRanks(ts[..|ts| - 1]) + PhaseRank(ts[|ts| - 1].phase)
  }

  function HubRanks(hubs: seq<Hub>): nat {
    if hubs == [] then 0 else HubRanks(hubs[..|hubs| - 1]) + HubRank(hubs[|hubs| - 1].phase)
  }

  /** How much is left to do. */
  function Rank(s: State): nat {
    TargetRanks(s.ts) + HubRanks(s.hubs) + FinishRank(s.finish)
  }

  lemma {:induction false} TargetRanksUpdate(ts: seq<Target>, i: nat, t: Target)
    requires i < |ts|
    ensures TargetRanks(ts[i := t]) == TargetRanks(ts) - PhaseRank(ts[i].phase) + PhaseRank(t.phase)
    decreases |ts|
  {
    hide PhaseRank;
    var n := |ts| - 1;
    if i < n {
      TargetRanksUpdate(ts[..n], i, t);
      assert ts[i := t][..n] == ts[..n][i := t];
    } else {
      assert ts[i := t][..n] == ts[..n];
    }
  }

  lemma {:induction false} HubRanksUpdate(hubs: seq<Hub>, i: nat, h: Hub)
    requires i < |hubs|
    ensures HubRanks(hubs[i := h]) == HubRanks(hubs) - HubRank(hubs[i].phase) + HubRank(h.phase)
    decreases |hubs|
  {
    hide HubRank;
    var n := |hubs| - 1;
    if i < n {
      HubRanksUpdate(hubs[..n], i, h);
      assert hubs[i := h][..n] == hubs[..n][i := h];
    } else {
      assert hubs[i := h][..n] == hubs[..n];
    }
  }

  lemma {:induction false} RanksSkipped(ts: seq<Target>)
    ensures TargetRanks(SkipRows(ts)) == TargetRanks(ts)
    decreases |ts|
  {
    hide PhaseRank;
    if ts != [] {
      var n := |ts| - 1;
      assert SkipRows(ts)[..n] == SkipRows(ts[..n]);
      RanksSkipped(ts[..n]);
    }
  }

  lemma MoveRank(max: nat, s: State, step: Step)
    requires Enabled(max, s, step) && forall t :: 0 <= t < |s.ts| ==> s.ts[t].hub < |s.hubs|
    requires MovesTarget(step)
    ensures Rank(Apply(max, s, step)) < Rank(s)
  {
    hide TargetRanks, HubRanks;
    var r := Apply(max, s, step);
    var t := Mover(step);
    var h := s.ts[t].hub;
    MoveShape(max, s, step);
    TargetRanksUpdate(s.ts, t, r.ts[t]);
    HubRanksUpdate(s.hubs, h, r.hubs[h]);
  }

  /** Every step but a cancellation leaves less to do. */
  lemma RankDecreases(max: nat, s: State, step: Step)
    requires Enabled(max, s, step) && forall t :: 0 <= t < |s.ts| ==> s.ts[t].hub < |s.hubs|
    ensures step != Cancel ==> Rank(Apply(max, s, step)) < Rank(s)
    ensures step == Cancel ==> Rank(Apply(max, s, step)) == Rank(s)
  {
    hide TargetRanks, HubRanks;
    var r := Apply(max, s, step);
    if MovesTarget(step) {
      MoveRank(max, s, step);
    } else if step.SkipOutstanding? {
      RanksSkipped(s.ts);
    } else if step.Check? || step.Break? || step.ListDone? || step.Join? {
      HubRanksUpdate(s.hubs, step.h, r.hubs[step.h]);
      assert r.hubs == s.hubs[step.h := r.hubs[step.h]];
    }
  }

  function Work(steps: seq<Step>): nat {
    if steps == [] then 0 else (if steps[0] == Cancel then 0 else 1) + Work(steps[1..])
  }

  /** No run goes on for ever: it takes at most Rank(s) steps besides
      cancellations, and stops only when the run is over. */
  lemma {:induction false} RunsEnd(max: nat, s: State, steps: seq<Step>)
    requires Inv(max, s) && IsRun(max, s, steps)
    ensures Work(steps) + Rank(Result(max, s, steps)) <= Rank(s)
    ensures max >= 1 && Result(max, s, steps).finish != Over ==>
              exists step :: step != Cancel && Enabled(max, Result(max, s, steps), step)
    decreases |steps|
  {
    hide Apply, Enabled, Rank, Targets, Hubs, Ready, Finishing, Count, Unfinished;
    if steps == [] {
      if max >= 1 && s.finish != Over {
        var step := Progress(max, s);
      }
    } else {
      InvStep(max, s, steps[0]);
      RankDecreases(max, s, steps[0]);
      RunsEnd(max, Apply(max, s, steps[0]), steps[1..]);
    }
  }
}
