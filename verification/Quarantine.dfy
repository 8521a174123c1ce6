/** Opening and closing quarantines.

    Rows cover devices by scope; two columns decide allocation, admin_state and
    health. An open is one atomic transaction that does not take the close
    lock. A close takes a farm-wide lock and is three steps: close the row
    (visible to nobody until commit), release the devices nothing else covers,
    commit. The topology does not change. */
module Quarantine {
  import opened Options

  datatype AdminState = Enabled | Disabled | Parked | Quarantined | Retired

  datatype Health =
    | Unknown | Booting | Healthy | Degraded | Offline | Unauthorized | Missing
    | Recovering | HealthParked | HealthQuarantined | HealthRetired

  datatype Scope = DeviceScope | SlotScope | HubScope | HostScope | PowerDomainScope

  type DeviceId = nat

  /** Where a device sits. A device in no slot has none of these. */
  datatype Placement = Placement(slot: Option<int>, hub: Option<int>, host: Option<string>, powerDomain: Option<int>)

  type Topology = map<DeviceId, Placement>

  /** farm.devices.admin_state and, if the device was ever observed, its
      farm.device_runtime.health. */
  datatype Device = Device(admin: AdminState, health: Option<Health>)

  /** farm.quarantines. Only the column the scope names decides coverage; the
      others may be filled for reporting. */
  datatype Row = Row(
    scope: Scope, device: Option<DeviceId>, slot: Option<int>, hub: Option<int>,
    host: Option<string>, powerDomain: Option<int>)

  predicate Covers(topo: Topology, row: Row, d: DeviceId)
    requires d in topo
  {
    match row.scope
    case DeviceScope => row.device == Some(d)
    case SlotScope => row.slot.Some? && row.slot == topo[d].slot
    case HubScope => row.hub.Some? && row.hub == topo[d].hub
    case HostScope => row.host.Some? && row.host == topo[d].host
    case PowerDomainScope => row.powerDomain.Some? && row.powerDomain == topo[d].powerDomain
  }

  /** openQuarantineMatch: same scope, same subject. */
  predicate SameSubject(q: Row, r: Row) {
    q.scope == r.scope &&
    match r.scope
    case DeviceScope => r.device.Some? && q.device == r.device
    case SlotScope => r.slot.Some? && q.slot == r.slot
    case HubScope => r.hub.Some? && q.hub == r.hub
    case HostScope => r.host.Some? && q.host == r.host
    case PowerDomainScope => r.powerDomain.Some? && q.powerDomain == r.powerDomain
  }

  /** A close in flight: its row, and once it has run its release statement,
      the devices whose two columns that statement rewrote. */
  datatype Release = Release(admin: set<DeviceId>, health: set<DeviceId>)

  datatype Closing = Closing(id: nat, released: Option<Release>)

  datatype State = State(devices: map<DeviceId, Device>, open: map<nat, Row>, closing: Option<Closing>)

  predicate CoveredBy(topo: Topology, open: map<nat, Row>, d: DeviceId)
    requires d in topo
  {
    exists id :: id in open && Covers(topo, open[id], d)
  }

  predicate Conflicts(open: map<nat, Row>, row: Row) {
    exists id :: id in open && SameSubject(open[id], row)
  }

  function Freeze(dev: Device, covered: bool): Device {
    Device(
      if covered && dev.admin == Enabled then Quarantined else dev.admin,
      if covered && dev.health.Some? && dev.health.value !in {HealthQuarantined, HealthRetired, HealthParked}
      then Some(HealthQuarantined) else dev.health)
  }

  /** POST /api/v1/quarantines: refused when the subject already has an open
      row, otherwise the row and its sweep in one transaction. */
  function Open(topo: Topology, s: State, id: nat, row: Row): State
    requires s.devices.Keys == topo.Keys
  {
    if id in s.open || Conflicts(s.open, row) then s
    else s.(open := s.open[id := row],
            devices := map d | d in s.devices :: Freeze(s.devices[d], Covers(topo, row, d)))
  }

  function CloseRow(s: State, id: nat): State {
    if s.closing == None && id in s.open then s.(closing := Some(Closing(id, None))) else s
  }

  /** The release statement: covered by the closing row, and by no other row
      open in the snapshot the statement sees. */
  function ReleaseDevices(topo: Topology, s: State): State
    requires s.devices.Keys == topo.Keys
  {
    if s.closing.Some? && s.closing.value.released == None && s.closing.value.id in s.open then
      var c := s.closing.value;
      var freed := set d | d in s.devices && Covers(topo, s.open[c.id], d) && !CoveredBy(topo, s.open - {c.id}, d);
      s.(closing := Some(c.(released := Some(Release(
        set d | d in freed && s.devices[d].admin == Quarantined,
        set d | d in freed && s.devices[d].health == Some(HealthQuarantined))))))
    else s
  }

  function Thaw(dev: Device, admin: bool, health: bool): Device {
    Device(if admin then Enabled else dev.admin, if health then Some(Unknown) else dev.health)
  }

  function Commit(s: State): State {
    if s.closing.Some? && s.closing.value.released.Some? then
      var c, r := s.closing.value, s.closing.value.released.value;
      State(map d | d in s.devices :: Thaw(s.devices[d], d in r.admin, d in r.health), s.open - {c.id}, None)
    else s
  }

  function Abort(s: State): State {
    s.(closing := None)
  }

  // ---------------------------------------------------------------------
  // The invariant
  // ---------------------------------------------------------------------

  predicate HeldOut(h: Health) {
    h in {HealthQuarantined, HealthRetired, HealthParked}
  }

  /** A device is quarantined only under an open row, and nothing under an open
      row can be allocated, by either column. */
  predicate DeviceOk(dev: Device, covered: bool) {
    && (dev.admin == Quarantined ==> covered)
    && (covered ==> dev.admin != Enabled)
    && (dev.health == Some(HealthQuarantined) ==> covered)
    && (covered && dev.health.Some? ==> HeldOut(dev.health.value))
  }

  ghost predicate Coverage(topo: Topology, s: State) {
    s.devices.Keys == topo.Keys && forall d :: d in s.devices ==> DeviceOk(s.devices[d], CoveredBy(topo, s.open, d))
  }

  /** No two open rows name one subject at one scope. */
  ghost predicate UniqueSubjects(open: map<nat, Row>) {
    forall i, j :: i in open && j in open && SameSubject(open[i], open[j]) ==> i == j
  }

  /** What a close in flight may rely on until it commits. */
  ghost predicate ClosingOk(topo: Topology, s: State)
    requires s.devices.Keys == topo.Keys
  {
    s.closing.Some? ==>
      var c := s.closing.value;
      && c.id in s.open
      && (c.released.Some? ==>
            && (forall d :: d in c.released.value.admin ==> d in s.devices && s.devices[d].admin == Quarantined)
            && (forall d :: d in c.released.value.health ==>
                  d in s.devices && s.devices[d].health == Some(HealthQuarantined))
            && (forall d :: d in s.devices && !CoveredBy(topo, s.open - {c.id}, d) ==>
                  && (s.devices[d].admin == Quarantined ==> d in c.released.value.admin)
                  && (s.devices[d].health == Some(HealthQuarantined) ==> d in c.released.value.health)))
  }

  ghost predicate Inv(topo: Topology, s: State) {
    Coverage(topo, s) && UniqueSubjects(s.open) && ClosingOk(topo, s)
  }

  /** Some device the close in flight has already released is covered by a row
      that will stay open: an open committed inside the window. */
  predicate Raced(topo: Topology, s: State)
    requires s.devices.Keys == topo.Keys
  {
    s.closing.Some? && s.closing.value.released.Some? &&
    var c := s.closing.value;
    exists d :: d in s.devices && (d in c.released.value.admin || d in c.released.value.health)
                && CoveredBy(topo, s.open - {c.id}, d)
  }

  lemma CoveredWith(topo: Topology, open: map<nat, Row>, id: nat, row: Row, d: DeviceId)
    requires d in topo && id !in open
    ensures CoveredBy(topo, open[id := row], d) <==> CoveredBy(topo, open, d) || Covers(topo, row, d)
  {
    var after := open[id := row];
    if CoveredBy(topo, open, d) {
      var i :| i in open && Covers(topo, open[i], d);
      assert i in after && after[i] == open[i];
    }
    assert id in after && after[id] == row;
  }

  lemma CoveredWithout(topo: Topology, open: map<nat, Row>, id: nat, d: DeviceId)
    requires d in topo && id in open
    ensures CoveredBy(topo, open, d) <==> CoveredBy(topo, open - {id}, d) || Covers(topo, open[id], d)
  {
    assert open == (open - {id})[id := open[id]];
    CoveredWith(topo, open - {id}, id, open[id], d);
  }

  lemma OpenKeepsCoverage(topo: Topology, s: State, id: nat, row: Row)
    requires Inv(topo, s)
    ensures Coverage(topo, Open(topo, s, id, row)) && UniqueSubjects(Open(topo, s, id, row).open)
  {
    var t := Open(topo, s, id, row);
    if t != s {
      forall d | d in s.devices
        ensures DeviceOk(t.devices[d], CoveredBy(topo, t.open, d))
      {
        CoveredWith(topo, s.open, id, row, d);
      }
      SubjectsSymmetric();
    }
  }

  lemma SubjectsSymmetric()
    ensures forall q, r :: SameSubject(q, r) ==> SameSubject(r, q)
  {
  }

  lemma OpenKeepsClosing(topo: Topology, s: State, id: nat, row: Row)
    requires Inv(topo, s)
    ensures ClosingOk(topo, Open(topo, s, id, row))
  {
    hide UniqueSubjects, CoveredBy, Conflicts;
    var t := Open(topo, s, id, row);
    if t != s && s.closing.Some? && s.closing.value.released.Some? {
      var c := s.closing.value;
      forall d | d in s.devices
        ensures CoveredBy(topo, t.open - {c.id}, d) <==> CoveredBy(topo, s.open - {c.id}, d) || Covers(topo, row, d)
      {
        assert t.open - {c.id} == (s.open - {c.id})[id := row];
        CoveredWith(topo, s.open - {c.id}, id, row, d);
      }
    }
  }

  lemma ReleaseKeeps(topo: Topology, s: State)
    requires Inv(topo, s)
    ensures Inv(topo, ReleaseDevices(topo, s))
    ensures s.closing.Some? && s.closing.value.released == None ==> !Raced(topo, ReleaseDevices(topo, s))
  {
    var t := ReleaseDevices(topo, s);
    if t != s {
      forall d | d in s.devices
        ensures CoveredBy(topo, s.open, d) <==>
                CoveredBy(topo, s.open - {s.closing.value.id}, d) || Covers(topo, s.open[s.closing.value.id], d)
      {
        CoveredWithout(topo, s.open, s.closing.value.id, d);
      }
    }
  }

  /** A commit keeps the invariant exactly when no device it frees has come
      under another open row since the release statement ran. */
  lemma CommitExact(topo: Topology, s: State)
    requires Inv(topo, s)
    ensures Inv(topo, Commit(s)) <==> !Raced(topo, s)
  {
    hide Covers, SameSubject;
    var t := Commit(s);
    if t != s {
      var c, r := s.closing.value, s.closing.value.released.value;
      forall d | d in s.devices
        ensures CoveredBy(topo, s.open, d) <==> CoveredBy(topo, t.open, d) || Covers(topo, s.open[c.id], d)
      {
        CoveredWithout(topo, s.open, c.id, d);
      }
      if Raced(topo, s) {
        var d :| d in s.devices && (d in r.admin || d in r.health) && CoveredBy(topo, t.open, d);
        assert !DeviceOk(t.devices[d], CoveredBy(topo, t.open, d));
      }
    }
  }

  // ---------------------------------------------------------------------
  // Runs
  // ---------------------------------------------------------------------

  datatype Step = DoOpen(id: nat, row: Row) | DoCloseRow(id: nat) | DoRelease | DoCommit | DoAbort

  function Take(topo: Topology, s: State, step: Step): State
    requires s.devices.Keys == topo.Keys
  {
    match step
    case DoOpen(id, row) => Open(topo, s, id, row)
    case DoCloseRow(id) => CloseRow(s, id)
    case DoRelease => ReleaseDevices(topo, s)
    case DoCommit => Commit(s)
    case DoAbort => Abort(s)
  }

  lemma TakeKeepsDevices(topo: Topology, s: State, step: Step)
    requires s.devices.Keys == topo.Keys
    ensures Take(topo, s, step).devices.Keys == topo.Keys
  {
  }

  function Run(topo: Topology, s: State, steps: seq<Step>): (t: State)
    requires s.devices.Keys == topo.Keys
    ensures t.devices.Keys == topo.Keys
    decreases |steps|
  {
    if steps == [] then s
    else
      TakeKeepsDevices(topo, s, steps[0]);
      Run(topo, Take(topo, s, steps[0]), steps[1..])
  }

  /** No step of the run is a commit whose released devices an open has covered
      since its release statement. */
  predicate RaceFree(topo: Topology, s: State, steps: seq<Step>)
    requires s.devices.Keys == topo.Keys
    decreases |steps|
  {
    steps == [] ||
    (TakeKeepsDevices(topo, s, steps[0]);
     (steps[0] == DoCommit ==> !Raced(topo, s)) && RaceFree(topo, Take(topo, s, steps[0]), steps[1..]))
  }

  lemma TakeKeepsInv(topo: Topology, s: State, step: Step)
    requires Inv(topo, s) && (step == DoCommit ==> !Raced(topo, s))
    ensures Inv(topo, Take(topo, s, step))
  {
    match step {
      case DoOpen(id, row) =>
        OpenKeepsCoverage(topo, s, id, row);
        OpenKeepsClosing(topo, s, id, row);
      case DoCloseRow(id) =>
      case DoRelease => ReleaseKeeps(topo, s);
      case DoCommit => CommitExact(topo, s);
      case DoAbort =>
    }
  }

  /** The coverage invariant, over every run of opens and lock-serialised closes
      in which no open slips between a release statement and its commit. */
  lemma {:induction false} CoverageOverRuns(topo: Topology, s: State, steps: seq<Step>)
    requires Inv(topo, s) && RaceFree(topo, s, steps)
    ensures Inv(topo, Run(topo, s, steps))
    decreases |steps|
  {
    hide UniqueSubjects, ClosingOk, CoveredBy, Take;
    if steps != [] {
      TakeKeepsInv(topo, s, steps[0]);
      TakeKeepsDevices(topo, s, steps[0]);
      CoverageOverRuns(topo, Take(topo, s, steps[0]), steps[1..]);
    }
  }

  /** The state after the first k steps. */
  ghost predicate InvAfter(topo: Topology, s: State, steps: seq<Step>, k: nat)
    requires s.devices.Keys == topo.Keys && k <= |steps|
  {
    Inv(topo, Run(topo, s, steps[..k]))
  }

  lemma InvAfterStep(topo: Topology, s: State, steps: seq<Step>, k: nat)
    requires s.devices.Keys == topo.Keys && 0 < k <= |steps|
    ensures Take(topo, s, steps[0]).devices.Keys == topo.Keys
    ensures InvAfter(topo, s, steps, k) <==> InvAfter(topo, Take(topo, s, steps[0]), steps[1..], k - 1)
  {
    hide Inv, Take;
    TakeKeepsDevices(topo, s, steps[0]);
    assert steps[..k][0] == steps[0] && steps[..k][1..] == steps[1..][..k - 1];
  }

  /** Exactly so: the invariant holds after every step of a run if and only if no
      commit of the run was raced. */
  lemma {:induction false} CoverageIffRaceFree(topo: Topology, s: State, steps: seq<Step>)
    requires Inv(topo, s)
    ensures s.devices.Keys == topo.Keys
    ensures (forall k: nat :: k <= |steps| ==> InvAfter(topo, s, steps, k)) <==> RaceFree(topo, s, steps)
    decreases |steps|
  {
    hide Coverage, UniqueSubjects, ClosingOk, Take, Raced, InvAfter;
    KeysKnown(topo, s);
    StartsInv(topo, s, steps);
    if steps != [] {
      var t := Take(topo, s, steps[0]);
      forall k: nat | 0 < k <= |steps|
        ensures t.devices.Keys == topo.Keys
        ensures InvAfter(topo, s, steps, k) <==> InvAfter(topo, t, steps[1..], k - 1)
      {
        InvAfterStep(topo, s, steps, k);
      }
      TakeKeepsDevices(topo, s, steps[0]);
      StepExact(topo, s, steps[0]);
      if Inv(topo, t) {
        CoverageIffRaceFree(topo, t, steps[1..]);
        AllPrefixes(topo, s, t, steps);
      } else {
        NotInvAfterOne(topo, t, steps[1..]);
        assert !InvAfter(topo, s, steps, 1);
      }
    }
  }

  lemma KeysKnown(topo: Topology, s: State)
    requires Inv(topo, s)
    ensures s.devices.Keys == topo.Keys
  {
  }

  lemma StartsInv(topo: Topology, s: State, steps: seq<Step>)
    requires Inv(topo, s) && s.devices.Keys == topo.Keys
    ensures InvAfter(topo, s, steps, 0)
  {
    assert steps[..0] == [];
  }

  lemma NotInvAfterOne(topo: Topology, t: State, rest: seq<Step>)
    requires !Inv(topo, t) && t.devices.Keys == topo.Keys
    ensures !InvAfter(topo, t, rest, 0)
  {
    assert rest[..0] == [];
  }

  lemma StepExact(topo: Topology, s: State, step: Step)
    requires Inv(topo, s) && s.devices.Keys == topo.Keys
    ensures Inv(topo, Take(topo, s, step)) <==> !(step == DoCommit && Raced(topo, s))
  {
    hide Inv, Raced;
    if step == DoCommit {
      CommitExact(topo, s);
    } else {
      TakeKeepsInv(topo, s, step);
    }
  }

  lemma AllPrefixes(topo: Topology, s: State, t: State, steps: seq<Step>)
    requires s.devices.Keys == topo.Keys == t.devices.Keys && steps != [] && InvAfter(topo, s, steps, 0)
    requires forall k: nat :: 0 < k <= |steps| ==>
              (InvAfter(topo, s, steps, k) <==> InvAfter(topo, t, steps[1..], k - 1))
    ensures (forall k: nat :: k <= |steps| ==> InvAfter(topo, s, steps, k)) <==>
            (forall k: nat :: k <= |steps[1..]| ==> InvAfter(topo, t, steps[1..], k))
  {
    hide InvAfter;
    if forall k: nat :: k <= |steps| ==> InvAfter(topo, s, steps, k) {
      forall k: nat | k <= |steps[1..]|
        ensures InvAfter(topo, t, steps[1..], k)
      {
        assert InvAfter(topo, s, steps, k + 1);
      }
    }
  }

  // ---------------------------------------------------------------------
  // What no race breaks
  // ---------------------------------------------------------------------

  /** Whatever either column holds out of service as quarantined, some open row
      explains. */
  ghost predicate Explained(topo: Topology, s: State) {
    && s.devices.Keys == topo.Keys
    && forall d :: d in s.devices ==>
         && (s.devices[d].admin == Quarantined ==> CoveredBy(topo, s.open, d))
         && (s.devices[d].health == Some(HealthQuarantined) ==> CoveredBy(topo, s.open, d))
  }

  /** A close in flight is about to hand out everything only its row explains. */
  ghost predicate WillRelease(topo: Topology, s: State)
    requires s.devices.Keys == topo.Keys
  {
    s.closing.Some? ==>
      var c := s.closing.value;
      && c.id in s.open
      && (c.released.Some? ==>
            forall d :: d in s.devices && !CoveredBy(topo, s.open - {c.id}, d) ==>
              && (s.devices[d].admin == Quarantined ==> d in c.released.value.admin)
              && (s.devices[d].health == Some(HealthQuarantined) ==> d in c.released.value.health))
  }

  ghost predicate NoneStranded(topo: Topology, s: State) {
    Explained(topo, s) && UniqueSubjects(s.open) && WillRelease(topo, s)
  }

  lemma InvMeansNoneStranded(topo: Topology, s: State)
    requires Inv(topo, s)
    ensures NoneStranded(topo, s)
  {
    hide CoveredBy, UniqueSubjects;
  }

  lemma UniqueWith(open: map<nat, Row>, id: nat, row: Row)
    requires UniqueSubjects(open) && id !in open && !Conflicts(open, row)
    ensures UniqueSubjects(open[id := row])
  {
    SubjectsSymmetric();
    hide SameSubject;
  }

  lemma OpenStrandsNone(topo: Topology, s: State, id: nat, row: Row)
    requires NoneStranded(topo, s)
    ensures NoneStranded(topo, Open(topo, s, id, row))
  {
    hide CoveredBy, UniqueSubjects, Conflicts, Covers;
    var t := Open(topo, s, id, row);
    if t != s {
      UniqueWith(s.open, id, row);
      forall d | d in s.devices
        ensures CoveredBy(topo, t.open, d) <==> CoveredBy(topo, s.open, d) || Covers(topo, row, d)
        ensures s.closing.Some? && s.closing.value.id in s.open ==>
                  (CoveredBy(topo, t.open - {s.closing.value.id}, d) <==>
                   CoveredBy(topo, s.open - {s.closing.value.id}, d) || Covers(topo, row, d))
      {
        CoveredWith(topo, s.open, id, row, d);
        if s.closing.Some? && s.closing.value.id in s.open {
          assert t.open - {s.closing.value.id} == (s.open - {s.closing.value.id})[id := row];
          CoveredWith(topo, s.open - {s.closing.value.id}, id, row, d);
        }
      }
    }
  }

  lemma ReleaseStrandsNone(topo: Topology, s: State)
    requires NoneStranded(topo, s)
    ensures NoneStranded(topo, ReleaseDevices(topo, s))
  {
    hide CoveredBy, UniqueSubjects;
    if ReleaseDevices(topo, s) != s {
      forall d | d in s.devices
        ensures CoveredBy(topo, s.open, d) <==>
                CoveredBy(topo, s.open - {s.closing.value.id}, d) || Covers(topo, s.open[s.closing.value.id], d)
      {
        CoveredWithout(topo, s.open, s.closing.value.id, d);
      }
    }
  }

  /** Raced or not, a commit strands nothing. */
  lemma CommitStrandsNone(topo: Topology, s: State)
    requires NoneStranded(topo, s)
    ensures NoneStranded(topo, Commit(s))
  {
    var t := Commit(s);
    assert UniqueSubjects(t.open);
    hide CoveredBy, UniqueSubjects;
  }

  lemma TakeStrandsNone(topo: Topology, s: State, step: Step)
    requires NoneStranded(topo, s)
    ensures NoneStranded(topo, Take(topo, s, step))
  {
    hide CoveredBy, UniqueSubjects;
    match step {
      case DoOpen(id, row) => OpenStrandsNone(topo, s, id, row);
      case DoCloseRow(id) =>
      case DoRelease => ReleaseStrandsNone(topo, s);
      case DoCommit => CommitStrandsNone(topo, s);
      case DoAbort =>
    }
  }

  /** After every step of every run, raced commits included, no device is
      quarantined in either column without an open row that covers it, and no two
      open rows name one subject: this is what the farm-wide lock is for. A race
      breaks only the other half, that a covered device is held out. */
  lemma {:induction false} NeverStranded(topo: Topology, s: State, steps: seq<Step>, k: nat)
    requires NoneStranded(topo, s) && k <= |steps|
    ensures s.devices.Keys == topo.Keys
    ensures var t := Run(topo, s, steps[..k]);
            && UniqueSubjects(t.open)
            && forall d :: d in t.devices ==>
                 && (t.devices[d].admin == Quarantined ==> CoveredBy(topo, t.open, d))
                 && (t.devices[d].health == Some(HealthQuarantined) ==> CoveredBy(topo, t.open, d))
    decreases k
  {
    hide CoveredBy, UniqueSubjects, Take, WillRelease;
    if k == 0 {
      assert steps[..0] == [];
    } else {
      TakeStrandsNone(topo, s, steps[0]);
      NeverStranded(topo, Take(topo, s, steps[0]), steps[1..], k - 1);
      assert steps[..k][0] == steps[0] && steps[..k][1..] == steps[1..][..k - 1];
    }
  }

  /** A release in flight only ever rewrites devices that are quarantined. */
  ghost predicate PendingOk(s: State) {
    s.closing.Some? && s.closing.value.released.Some? ==>
      forall d :: d in s.closing.value.released.value.admin ==> d in s.devices && s.devices[d].admin == Quarantined
  }

  lemma TakeKeepsPending(topo: Topology, s: State, step: Step, d: DeviceId)
    requires s.devices.Keys == topo.Keys && PendingOk(s) && d in s.devices
    ensures PendingOk(Take(topo, s, step))
    ensures s.devices[d].admin !in {Enabled, Quarantined} ==> Take(topo, s, step).devices[d].admin == s.devices[d].admin
  {
  }

  /** Whatever a run does, races included, it never touches a device that is
      disabled, parked or retired. */
  lemma {:induction false} OtherStatesUntouched(topo: Topology, s: State, steps: seq<Step>, d: DeviceId)
    requires s.devices.Keys == topo.Keys && PendingOk(s) && d in s.devices
    requires s.devices[d].admin !in {Enabled, Quarantined}
    ensures Run(topo, s, steps).devices[d].admin == s.devices[d].admin
    decreases |steps|
  {
    hide Take, PendingOk;
    if steps != [] {
      TakeKeepsDevices(topo, s, steps[0]);
      TakeKeepsPending(topo, s, steps[0], d);
      OtherStatesUntouched(topo, Take(topo, s, steps[0]), steps[1..], d);
    }
  }

  // ---------------------------------------------------------------------
  // The window between a release statement and its commit
  // ---------------------------------------------------------------------

  function OpenAll(topo: Topology, s: State, rows: seq<(nat, Row)>): (t: State)
    requires s.devices.Keys == topo.Keys
    ensures t.devices.Keys == topo.Keys
    decreases |rows|
  {
    if rows == [] then s else OpenAll(topo, Open(topo, s, rows[0].0, rows[0].1), rows[1..])
  }

  /** An open that would take back a device the close in flight is about to hand
      out, and is not simply a duplicate of the closing row (which is refused). */
  predicate TakesBack(topo: Topology, s: State, row: Row)
    requires s.devices.Keys == topo.Keys
    requires s.closing.Some? && s.closing.value.released.Some? && s.closing.value.id in s.open
  {
    var c := s.closing.value;
    !SameSubject(s.open[c.id], row)
    && exists d :: d in s.devices && (d in c.released.value.admin || d in c.released.value.health)
                   && Covers(topo, row, d)
  }

  lemma SameSubjectSameCover(topo: Topology, q: Row, r: Row, d: DeviceId)
    requires SameSubject(q, r) && d in topo
    ensures Covers(topo, q, d) <==> Covers(topo, r, d)
  {
  }

  /** A duplicate of an open row other than the closing one covers what it covers. */
  lemma DuplicateRaces(topo: Topology, s: State, row: Row)
    requires s.devices.Keys == topo.Keys && Conflicts(s.open, row)
    requires s.closing.Some? && s.closing.value.released.Some? && s.closing.value.id in s.open
    requires TakesBack(topo, s, row)
    ensures Raced(topo, s)
  {
    hide Covers, SameSubject;
    var c := s.closing.value;
    var rest := s.open - {c.id};
    var q :| q in s.open && SameSubject(s.open[q], row);
    var d :| d in s.devices && (d in c.released.value.admin || d in c.released.value.health) && Covers(topo, row, d);
    SameSubjectSameCover(topo, s.open[q], row, d);
    assert q in rest && Covers(topo, rest[q], d);
    assert CoveredBy(topo, rest, d);
  }

  lemma OpenRaces(topo: Topology, s: State, id: nat, row: Row)
    requires Inv(topo, s) && s.closing.Some? && s.closing.value.released.Some? && id !in s.open
    ensures Raced(topo, Open(topo, s, id, row)) <==> Raced(topo, s) || TakesBack(topo, s, row)
  {
    KeysKnown(topo, s);
    hide Coverage, UniqueSubjects, Covers, SameSubject;
    var c, t := s.closing.value, Open(topo, s, id, row);
    var rest := s.open - {c.id};
    if Conflicts(s.open, row) {
      if TakesBack(topo, s, row) {
        DuplicateRaces(topo, s, row);
      }
    } else {
      hide CoveredBy;
      assert t.open - {c.id} == rest[id := row];
      assert !SameSubject(s.open[c.id], row);
      forall d | d in s.devices
        ensures CoveredBy(topo, t.open - {c.id}, d) <==> CoveredBy(topo, rest, d) || Covers(topo, row, d)
      {
        CoveredWith(topo, rest, id, row, d);
      }
    }
  }

  ghost predicate FreshIds(s: State, rows: seq<(nat, Row)>) {
    && (forall k :: 0 <= k < |rows| ==> rows[k].0 !in s.open)
    && (forall i, j :: 0 <= i < j < |rows| ==> rows[i].0 != rows[j].0)
  }

  lemma OpenKeepsWindow(topo: Topology, s: State, id: nat, row: Row)
    requires s.devices.Keys == topo.Keys && s.closing.Some? && s.closing.value.id in s.open
    ensures var t := Open(topo, s, id, row);
            && t.closing == s.closing && s.closing.value.id in t.open && t.devices.Keys == s.devices.Keys
            && t.open[s.closing.value.id] == s.open[s.closing.value.id]
  {
  }

  lemma FreshRest(topo: Topology, s: State, rows: seq<(nat, Row)>)
    requires s.devices.Keys == topo.Keys && FreshIds(s, rows) && rows != []
    ensures FreshIds(Open(topo, s, rows[0].0, rows[0].1), rows[1..])
  {
  }

  lemma SameWindow(topo: Topology, s: State, t: State, row: Row)
    requires s.devices.Keys == topo.Keys == t.devices.Keys && s.closing == t.closing
    requires s.closing.Some? && s.closing.value.released.Some? && s.closing.value.id in s.open
    requires s.closing.value.id in t.open && t.open[s.closing.value.id] == s.open[s.closing.value.id]
    ensures TakesBack(topo, t, row) <==> TakesBack(topo, s, row)
  {
    hide Covers, SameSubject;
  }

  predicate InWindow(topo: Topology, s: State) {
    && s.devices.Keys == topo.Keys
    && s.closing.Some? && s.closing.value.released.Some? && s.closing.value.id in s.open
  }

  predicate OneTakesBack(topo: Topology, s: State, rows: seq<(nat, Row)>)
    requires InWindow(topo, s)
  {
    exists k :: 0 <= k < |rows| && TakesBack(topo, s, rows[k].1)
  }

  lemma TakesBackFirst(topo: Topology, s: State, t: State, rows: seq<(nat, Row)>)
    requires InWindow(topo, s) && InWindow(topo, t) && rows != [] && s.closing == t.closing
    requires t.open[s.closing.value.id] == s.open[s.closing.value.id]
    ensures OneTakesBack(topo, s, rows) <==> TakesBack(topo, s, rows[0].1) || OneTakesBack(topo, t, rows[1..])
  {
    hide TakesBack;
    forall k | 0 <= k < |rows|
      ensures TakesBack(topo, t, rows[k].1) <==> TakesBack(topo, s, rows[k].1)
    {
      SameWindow(topo, s, t, rows[k].1);
    }
    if k :| 0 <= k < |rows| && TakesBack(topo, s, rows[k].1) {
      assert k > 0 ==> rows[1..][k - 1] == rows[k];
    }
  }

  lemma InvInWindow(topo: Topology, s: State)
    requires Inv(topo, s) && s.closing.Some? && s.closing.value.released.Some?
    ensures InWindow(topo, s)
  {
  }

  lemma {:induction false} WindowRaces(topo: Topology, s: State, rows: seq<(nat, Row)>)
    requires Inv(topo, s) && InWindow(topo, s) && FreshIds(s, rows)
    ensures Inv(topo, OpenAll(topo, s, rows))
    ensures Raced(topo, OpenAll(topo, s, rows)) <==> Raced(topo, s) || OneTakesBack(topo, s, rows)
    decreases |rows|
  {
    hide Raced, TakesBack, Inv, Open, FreshIds, OneTakesBack;
    if rows == [] {
      NoneTakesBack(topo, s);
    } else {
      var (id, row) := rows[0];
      var t := Open(topo, s, id, row);
      OpenKeepsInv(topo, s, id, row);
      OpenKeepsWindow(topo, s, id, row);
      FreshRest(topo, s, rows);
      FirstFresh(s, rows);
      OpenRaces(topo, s, id, row);
      WindowRaces(topo, t, rows[1..]);
      TakesBackFirst(topo, s, t, rows);
    }
  }

  lemma NoneTakesBack(topo: Topology, s: State)
    requires InWindow(topo, s)
    ensures !OneTakesBack(topo, s, [])
  {
  }

  lemma FirstFresh(s: State, rows: seq<(nat, Row)>)
    requires FreshIds(s, rows) && rows != []
    ensures rows[0].0 !in s.open
  {
  }

  lemma OpenKeepsInv(topo: Topology, s: State, id: nat, row: Row)
    requires Inv(topo, s) && s.devices.Keys == topo.Keys
    ensures Inv(topo, Open(topo, s, id, row))
  {
    hide Coverage, UniqueSubjects, ClosingOk;
    OpenKeepsCoverage(topo, s, id, row);
    OpenKeepsClosing(topo, s, id, row);
    KeysKnown(topo, s);
  }

  /** Opens committing between a close's release statement and its commit break
      the invariant exactly when one of them takes back a released device. */
  lemma CloseWindowExact(topo: Topology, s: State, rows: seq<(nat, Row)>)
    requires Inv(topo, s) && s.closing.Some? && s.closing.value.released == None
    requires FreshIds(s, rows)
    ensures var released := ReleaseDevices(topo, s);
            && Inv(topo, released)
            && (Inv(topo, Commit(OpenAll(topo, released, rows))) <==>
                forall k :: 0 <= k < |rows| ==> !TakesBack(topo, released, rows[k].1))
  {
    hide Raced, TakesBack;
    var released := ReleaseDevices(topo, s);
    ReleaseKeeps(topo, s);
    InvInWindow(topo, released);
    WindowRaces(topo, released, rows);
    CommitExact(topo, OpenAll(topo, released, rows));
  }

  lemma RunFour(topo: Topology, s: State, a: Step, b: Step, c: Step, d: Step)
    requires s.devices.Keys == topo.Keys
    ensures var s1 := Take(topo, s, a);
            s1.devices.Keys == topo.Keys &&
            var s2 := Take(topo, s1, b);
            s2.devices.Keys == topo.Keys &&
            var s3 := Take(topo, s2, c);
            s3.devices.Keys == topo.Keys &&
            Run(topo, s, [a, b, c, d]) == Take(topo, s3, d)
  {
    hide Take;
    TakeKeepsDevices(topo, s, a);
    var s1 := Take(topo, s, a);
    TakeKeepsDevices(topo, s1, b);
    var s2 := Take(topo, s1, b);
    TakeKeepsDevices(topo, s2, c);
    var s3 := Take(topo, s2, c);
    assert [a, b, c, d][1..] == [b, c, d] && [b, c, d][1..] == [c, d] && [c, d][1..] == [d] && [d][1..] == [];
    assert Run(topo, s3, [d]) == Take(topo, s3, d);
    assert Run(topo, s2, [c, d]) == Run(topo, s3, [d]);
  }

  const EMPTY_ROW := Row(DeviceScope, None, None, None, None, None)
  const DEVICE_ROW := EMPTY_ROW.(device := Some(1))
  const SLOT_ROW := EMPTY_ROW.(scope := SlotScope, slot := Some(7))
  const ONE_DEVICE: Topology := map[1 := Placement(Some(7), Some(3), Some("h1"), None)]
  const UNDER_ONE := State(map[1 := Device(Quarantined, Some(HealthQuarantined))], map[10 := DEVICE_ROW], None)

  /** Such a run exists: closing a device's quarantine while its slot's is being
      opened leaves the device enabled under an open row. */
  lemma RaceStrandsCoverage()
    ensures UNDER_ONE.devices.Keys == ONE_DEVICE.Keys && Inv(ONE_DEVICE, UNDER_ONE)
    ensures var end := Run(ONE_DEVICE, UNDER_ONE, [DoCloseRow(10), DoRelease, DoOpen(11, SLOT_ROW), DoCommit]);
            && 11 in end.open && Covers(ONE_DEVICE, end.open[11], 1)
            && end.devices[1] == Device(Enabled, Some(Unknown))
  {
    assert 10 in UNDER_ONE.open && Covers(ONE_DEVICE, UNDER_ONE.open[10], 1);
    RunFour(ONE_DEVICE, UNDER_ONE, DoCloseRow(10), DoRelease, DoOpen(11, SLOT_ROW), DoCommit);
    var s2 := ReleaseDevices(ONE_DEVICE, CloseRow(UNDER_ONE, 10));
    assert CloseRow(UNDER_ONE, 10).open - {10} == map[];
    assert 1 in s2.closing.value.released.value.admin && 1 in s2.closing.value.released.value.health;
    assert !Conflicts(s2.open, SLOT_ROW);
  }

  // ---------------------------------------------------------------------
  // Opens and closes undo each other
  // ---------------------------------------------------------------------

  /** A close nothing interleaves with. */
  function Close(topo: Topology, s: State, id: nat): State
    requires s.devices.Keys == topo.Keys
  {
    Commit(ReleaseDevices(topo, CloseRow(s, id)))
  }

  /** What closing a set of rows must amount to, whatever the order: a device
      comes back exactly when nothing left open covers it. */
  function Closed(topo: Topology, s: State, ids: set<nat>): State
    requires s.devices.Keys == topo.Keys
  {
    var left := s.open - ids;
    State(map d | d in s.devices ::
            Thaw(s.devices[d],
                 s.devices[d].admin == Quarantined && !CoveredBy(topo, left, d),
                 s.devices[d].health == Some(HealthQuarantined) && !CoveredBy(topo, left, d)),
          left, None)
  }

  lemma CloseIsClosed(topo: Topology, s: State, id: nat)
    requires Inv(topo, s) && s.closing == None && id in s.open
    ensures Close(topo, s, id) == Closed(topo, s, {id}) && Inv(topo, Close(topo, s, id))
    ensures Close(topo, s, id).open == s.open - {id} && Close(topo, s, id).closing == None
  {
    var s1 := CloseRow(s, id);
    var s2 := ReleaseDevices(topo, s1);
    ReleaseKeeps(topo, s1);
    CommitExact(topo, s2);
    forall d | d in s.devices
      ensures CoveredBy(topo, s.open, d) <==> CoveredBy(topo, s.open - {id}, d) || Covers(topo, s.open[id], d)
    {
      CoveredWithout(topo, s.open, id, d);
    }
    assert Close(topo, s, id).devices == Closed(topo, s, {id}).devices;
  }

  function CloseAll(topo: Topology, s: State, ids: seq<nat>): State
    requires s.devices.Keys == topo.Keys
    decreases |ids|
  {
    if ids == [] then s else CloseAll(topo, Close(topo, s, ids[0]), ids[1..])
  }

  lemma CoveredBySubset(topo: Topology, open: map<nat, Row>, ids: set<nat>, d: DeviceId)
    requires d in topo && CoveredBy(topo, open - ids, d)
    ensures CoveredBy(topo, open, d)
  {
    var i :| i in open - ids && Covers(topo, (open - ids)[i], d);
    assert i in open && Covers(topo, open[i], d);
  }

  lemma ClosedTwice(topo: Topology, s: State, id: nat, ids: set<nat>)
    requires s.devices.Keys == topo.Keys
    ensures Closed(topo, Closed(topo, s, {id}), ids) == Closed(topo, s, {id} + ids)
  {
    var mid := Closed(topo, s, {id});
    assert mid.open - ids == s.open - ({id} + ids);
    forall d | d in s.devices
      ensures Closed(topo, mid, ids).devices[d] == Closed(topo, s, {id} + ids).devices[d]
    {
      if CoveredBy(topo, mid.open - ids, d) {
        CoveredBySubset(topo, mid.open, ids, d);
      }
    }
    assert Closed(topo, mid, ids).devices == Closed(topo, s, {id} + ids).devices;
  }

  function IdSet(ids: seq<nat>): set<nat> {
    set i | i in ids
  }

  /** Closing rows one after another, in any order, reaches the state that
      depends only on which rows were closed. */
  lemma {:induction false} CloseAllIsClosed(topo: Topology, s: State, ids: seq<nat>)
    requires Inv(topo, s) && s.closing == None && ids != []
    requires forall i :: 0 <= i < |ids| ==> ids[i] in s.open
    requires forall i, j :: 0 <= i < j < |ids| ==> ids[i] != ids[j]
    ensures CloseAll(topo, s, ids) == Closed(topo, s, IdSet(ids))
    decreases |ids|
  {
    hide Close, Closed, UniqueSubjects, ClosingOk, DeviceOk;
    var all, rest := IdSet(ids), IdSet(ids[1..]);
    assert ids == [ids[0]] + ids[1..];
    assert all == {ids[0]} + rest;
    CloseIsClosed(topo, s, ids[0]);
    var mid := Close(topo, s, ids[0]);
    if ids[1..] == [] {
      assert all == {ids[0]};
    } else {
      CloseAllIsClosed(topo, mid, ids[1..]);
      ClosedTwice(topo, s, ids[0], rest);
      assert CloseAll(topo, s, ids) == CloseAll(topo, mid, ids[1..]);
    }
  }

  lemma CloseOrderIrrelevant(topo: Topology, s: State, ids: seq<nat>, ids': seq<nat>)
    requires Inv(topo, s) && s.closing == None && ids != []
    requires forall i :: 0 <= i < |ids| ==> ids[i] in s.open
    requires forall i, j :: 0 <= i < j < |ids| ==> ids[i] != ids[j]
    requires multiset(ids) == multiset(ids')
    ensures CloseAll(topo, s, ids) == CloseAll(topo, s, ids')
  {
    hide Close, CloseAll, Closed, Inv;
    assert forall i :: i in ids' <==> i in multiset(ids');
    assert forall i :: i in ids <==> i in multiset(ids);
    forall i, j | 0 <= i < j < |ids'|
      ensures ids'[i] != ids'[j]
    {
      OnceEach(ids, ids', i, j);
    }
    assert |multiset(ids)| == |ids| && |multiset(ids')| == |ids'|;
    forall i | 0 <= i < |ids'|
      ensures ids'[i] in s.open
    {
      assert ids'[i] in multiset(ids);
    }
    CloseAllIsClosed(topo, s, ids);
    CloseAllIsClosed(topo, s, ids');
    assert IdSet(ids) == IdSet(ids');
  }

  lemma OnceEach(ids: seq<nat>, ids': seq<nat>, i: nat, j: nat)
    requires forall a, b :: 0 <= a < b < |ids| ==> ids[a] != ids[b]
    requires multiset(ids) == multiset(ids') && i < j < |ids'|
    ensures ids'[i] != ids'[j]
  {
    var x := ids'[i];
    if x == ids'[j] {
      assert ids' == ids'[..i] + [x] + ids'[i + 1..j] + [x] + ids'[j + 1..];
      assert multiset(ids')[x] >= 2;
      AtMostOnce(ids, x);
    }
  }

  lemma {:induction false} AtMostOnce(ids: seq<nat>, x: nat)
    requires forall a, b :: 0 <= a < b < |ids| ==> ids[a] != ids[b]
    ensures multiset(ids)[x] <= 1
    decreases |ids|
  {
    if ids != [] {
      assert ids == [ids[0]] + ids[1..];
      AtMostOnce(ids[1..], x);
      assert ids[0] !in ids[1..];
    }
  }

  /** The row takes the device's health out of service, and nothing had before. */
  predicate TakenOutBy(topo: Topology, s: State, row: Row, d: DeviceId)
    requires s.devices.Keys == topo.Keys && d in s.devices
  {
    && Covers(topo, row, d) && !CoveredBy(topo, s.open, d)
    && s.devices[d].health.Some? && !HeldOut(s.devices[d].health.value)
  }

  /** Opening a row and closing it again restores admin_state everywhere. Health
      comes back as unknown, to be looked at again, exactly where the row alone
      had taken the device out, and is otherwise as it was. */
  lemma OpenThenClose(topo: Topology, s: State, id: nat, row: Row)
    requires Inv(topo, s) && s.closing == None && id !in s.open && !Conflicts(s.open, row)
    ensures var t := Close(topo, Open(topo, s, id, row), id);
            && t.open == s.open && t.devices.Keys == s.devices.Keys
            && (forall d :: d in s.devices ==> t.devices[d].admin == s.devices[d].admin)
            && (forall d :: d in s.devices ==>
                  t.devices[d].health == if TakenOutBy(topo, s, row, d) then Some(Unknown) else s.devices[d].health)
  {
    var frozen := Open(topo, s, id, row);
    OpenKeepsCoverage(topo, s, id, row);
    CloseIsClosed(topo, frozen, id);
    assert frozen.open - {id} == s.open;
  }
}
