/** The two handlers as they run, statement by statement, over tables they
    update in place. */
module QuarantineTables {
  import opened Options
  import opened Quarantine

  class Tables {
    const topo: Topology
    var devices: map<DeviceId, Device>
    var open: map<nat, Row>
    var closing: Option<Closing>

    ghost function Contents(): State
      reads this
    {
      State(devices, open, closing)
    }

    ghost predicate Valid()
      reads this
    {
      Inv(topo, Contents())
    }

    /** A farm with nothing quarantined. */
    constructor (topo: Topology, devices: map<DeviceId, Device>)
      requires devices.Keys == topo.Keys
      requires forall d :: d in devices ==>
                devices[d].admin != Quarantined && devices[d].health != Some(HealthQuarantined)
      ensures Valid() && Contents() == State(devices, map[], None) && this.topo == topo
    {
      this.topo, this.devices, this.open, this.closing := topo, devices, map[], None;
    }

    /** The insert, refused when the subject is already open, then the sweep: the
        health of what it covers, then the admin state. */
    method OpenRow(id: nat, row: Row) returns (ok: bool)
      requires Valid() && id !in open
      modifies this`devices, this`open
      ensures Valid()
      ensures Contents() == Open(topo, old(Contents()), id, row)
      ensures ok <==> !Conflicts(old(open), row)
    {
      hide Coverage, UniqueSubjects, ClosingOk, HealthSwept, AdminSwept, Covers, Conflicts;
      DevicesKnown(topo, Contents());
      OpenKeepsCoverage(topo, Contents(), id, row);
      OpenKeepsClosing(topo, Contents(), id, row);
      if Conflicts(open, row) {
        return false;
      }
      SweptIsOpen(topo, Contents(), id, row);
      open := open[id := row];
      devices := HealthSwept(topo, devices, row);
      devices := AdminSwept(topo, devices, row);
      ok := true;
    }

    /** Opens other requests commit while this one is between two statements. */
    method Others(rows: seq<(nat, Row)>)
      requires Valid() && FreshIds(Contents(), rows)
      modifies this`devices, this`open
      ensures Valid()
      ensures old(devices).Keys == topo.Keys && Contents() == OpenAll(topo, old(Contents()), rows)
    {
      hide Inv, Open;
      DevicesKnown(topo, Contents());
      assert rows[0..] == rows;
      for i := 0 to |rows|
        invariant Valid() && devices.Keys == topo.Keys && FreshIds(Contents(), rows[i..])
        invariant OpenAll(topo, Contents(), rows[i..]) == OpenAll(topo, old(Contents()), rows)
      {
        FreshRest(topo, Contents(), rows[i..]);
        assert rows[i..][1..] == rows[i + 1..];
        var _ := OpenRow(rows[i].0, rows[i].1);
        DevicesKnown(topo, Contents());
      }
    }

    /** A close, under the lock that keeps other closes out, with opens free to
        commit between its statements. It keeps the coverage invariant exactly
        when none that commits after the release statement takes back a device
        that statement freed. */
    method CloseRow(id: nat, before: seq<(nat, Row)>, after: seq<(nat, Row)>)
      returns (found: bool, health: nat, admin: nat)
      requires Valid() && closing == None && FreshIds(Contents(), before + after)
      modifies this
      ensures found <==> id in old(open)
      ensures !found ==> Contents() == old(Contents())
      ensures found ==> old(devices).Keys == topo.Keys && closing == None && id !in open
      ensures found ==>
                var released := ReleaseDevices(topo, OpenAll(topo, Quarantine.CloseRow(old(Contents()), id), before));
                && released.closing.Some? && released.closing.value.released.Some?
                && released.closing.value.id in released.open
                && health == |released.closing.value.released.value.health|
                && admin == |released.closing.value.released.value.admin|
                && Contents() == Commit(OpenAll(topo, released, after))
                && (Valid() <==> forall k :: 0 <= k < |after| ==> !TakesBack(topo, released, after[k].1))
    {
      hide Inv, OpenAll, TakesBack, Freed, ReleaseDevices, Commit, Thawed, FreshIds, InWindow;
      DevicesKnown(topo, Contents());
      SplitFresh(Contents(), id, before, after);
      if id !in open {
        return false, 0, 0;
      }
      CloseRowKeeps(topo, Contents(), id);
      closing := Some(Closing(id, None));
      Others(before);
      OpensKeep(topo, Quarantine.CloseRow(old(Contents()), id), before);
      AfterFresh(topo, Quarantine.CloseRow(old(Contents()), id), before, after);
      ghost var held := Contents();
      CloseWindowExact(topo, held, after);

      var freed := Freed(topo, devices, open, id);
      var healthy := set d | d in freed && devices[d].health == Some(HealthQuarantined);
      var enabled := set d | d in freed && devices[d].admin == Quarantined;
      ReleaseIs(topo, held, enabled, healthy);
      closing := Some(Closing(id, Some(Release(enabled, healthy))));
      health, admin := |healthy|, |enabled|;
      ghost var released := Contents();
      FreshByOpen(held, released, after);
      Others(after);
      OpensKeep(topo, released, after);

      // Commit: the row's closing and both updates become visible at once.
      CommitIs(Contents(), id, enabled, healthy);
      devices := Thawed(devices, enabled, healthy);
      open := open - {id};
      closing := None;
      found := true;
    }
  }

  /** The sweep's first update: the health of what the row covers, unless it is
      somebody's decision already. */
  function HealthSwept(topo: Topology, devices: map<DeviceId, Device>, row: Row): (r: map<DeviceId, Device>)
    requires devices.Keys == topo.Keys
    ensures r.Keys == topo.Keys
  {
    map d | d in devices ::
      if Covers(topo, row, d) && devices[d].health.Some? && !HeldOut(devices[d].health.value)
      then devices[d].(health := Some(HealthQuarantined)) else devices[d]
  }

  /** Its second: the admin state, from enabled only. */
  function AdminSwept(topo: Topology, devices: map<DeviceId, Device>, row: Row): (r: map<DeviceId, Device>)
    requires devices.Keys == topo.Keys
    ensures r.Keys == topo.Keys
  {
    map d | d in devices ::
      if Covers(topo, row, d) && devices[d].admin == Enabled then devices[d].(admin := Quarantined) else devices[d]
  }

  lemma SweptIsOpen(topo: Topology, s: State, id: nat, row: Row)
    requires s.devices.Keys == topo.Keys && id !in s.open && !Conflicts(s.open, row)
    ensures Open(topo, s, id, row) ==
            s.(open := s.open[id := row], devices := AdminSwept(topo, HealthSwept(topo, s.devices, row), row))
  {
    hide Covers;
    var swept := AdminSwept(topo, HealthSwept(topo, s.devices, row), row);
    forall d | d in s.devices
      ensures swept[d] == Freeze(s.devices[d], Covers(topo, row, d))
    {
    }
    assert swept == map d | d in s.devices :: Freeze(s.devices[d], Covers(topo, row, d));
  }

  /** What the release statement frees: covered by the closing row and no other. */
  function Freed(topo: Topology, devices: map<DeviceId, Device>, open: map<nat, Row>, id: nat): (r: set<DeviceId>)
    requires devices.Keys == topo.Keys && id in open
    ensures r <= devices.Keys
  {
    set d | d in devices && Covers(topo, open[id], d) && !CoveredBy(topo, open - {id}, d)
  }

  lemma ReleaseIs(topo: Topology, s: State, enabled: set<DeviceId>, healthy: set<DeviceId>)
    requires s.devices.Keys == topo.Keys && s.closing.Some? && s.closing.value.released == None
    requires s.closing.value.id in s.open
    requires enabled == set d | d in Freed(topo, s.devices, s.open, s.closing.value.id)
                               && s.devices[d].admin == Quarantined
    requires healthy == set d | d in Freed(topo, s.devices, s.open, s.closing.value.id)
                               && s.devices[d].health == Some(HealthQuarantined)
    ensures ReleaseDevices(topo, s) == s.(closing := Some(Closing(s.closing.value.id, Some(Release(enabled, healthy)))))
  {
    hide Covers, CoveredBy;
    var r := ReleaseDevices(topo, s).closing.value.released.value;
    assert forall d :: d in r.admin <==> d in enabled;
    assert forall d :: d in r.health <==> d in healthy;
    assert r == Release(enabled, healthy);
  }

  function Thawed(devices: map<DeviceId, Device>, enabled: set<DeviceId>, healthy: set<DeviceId>): map<DeviceId,
                  Device> {
    map d | d in devices :: Thaw(devices[d], d in enabled, d in healthy)
  }

  lemma CommitIs(s: State, id: nat, enabled: set<DeviceId>, healthy: set<DeviceId>)
    requires s.closing == Some(Closing(id, Some(Release(enabled, healthy))))
    ensures Commit(s) == State(Thawed(s.devices, enabled, healthy), s.open - {id}, None)
  {
  }

  lemma DevicesKnown(topo: Topology, s: State)
    requires Inv(topo, s)
    ensures s.devices.Keys == topo.Keys
  {
  }

  lemma FreshByOpen(s: State, t: State, rows: seq<(nat, Row)>)
    requires FreshIds(s, rows) && t.open == s.open
    ensures FreshIds(t, rows)
  {
  }

  lemma SplitFresh(s: State, id: nat, before: seq<(nat, Row)>, after: seq<(nat, Row)>)
    requires FreshIds(s, before + after)
    ensures FreshIds(Quarantine.CloseRow(s, id), before) && FreshIds(Quarantine.CloseRow(s, id), before + after)
  {
    forall k | 0 <= k < |before|
      ensures before[k].0 !in s.open
    {
      assert (before + after)[k] == before[k];
    }
    forall i, j | 0 <= i < j < |before|
      ensures before[i].0 != before[j].0
    {
      assert (before + after)[i] == before[i] && (before + after)[j] == before[j];
    }
  }

  lemma AfterFresh(topo: Topology, s: State, before: seq<(nat, Row)>, after: seq<(nat, Row)>)
    requires s.devices.Keys == topo.Keys && FreshIds(s, before + after)
    ensures FreshIds(OpenAll(topo, s, before), after)
  {
    var rows, t := before + after, OpenAll(topo, s, before);
    OpensKeep(topo, s, before);
    assert forall k :: 0 <= k < |before| ==> rows[k] == before[k];
    assert forall k :: 0 <= k < |after| ==> rows[|before| + k] == after[k];
    forall k | 0 <= k < |after|
      ensures after[k].0 !in t.open
    {
      assert rows[|before| + k] == after[k];
    }
    forall i, j | 0 <= i < j < |after|
      ensures after[i].0 != after[j].0
    {
      assert rows[|before| + i] == after[i] && rows[|before| + j] == after[j];
    }
  }

  lemma CloseRowKeeps(topo: Topology, s: State, id: nat)
    requires Inv(topo, s) && s.closing == None && id in s.open
    ensures Inv(topo, Quarantine.CloseRow(s, id))
  {
  }

  /** Opens leave the close in flight, and the rows there were, alone. */
  lemma {:induction false} OpensKeep(topo: Topology, s: State, rows: seq<(nat, Row)>)
    requires s.devices.Keys == topo.Keys
    ensures OpenAll(topo, s, rows).closing == s.closing
    ensures forall i :: i in s.open ==> i in OpenAll(topo, s, rows).open && OpenAll(topo, s, rows).open[i] == s.open[i]
    ensures forall i :: i in OpenAll(topo, s, rows).open ==>
              i in s.open || exists k :: 0 <= k < |rows| && rows[k].0 == i
    decreases |rows|
  {
    if rows != [] {
      var t := Open(topo, s, rows[0].0, rows[0].1);
      OpensKeep(topo, t, rows[1..]);
      forall i | i in OpenAll(topo, s, rows).open
        ensures i in s.open || exists k :: 0 <= k < |rows| && rows[k].0 == i
      {
        if i !in t.open {
          var k :| 0 <= k < |rows[1..]| && rows[1..][k].0 == i;
          assert rows[k + 1].0 == i;
        } else if i !in s.open {
          assert rows[0].0 == i;
        }
      }
    }
  }
}
