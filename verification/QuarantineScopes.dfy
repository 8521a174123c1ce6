/** What the five scopes reach, column by column: which devices an open takes out
    of service and a close hands back, and which second open is a duplicate. */
module QuarantineScopes {
  import opened Options
  import opened Quarantine

  /** Out of service: enabled becomes quarantined and every other admin state stays;
      health, if ever observed, becomes quarantined unless it already is, or is
      retired or parked. */
  predicate TakenOut(before: Device, after: Device) {
    && (before.admin == Enabled ==> after.admin == Quarantined)
    && (before.admin != Enabled ==> after.admin == before.admin)
    && (before.health == None ==> after.health == None)
    && (before.health.Some? ==>
          if before.health.value in {HealthQuarantined, HealthRetired, HealthParked} then after.health == before.health
          else after.health == Some(HealthQuarantined))
  }

  /** Handed back: quarantined becomes enabled, quarantined health becomes unknown,
      and nothing else moves. */
  predicate HandedBack(before: Device, after: Device) {
    && (before.admin == Quarantined ==> after.admin == Enabled)
    && (before.admin != Quarantined ==> after.admin == before.admin)
    && (before.health == Some(HealthQuarantined) ==> after.health == Some(Unknown))
    && (before.health != Some(HealthQuarantined) ==> after.health == before.health)
  }

  /** What is taken out cannot be allocated, by either column. */
  lemma TakenOutIsHeldOut(before: Device, after: Device)
    requires TakenOut(before, after)
    ensures after.admin != Enabled
    ensures after.health.Some? ==> after.health.value in {HealthQuarantined, HealthRetired, HealthParked}
  {
  }

  /** Covered, on the columns alone: by the device itself, or by the slot, hub, host
      or power domain it sits at. */
  lemma CoveredMeans(topo: Topology, open: map<nat, Row>, d: DeviceId)
    requires d in topo
    ensures CoveredBy(topo, open, d) <==> exists i :: i in open && Reaches(topo[d], d, open[i])
  {
    forall i | i in open
      ensures Covers(topo, open[i], d) <==> Reaches(topo[d], d, open[i])
    {
    }
    hide Covers, Reaches;
    if CoveredBy(topo, open, d) {
      var i :| i in open && Covers(topo, open[i], d);
      assert Reaches(topo[d], d, open[i]);
    }
    if i :| i in open && Reaches(topo[d], d, open[i]) {
      assert Covers(topo, open[i], d);
    }
  }

  predicate Reaches(at: Placement, d: DeviceId, row: Row) {
    || (row.scope == DeviceScope && row.device == Some(d))
    || (row.scope == SlotScope && at.slot.Some? && row.slot == at.slot)
    || (row.scope == HubScope && at.hub.Some? && row.hub == at.hub)
    || (row.scope == HostScope && at.host.Some? && row.host == at.host)
    || (row.scope == PowerDomainScope && at.powerDomain.Some? && row.powerDomain == at.powerDomain)
  }

  lemma OpenFrozen(topo: Topology, s: State, id: nat, row: Row)
    requires s.devices.Keys == topo.Keys && id !in s.open
    ensures var t := Open(topo, s, id, row);
            && (Conflicts(s.open, row) ==> t == s)
            && (!Conflicts(s.open, row) ==>
                  && t.open == s.open[id := row] && t.closing == s.closing && t.devices.Keys == s.devices.Keys
                  && forall d :: d in s.devices ==>
                       if Covers(topo, row, d) then TakenOut(s.devices[d], t.devices[d])
                       else t.devices[d] == s.devices[d])
  {
    hide Covers, Conflicts;
  }

  lemma CloseHandedBack(topo: Topology, s: State, id: nat)
    requires Inv(topo, s) && s.closing == None && id in s.open
    ensures var t := Close(topo, s, id);
            && t.open == s.open - {id} && t.closing == None
            && s.devices.Keys == topo.Keys && t.devices.Keys == topo.Keys
            && forall d :: d in s.devices ==>
                 if Covers(topo, s.open[id], d) && !CoveredBy(topo, s.open - {id}, d)
                 then HandedBack(s.devices[d], t.devices[d]) else t.devices[d] == s.devices[d]
  {
    CloseIsClosed(topo, s, id);
    KeysKnown(topo, s);
    hide Close, Covers, CoveredBy, UniqueSubjects, ClosingOk;
    forall d | d in s.devices
      ensures var t := Closed(topo, s, {id});
              if Covers(topo, s.open[id], d) && !CoveredBy(topo, s.open - {id}, d)
              then HandedBack(s.devices[d], t.devices[d]) else t.devices[d] == s.devices[d]
    {
      CoveredWithout(topo, s.open, id, d);
    }
  }

  // ---------------------------------------------------------------------
  // Device
  // ---------------------------------------------------------------------

  predicate DeviceTaken(open: map<nat, Row>, x: DeviceId) {
    exists i :: i in open && open[i].scope == DeviceScope && open[i].device == Some(x)
  }

  lemma OpenDevice(topo: Topology, s: State, id: nat, row: Row, x: DeviceId)
    requires s.devices.Keys == topo.Keys && id !in s.open && row.scope == DeviceScope && row.device == Some(x)
    ensures var t := Open(topo, s, id, row);
            && (DeviceTaken(s.open, x) ==> t == s)
            && (!DeviceTaken(s.open, x) ==>
                  && t.open == s.open[id := row] && t.devices.Keys == s.devices.Keys
                  && forall d :: d in s.devices ==>
                       if d == x then TakenOut(s.devices[d], t.devices[d])
                       else t.devices[d] == s.devices[d])
  {
    assert Conflicts(s.open, row) <==> DeviceTaken(s.open, x) by {
      assert forall i :: i in s.open ==>
        (SameSubject(s.open[i], row) <==> s.open[i].scope == DeviceScope && s.open[i].device == Some(x));
      hide SameSubject;
    }
    assert forall d :: d in topo ==> (Covers(topo, row, d) <==> d == x);
    OpenFrozen(topo, s, id, row);
    hide Open, Covers, TakenOut, Conflicts, DeviceTaken;
  }

  lemma CloseDevice(topo: Topology, s: State, id: nat, x: DeviceId)
    requires Inv(topo, s) && s.closing == None && id in s.open
    requires s.open[id].scope == DeviceScope && s.open[id].device == Some(x)
    ensures s.devices.Keys == topo.Keys
    ensures var t := Close(topo, s, id);
            && t.open == s.open - {id} && t.devices.Keys == topo.Keys
            && forall d :: d in s.devices ==>
                 if d == x && !CoveredBy(topo, s.open - {id}, d)
                 then HandedBack(s.devices[d], t.devices[d]) else t.devices[d] == s.devices[d]
  {
    assert forall d :: d in topo ==> (Covers(topo, s.open[id], d) <==> d == x);
    CloseHandedBack(topo, s, id);
    hide Close, Covers, HandedBack, CoveredBy, Inv;
  }

  // ---------------------------------------------------------------------
  // Slot
  // ---------------------------------------------------------------------

  predicate SlotTaken(open: map<nat, Row>, x: int) {
    exists i :: i in open && open[i].scope == SlotScope && open[i].slot == Some(x)
  }

  lemma OpenSlot(topo: Topology, s: State, id: nat, row: Row, x: int)
    requires s.devices.Keys == topo.Keys && id !in s.open && row.scope == SlotScope && row.slot == Some(x)
    ensures var t := Open(topo, s, id, row);
            && (SlotTaken(s.open, x) ==> t == s)
            && (!SlotTaken(s.open, x) ==>
                  && t.open == s.open[id := row] && t.devices.Keys == s.devices.Keys
                  && forall d :: d in s.devices ==>
                       if topo[d].slot == Some(x) then TakenOut(s.devices[d], t.devices[d])
                       else t.devices[d] == s.devices[d])
  {
    assert Conflicts(s.open, row) <==> SlotTaken(s.open, x) by {
      assert forall i :: i in s.open ==>
        (SameSubject(s.open[i], row) <==> s.open[i].scope == SlotScope && s.open[i].slot == Some(x));
      hide SameSubject;
    }
    assert forall d :: d in topo ==> (Covers(topo, row, d) <==> topo[d].slot == Some(x));
    OpenFrozen(topo, s, id, row);
    hide Open, Covers, TakenOut, Conflicts, SlotTaken;
  }

  lemma CloseSlot(topo: Topology, s: State, id: nat, x: int)
    requires Inv(topo, s) && s.closing == None && id in s.open
    requires s.open[id].scope == SlotScope && s.open[id].slot == Some(x)
    ensures s.devices.Keys == topo.Keys
    ensures var t := Close(topo, s, id);
            && t.open == s.open - {id} && t.devices.Keys == topo.Keys
            && forall d :: d in s.devices ==>
                 if topo[d].slot == Some(x) && !CoveredBy(topo, s.open - {id}, d)
                 then HandedBack(s.devices[d], t.devices[d]) else t.devices[d] == s.devices[d]
  {
    assert forall d :: d in topo ==> (Covers(topo, s.open[id], d) <==> topo[d].slot == Some(x));
    CloseHandedBack(topo, s, id);
    hide Close, Covers, HandedBack, CoveredBy, Inv;
  }

  // ---------------------------------------------------------------------
  // Hub
  // ---------------------------------------------------------------------

  predicate HubTaken(open: map<nat, Row>, x: int) {
    exists i :: i in open && open[i].scope == HubScope && open[i].hub == Some(x)
  }

  lemma OpenHub(topo: Topology, s: State, id: nat, row: Row, x: int)
    requires s.devices.Keys == topo.Keys && id !in s.open && row.scope == HubScope && row.hub == Some(x)
    ensures var t := Open(topo, s, id, row);
            && (HubTaken(s.open, x) ==> t == s)
            && (!HubTaken(s.open, x) ==>
                  && t.open == s.open[id := row] && t.devices.Keys == s.devices.Keys
                  && forall d :: d in s.devices ==>
                       if topo[d].hub == Some(x) then TakenOut(s.devices[d], t.devices[d])
                       else t.devices[d] == s.devices[d])
  {
    assert Conflicts(s.open, row) <==> HubTaken(s.open, x) by {
      assert forall i :: i in s.open ==>
        (SameSubject(s.open[i], row) <==> s.open[i].scope == HubScope && s.open[i].hub == Some(x));
      hide SameSubject;
    }
    assert forall d :: d in topo ==> (Covers(topo, row, d) <==> topo[d].hub == Some(x));
    OpenFrozen(topo, s, id, row);
    hide Open, Covers, TakenOut, Conflicts, HubTaken;
  }

  lemma CloseHub(topo: Topology, s: State, id: nat, x: int)
    requires Inv(topo, s) && s.closing == None && id in s.open
    requires s.open[id].scope == HubScope && s.open[id].hub == Some(x)
    ensures s.devices.Keys == topo.Keys
    ensures var t := Close(topo, s, id);
            && t.open == s.open - {id} && t.devices.Keys == topo.Keys
            && forall d :: d in s.devices ==>
                 if topo[d].hub == Some(x) && !CoveredBy(topo, s.open - {id}, d)
                 then HandedBack(s.devices[d], t.devices[d]) else t.devices[d] == s.devices[d]
  {
    assert forall d :: d in topo ==> (Covers(topo, s.open[id], d) <==> topo[d].hub == Some(x));
    CloseHandedBack(topo, s, id);
    hide Close, Covers, HandedBack, CoveredBy, Inv;
  }

  // ---------------------------------------------------------------------
  // Host
  // ---------------------------------------------------------------------

  predicate HostTaken(open: map<nat, Row>, x: string) {
    exists i :: i in open && open[i].scope == HostScope && open[i].host == Some(x)
  }

  lemma OpenHost(topo: Topology, s: State, id: nat, row: Row, x: string)
    requires s.devices.Keys == topo.Keys && id !in s.open && row.scope == HostScope && row.host == Some(x)
    ensures var t := Open(topo, s, id, row);
            && (HostTaken(s.open, x) ==> t == s)
            && (!HostTaken(s.open, x) ==>
                  && t.open == s.open[id := row] && t.devices.Keys == s.devices.Keys
                  && forall d :: d in s.devices ==>
                       if topo[d].host == Some(x) then TakenOut(s.devices[d], t.devices[d])
                       else t.devices[d] == s.devices[d])
  {
    assert Conflicts(s.open, row) <==> HostTaken(s.open, x) by {
      assert forall i :: i in s.open ==>
        (SameSubject(s.open[i], row) <==> s.open[i].scope == HostScope && s.open[i].host == Some(x));
      hide SameSubject;
    }
    assert forall d :: d in topo ==> (Covers(topo, row, d) <==> topo[d].host == Some(x));
    OpenFrozen(topo, s, id, row);
    hide Open, Covers, TakenOut, Conflicts, HostTaken;
  }

  lemma CloseHost(topo: Topology, s: State, id: nat, x: string)
    requires Inv(topo, s) && s.closing == None && id in s.open
    requires s.open[id].scope == HostScope && s.open[id].host == Some(x)
    ensures s.devices.Keys == topo.Keys
    ensures var t := Close(topo, s, id);
            && t.open == s.open - {id} && t.devices.Keys == topo.Keys
            && forall d :: d in s.devices ==>
                 if topo[d].host == Some(x) && !CoveredBy(topo, s.open - {id}, d)
                 then HandedBack(s.devices[d], t.devices[d]) else t.devices[d] == s.devices[d]
  {
    assert forall d :: d in topo ==> (Covers(topo, s.open[id], d) <==> topo[d].host == Some(x));
    CloseHandedBack(topo, s, id);
    hide Close, Covers, HandedBack, CoveredBy, Inv;
  }

  // ---------------------------------------------------------------------
  // PowerDomain
  // ---------------------------------------------------------------------

  predicate PowerDomainTaken(open: map<nat, Row>, x: int) {
    exists i :: i in open && open[i].scope == PowerDomainScope && open[i].powerDomain == Some(x)
  }

  lemma OpenPowerDomain(topo: Topology, s: State, id: nat, row: Row, x: int)
    requires s.devices.Keys == topo.Keys && id !in s.open && row.scope == PowerDomainScope && row.powerDomain == Some(x)
    ensures var t := Open(topo, s, id, row);
            && (PowerDomainTaken(s.open, x) ==> t == s)
            && (!PowerDomainTaken(s.open, x) ==>
                  && t.open == s.open[id := row] && t.devices.Keys == s.devices.Keys
                  && forall d :: d in s.devices ==>
                       if topo[d].powerDomain == Some(x) then TakenOut(s.devices[d], t.devices[d])
                       else t.devices[d] == s.devices[d])
  {
    assert Conflicts(s.open, row) <==> PowerDomainTaken(s.open, x) by {
      assert forall i :: i in s.open ==>
        (SameSubject(s.open[i], row) <==> s.open[i].scope == PowerDomainScope && s.open[i].powerDomain == Some(x));
      hide SameSubject;
    }
    assert forall d :: d in topo ==> (Covers(topo, row, d) <==> topo[d].powerDomain == Some(x));
    OpenFrozen(topo, s, id, row);
    hide Open, Covers, TakenOut, Conflicts, PowerDomainTaken;
  }

  lemma ClosePowerDomain(topo: Topology, s: State, id: nat, x: int)
    requires Inv(topo, s) && s.closing == None && id in s.open
    requires s.open[id].scope == PowerDomainScope && s.open[id].powerDomain == Some(x)
    ensures s.devices.Keys == topo.Keys
    ensures var t := Close(topo, s, id);
            && t.open == s.open - {id} && t.devices.Keys == topo.Keys
            && forall d :: d in s.devices ==>
                 if topo[d].powerDomain == Some(x) && !CoveredBy(topo, s.open - {id}, d)
                 then HandedBack(s.devices[d], t.devices[d]) else t.devices[d] == s.devices[d]
  {
    assert forall d :: d in topo ==> (Covers(topo, s.open[id], d) <==> topo[d].powerDomain == Some(x));
    CloseHandedBack(topo, s, id);
    hide Close, Covers, HandedBack, CoveredBy, Inv;
  }
}
