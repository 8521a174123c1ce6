/** What each form of subject selects, on the text of the subject and the columns
    of the rows. */
module EventSubjects {
  import opened Options
  import opened Text
  import opened EventQuery

  /** What a scope asks of an event besides its subject. */
  predicate OtherwiseEvent(s: Scope, db: Db, e: Event) {
    && (s.kind != "" ==> e.kind == s.kind)
    && (s.lookback > 0 ==> e.at >= db.now - s.lookback)
    && (s.tenant != "" ==>
          || (e.job.Some? && e.job.value in db.jobTenant && db.jobTenant[e.job.value] == s.tenant)
          || (e.lease.Some? && e.lease.value in db.leaseTenant && db.leaseTenant[e.lease.value] == s.tenant))
  }

  predicate OtherwiseAudit(s: Scope, db: Db, a: Audit) {
    && s.tenant == ""
    && (s.kind != "" ==> a.action == s.kind)
    && (s.lookback > 0 ==> a.at >= db.now - s.lookback)
  }

  // ---------------------------------------------------------------------
  // Typed subjects
  // ---------------------------------------------------------------------

  lemma SplitTyped(kind: string, id: string)
    requires kind in {"device", "lease", "job", "slot", "host"}
    ensures kind + ":" + id != "" && SplitSubject(kind + ":" + id) == Typed(kind, TrimSpace(id))
  {
    assert ':' !in kind;
    IndexOfCut(kind, ':', id);
    assert kind + ":" + id == kind + [':'] + id;
  }

  /** Both halves of a typed scope, still by the subject's kind. */
  lemma TypedHalves(q: Query, s: Scope, kind: string, id: string, db: Db)
    requires Means(q, s) && s.subject == kind + ":" + id && kind in {"device", "lease", "job", "slot", "host"}
    ensures forall e :: EventSelected(q, db, e) <==>
                          OtherwiseEvent(s, db, e) && EventIsAbout(db, e, Typed(kind, TrimSpace(id)))
    ensures forall a :: AuditSelected(q, db, a) <==> OtherwiseAudit(s, db, a) && a.subject == kind + ":" + TrimSpace(id)
  {
    SplitTyped(kind, id);
    hide EventSelected, AuditSelected, TrimSpace, SplitSubject, EventIsAbout;
  }

  lemma DeviceSubject(q: Query, s: Scope, id: string, db: Db)
    requires Means(q, s) && s.subject == "device" + ":" + id
    ensures forall e :: EventSelected(q, db, e) <==>
                          OtherwiseEvent(s, db, e) && (
                            || e.device == Some(TrimSpace(id))
                            || (TrimSpace(id) in db.deviceOfUid && e.device == Some(db.deviceOfUid[TrimSpace(id)])))
    ensures forall a :: AuditSelected(q, db, a) <==> OtherwiseAudit(s, db, a) && a.subject == "device:" + TrimSpace(id)
  {
    TypedHalves(q, s, "device", id, db);
    assert "device" + ":" == "device:";
    hide EventSelected, AuditSelected, TrimSpace;
  }

  lemma LeaseSubject(q: Query, s: Scope, id: string, db: Db)
    requires Means(q, s) && s.subject == "lease" + ":" + id
    ensures forall e :: EventSelected(q, db, e) <==> OtherwiseEvent(s, db, e) && e.lease == Some(TrimSpace(id))
    ensures forall a :: AuditSelected(q, db, a) <==> OtherwiseAudit(s, db, a) && a.subject == "lease:" + TrimSpace(id)
  {
    TypedHalves(q, s, "lease", id, db);
    assert "lease" + ":" == "lease:";
    hide EventSelected, AuditSelected, TrimSpace;
  }

  lemma JobSubject(q: Query, s: Scope, id: string, db: Db)
    requires Means(q, s) && s.subject == "job" + ":" + id
    ensures forall e :: EventSelected(q, db, e) <==> OtherwiseEvent(s, db, e) && e.job == Some(TrimSpace(id))
    ensures forall a :: AuditSelected(q, db, a) <==> OtherwiseAudit(s, db, a) && a.subject == "job:" + TrimSpace(id)
  {
    TypedHalves(q, s, "job", id, db);
    assert "job" + ":" == "job:";
    hide EventSelected, AuditSelected, TrimSpace;
  }

  lemma SlotSubject(q: Query, s: Scope, id: string, db: Db)
    requires Means(q, s) && s.subject == "slot" + ":" + id
    ensures forall e :: EventSelected(q, db, e) <==> OtherwiseEvent(s, db, e) && e.slot == Some(TrimSpace(id))
    ensures forall a :: AuditSelected(q, db, a) <==> OtherwiseAudit(s, db, a) && a.subject == "slot:" + TrimSpace(id)
  {
    TypedHalves(q, s, "slot", id, db);
    assert "slot" + ":" == "slot:";
    hide EventSelected, AuditSelected, TrimSpace;
  }

  /** A host has no column among the events: it is answered from the audit log. */
  lemma HostSubject(q: Query, s: Scope, id: string, db: Db)
    requires Means(q, s) && s.subject == "host" + ":" + id
    ensures forall e :: !EventSelected(q, db, e)
    ensures forall a :: AuditSelected(q, db, a) <==> OtherwiseAudit(s, db, a) && a.subject == "host:" + TrimSpace(id)
  {
    TypedHalves(q, s, "host", id, db);
    assert "host" + ":" == "host:";
    hide EventSelected, AuditSelected, TrimSpace;
  }

  // ---------------------------------------------------------------------
  // Bare subjects
  // ---------------------------------------------------------------------

  /** No colon, or another word before the first one. */
  predicate Untyped(subject: string) {
    && !("device:" <= subject) && !("lease:" <= subject) && !("job:" <= subject)
    && !("slot:" <= subject) && !("host:" <= subject)
  }

  lemma SplitBare(subject: string)
    requires Untyped(subject)
    ensures SplitSubject(subject) == Bare(subject)
  {
    var i := IndexOf(subject, ':');
    if i.Some? {
      var kind, rest := subject[..i.value], subject[i.value + 1..];
      assert subject == kind + [':'] + rest;
      assert kind + ":" <= subject;
      assert "device" + ":" == "device:" && "lease" + ":" == "lease:" && "job" + ":" == "job:";
      assert "slot" + ":" == "slot:" && "host" + ":" == "host:";
      assert kind !in SUBJECT_KINDS;
    }
  }

  /** Such a subject is tried whole: against the four id columns and the branded
      ids, and against the audit rows' subjects and their second parts. */
  lemma BareSubject(q: Query, s: Scope, db: Db)
    requires Means(q, s) && s.subject != "" && Untyped(s.subject)
    ensures forall e :: EventSelected(q, db, e) <==>
                          OtherwiseEvent(s, db, e) && (
                            || e.device == Some(s.subject) || e.lease == Some(s.subject)
                            || e.job == Some(s.subject) || e.slot == Some(s.subject)
                            || (s.subject in db.deviceOfUid && e.device == Some(db.deviceOfUid[s.subject])))
    ensures forall a :: AuditSelected(q, db, a) <==>
                          OtherwiseAudit(s, db, a) && (a.subject == s.subject || SecondPart(a.subject) == s.subject)
  {
    SplitBare(s.subject);
    hide EventSelected, AuditSelected, SplitSubject, SecondPart;
  }

  lemma NoSubject(q: Query, s: Scope, db: Db)
    requires Means(q, s) && s.subject == ""
    ensures forall e :: EventSelected(q, db, e) <==> OtherwiseEvent(s, db, e)
    ensures forall a :: AuditSelected(q, db, a) <==> OtherwiseAudit(s, db, a)
  {
    hide EventSelected, AuditSelected, SplitSubject;
  }

  /** The second part is what stands between the first colon and the next. */
  lemma SecondPartOf(first: string, second: string, more: string)
    requires ':' !in first && ':' !in second
    ensures SecondPart(first) == ""
    ensures SecondPart(first + [':'] + second) == second
    ensures SecondPart(first + [':'] + (second + [':'] + more)) == second
  {
    IndexOfCut(first, ':', second);
    IndexOfCut(first, ':', second + [':'] + more);
    IndexOfCut(second, ':', more);
  }
}
