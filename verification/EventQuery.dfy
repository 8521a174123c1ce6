/** The merged timeline: a scope, the query it renders to, and what that query
    means over any pair of tables. Conditions are an abstract syntax whose
    placeholders refer to the argument list, as the SQL's do. */
module EventQuery {
  import opened Options
  import opened Text
  import N = Newest

  const DEFAULT_LIMIT := 200
  const MAX_LIMIT := 2000

  /** Who is asking and for what. Durations and instants are in microseconds. */
  datatype Scope = Scope(tenant: string, kind: string, subject: string, lookback: int, limit: int)

  function PageSize(s: Scope): (n: nat)
    ensures 1 <= n <= 2000
    ensures 1 <= s.limit <= 2000 ==> n == s.limit
    ensures s.limit < 1 ==> n == 200
    ensures s.limit > 2000 ==> n == 2000
  {
    if s.limit < 1 then DEFAULT_LIMIT else if s.limit > MAX_LIMIT then MAX_LIMIT else s.limit
  }

  // ---------------------------------------------------------------------
  // The tables
  // ---------------------------------------------------------------------

  datatype Event = Event(
    at: int, kind: string, device: Option<string>, lease: Option<string>, job: Option<string>, slot: Option<string>)

  datatype Audit = Audit(at: int, action: string, subject: string)

  /** What a statement reads besides the two timelines: its clock, the owners of
      jobs and leases, and the devices behind branded ids. */
  datatype Db = Db(
    now: int, jobTenant: map<string, string>, leaseTenant: map<string, string>, deviceOfUid: map<string, string>)

  // ---------------------------------------------------------------------
  // Subjects
  // ---------------------------------------------------------------------

  datatype Subject = Typed(kind: string, id: string) | Bare(id: string)

  const SUBJECT_KINDS := {"device", "lease", "job", "slot", "host"}

  function SplitSubject(subject: string): Subject {
    match IndexOf(subject, ':')
    case None => Bare(subject)
    case Some(i) =>
      if subject[..i] in SUBJECT_KINDS then Typed(subject[..i], TrimSpace(subject[i + 1..])) else Bare(subject)
  }

  /** split_part(s, ':', 2). */
  function SecondPart(s: string): string {
    match IndexOf(s, ':')
    case None => ""
    case Some(i) =>
      var rest := s[i + 1..];
      match IndexOf(rest, ':')
      case None => rest
      case Some(j) => rest[..j]
  }

  // ---------------------------------------------------------------------
  // What a scope asks for
  // ---------------------------------------------------------------------

  predicate IsDevice(db: Db, e: Event, id: string) {
    e.device == Some(id) || (id in db.deviceOfUid && e.device == Some(db.deviceOfUid[id]))
  }

  predicate Owned(db: Db, e: Event, tenant: string) {
    || (e.job.Some? && e.job.value in db.jobTenant && db.jobTenant[e.job.value] == tenant)
    || (e.lease.Some? && e.lease.value in db.leaseTenant && db.leaseTenant[e.lease.value] == tenant)
  }

  predicate EventIsAbout(db: Db, e: Event, s: Subject) {
    match s
    case Typed("device", id) => IsDevice(db, e, id)
    case Typed("lease", id) => e.lease == Some(id)
    case Typed("job", id) => e.job == Some(id)
    case Typed("slot", id) => e.slot == Some(id)
    case Typed(_, _) => false
    case Bare(id) => IsDevice(db, e, id) || e.lease == Some(id) || e.job == Some(id) || e.slot == Some(id)
  }

  predicate AuditIsAbout(a: Audit, s: Subject) {
    match s
    case Typed(kind, id) => a.subject == kind + ":" + id
    case Bare(id) => a.subject == id || SecondPart(a.subject) == id
  }

  predicate EventWanted(s: Scope, db: Db, e: Event) {
    && (s.kind != "" ==> e.kind == s.kind)
    && (s.lookback > 0 ==> e.at >= db.now - s.lookback)
    && (s.subject != "" ==> EventIsAbout(db, e, SplitSubject(s.subject)))
    && (s.tenant != "" ==> Owned(db, e, s.tenant))
  }

  predicate AuditWanted(s: Scope, db: Db, a: Audit) {
    && s.tenant == ""
    && (s.kind != "" ==> a.action == s.kind)
    && (s.lookback > 0 ==> a.at >= db.now - s.lookback)
    && (s.subject != "" ==> AuditIsAbout(a, SplitSubject(s.subject)))
  }

  // ---------------------------------------------------------------------
  // The query
  // ---------------------------------------------------------------------

  datatype Arg = Number(n: int) | Text(s: string) | Interval(d: int)

  /** One condition; p is the number of the placeholder it reads. */
  datatype Cond =
    | KindIs(p: nat)
    | ActionIs(p: nat)
    | Since(p: nat)
    | DeviceIs(p: nat)
    | LeaseIs(p: nat)
    | JobIs(p: nat)
    | SlotIs(p: nat)
    | Never
    | AnyIdIs(p: nat)
    | SubjectIs(p: nat)
    | SubjectOrIdIs(p: nat)
    | OwnedBy(p: nat)

  /** The arguments, and the conditions of the two halves. The audit half is
      present only for a caller that is not confined to a tenant. */
  datatype Query = Query(args: seq<Arg>, events: seq<Cond>, audits: seq<Cond>, auditHalf: bool)

  function TextArg(args: seq<Arg>, p: nat): string {
    if 1 <= p <= |args| && args[p - 1].Text? then args[p - 1].s else ""
  }

  function IntervalArg(args: seq<Arg>, p: nat): int {
    if 1 <= p <= |args| && args[p - 1].Interval? then args[p - 1].d else 0
  }

  predicate HoldsForEvent(c: Cond, args: seq<Arg>, db: Db, e: Event) {
    match c
    case KindIs(p) => e.kind == TextArg(args, p)
    case Since(p) => e.at >= db.now - IntervalArg(args, p)
    case DeviceIs(p) => IsDevice(db, e, TextArg(args, p))
    case LeaseIs(p) => e.lease == Some(TextArg(args, p))
    case JobIs(p) => e.job == Some(TextArg(args, p))
    case SlotIs(p) => e.slot == Some(TextArg(args, p))
    case AnyIdIs(p) =>
      var id := TextArg(args, p);
      IsDevice(db, e, id) || e.lease == Some(id) || e.job == Some(id) || e.slot == Some(id)
    case OwnedBy(p) => Owned(db, e, TextArg(args, p))
    case _ => false
  }

  predicate HoldsForAudit(c: Cond, args: seq<Arg>, db: Db, a: Audit) {
    match c
    case ActionIs(p) => a.action == TextArg(args, p)
    case Since(p) => a.at >= db.now - IntervalArg(args, p)
    case SubjectIs(p) => a.subject == TextArg(args, p)
    case SubjectOrIdIs(p) => a.subject == TextArg(args, p) || SecondPart(a.subject) == TextArg(args, p)
    case _ => false
  }

  predicate EventSelected(q: Query, db: Db, e: Event) {
    forall i :: 0 <= i < |q.events| ==> HoldsForEvent(q.events[i], q.args, db, e)
  }

  predicate AuditSelected(q: Query, db: Db, a: Audit) {
    q.auditHalf && forall i :: 0 <= i < |q.audits| ==> HoldsForAudit(q.audits[i], q.args, db, a)
  }

  predicate Reads(cs: seq<Cond>, p: nat) {
    exists i :: 0 <= i < |cs| && !cs[i].Never? && cs[i].p == p
  }

  /** The placeholders of the statement are exactly $1 (its three LIMITs) and
      those its conditions read, and they number the arguments 1..len(args). */
  ghost predicate PlaceholdersExact(q: Query) {
    && |q.args| >= 1
    && (forall i :: 0 <= i < |q.events| && !q.events[i].Never? ==> 2 <= q.events[i].p <= |q.args|)
    && (forall i :: 0 <= i < |q.audits| && !q.audits[i].Never? ==> 2 <= q.audits[i].p <= |q.args|)
    && (forall p: nat :: 2 <= p <= |q.args| ==> Reads(q.events, p) || Reads(q.audits, p))
  }

  /** The query means exactly what the scope asks for, row by row. */
  ghost predicate Means(q: Query, s: Scope) {
    && (forall db, e :: EventSelected(q, db, e) <==> EventWanted(s, db, e))
    && (forall db, a :: AuditSelected(q, db, a) <==> AuditWanted(s, db, a))
  }

  // ---------------------------------------------------------------------
  // Building it, condition by condition
  // ---------------------------------------------------------------------

  /** A condition for the events half, one for the audit half, and the argument
      both read, appended together. */
  function Add(q: Query, arg: Arg, event: Option<Cond>, audit: Option<Cond>): Query {
    q.(args := q.args + [arg],
       events := q.events + (if event.Some? then [event.value] else []),
       audits := q.audits + (if audit.Some? && q.auditHalf then [audit.value] else []))
  }

  ghost predicate InBounds(q: Query) {
    && (forall i :: 0 <= i < |q.events| && !q.events[i].Never? ==> 1 <= q.events[i].p <= |q.args|)
    && (forall i :: 0 <= i < |q.audits| && !q.audits[i].Never? ==> 1 <= q.audits[i].p <= |q.args|)
  }

  lemma AddMeans(q: Query, arg: Arg, event: Option<Cond>, audit: Option<Cond>)
    requires InBounds(q)
    ensures var r := Add(q, arg, event, audit);
            && (forall db, e :: EventSelected(r, db, e) <==>
                  EventSelected(q, db, e) && (event.Some? ==> HoldsForEvent(event.value, r.args, db, e)))
            && (forall db, a :: AuditSelected(r, db, a) <==>
                  AuditSelected(q, db, a) && (audit.Some? ==> HoldsForAudit(audit.value, r.args, db, a)))
  {
    var r := Add(q, arg, event, audit);
    forall db, e
      ensures EventSelected(r, db, e) <==>
              EventSelected(q, db, e) && (event.Some? ==> HoldsForEvent(event.value, r.args, db, e))
    {
      EventsKept(q, r, db, e);
    }
    forall db, a
      ensures AuditSelected(r, db, a) <==>
              AuditSelected(q, db, a) && (audit.Some? ==> HoldsForAudit(audit.value, r.args, db, a))
    {
      AuditsKept(q, r, db, a);
    }
  }

  lemma EventsKept(q: Query, r: Query, db: Db, e: Event)
    requires InBounds(q) && q.args <= r.args && q.events <= r.events && |r.events| <= |q.events| + 1
    ensures EventSelected(r, db, e) <==>
            EventSelected(q, db, e) && (|r.events| > |q.events| ==> HoldsForEvent(r.events[|q.events|], r.args, db, e))
  {
    assert forall i :: 0 <= i < |q.events| ==> r.events[i] == q.events[i];
    forall i | 0 <= i < |q.events|
      ensures HoldsForEvent(r.events[i], r.args, db, e) <==> HoldsForEvent(q.events[i], q.args, db, e)
    {
    }
  }

  lemma AuditsKept(q: Query, r: Query, db: Db, a: Audit)
    requires InBounds(q) && q.args <= r.args && q.audits <= r.audits && |r.audits| <= |q.audits| + 1
    requires r.auditHalf == q.auditHalf
    ensures AuditSelected(r, db, a) <==>
            AuditSelected(q, db, a) && (|r.audits| > |q.audits| ==> HoldsForAudit(r.audits[|q.audits|], r.args, db, a))
  {
    assert forall i :: 0 <= i < |q.audits| ==> r.audits[i] == q.audits[i];
    forall i | 0 <= i < |q.audits|
      ensures HoldsForAudit(r.audits[i], r.args, db, a) <==> HoldsForAudit(q.audits[i], q.args, db, a)
    {
    }
  }

  /** The argument just appended is read by a condition just appended. */
  lemma AddExact(q: Query, arg: Arg, event: Option<Cond>, audit: Option<Cond>)
    requires PlaceholdersExact(q)
    requires event.Some? ==> !event.value.Never? && event.value.p == |q.args| + 1
    requires audit.Some? ==> !audit.value.Never? && audit.value.p == |q.args| + 1
    requires event.Some? || (audit.Some? && q.auditHalf)
    ensures PlaceholdersExact(Add(q, arg, event, audit))
  {
    var r := Add(q, arg, event, audit);
    forall p: nat | 2 <= p <= |r.args|
      ensures Reads(r.events, p) || Reads(r.audits, p)
    {
      if p == |r.args| {
        if event.Some? {
          assert r.events[|q.events|].p == p;
        } else {
          assert r.audits[|q.audits|].p == p;
        }
      } else {
        ReadsKept(q.events, r.events, p);
        ReadsKept(q.audits, r.audits, p);
      }
    }
  }

  lemma ReadsKept(cs: seq<Cond>, ds: seq<Cond>, p: nat)
    requires cs <= ds
    ensures Reads(cs, p) ==> Reads(ds, p)
  {
    if Reads(cs, p) {
      var i :| 0 <= i < |cs| && !cs[i].Never? && cs[i].p == p;
      assert ds[i] == cs[i];
    }
  }

  /** The query built so far asks for the part of the scope seen so far. */
  ghost predicate MeansSoFar(q: Query, done: Scope) {
    && done.tenant == ""
    && PlaceholdersExact(q)
    && (forall db, e :: EventSelected(q, db, e) <==> EventWanted(done, db, e))
    && (forall db, a :: AuditSelected(q, db, a) <==> q.auditHalf && AuditWanted(done, db, a))
  }

  lemma KindStage(q: Query, done: Scope, kind: string)
    requires MeansSoFar(q, done) && done.kind == "" && kind != ""
    ensures MeansSoFar(Add(q, Text(kind), Some(KindIs(|q.args| + 1)), Some(ActionIs(|q.args| + 1))),
                       done.(kind := kind))
  {
    AddExact(q, Text(kind), Some(KindIs(|q.args| + 1)), Some(ActionIs(|q.args| + 1)));
    AddMeans(q, Text(kind), Some(KindIs(|q.args| + 1)), Some(ActionIs(|q.args| + 1)));
    hide EventSelected, AuditSelected, PlaceholdersExact;
  }

  lemma LookbackStage(q: Query, done: Scope, d: int)
    requires MeansSoFar(q, done) && done.lookback == 0 && d > 0
    ensures MeansSoFar(Add(q, Interval(d), Some(Since(|q.args| + 1)), Some(Since(|q.args| + 1))), done.(lookback := d))
  {
    AddExact(q, Interval(d), Some(Since(|q.args| + 1)), Some(Since(|q.args| + 1)));
    AddMeans(q, Interval(d), Some(Since(|q.args| + 1)), Some(Since(|q.args| + 1)));
    hide EventSelected, AuditSelected, PlaceholdersExact;
  }

  /** The events half's condition for a subject, and the id it binds, if any. */
  function SubjectCond(s: Subject, p: nat): (c: Cond)
    ensures c.Never? || c.p == p
    ensures forall args, db, e :: 1 <= p <= |args| && args[p - 1] == Text(s.id) ==>
      (HoldsForEvent(c, args, db, e) <==> EventIsAbout(db, e, s))
    ensures c.Never? ==> forall db, e :: !EventIsAbout(db, e, s)
  {
    match s
    case Typed("device", _) => DeviceIs(p)
    case Typed("lease", _) => LeaseIs(p)
    case Typed("job", _) => JobIs(p)
    case Typed("slot", _) => SlotIs(p)
    case Typed(_, _) => Never
    case Bare(_) => AnyIdIs(p)
  }

  function AuditSubjectArg(s: Subject): string {
    match s
    case Typed(kind, id) => kind + ":" + id
    case Bare(id) => id
  }

  function AuditSubjectCond(s: Subject, p: nat): (c: Cond)
    ensures !c.Never? && c.p == p
    ensures forall args, db, a :: 1 <= p <= |args| && args[p - 1] == Text(AuditSubjectArg(s)) ==>
      (HoldsForAudit(c, args, db, a) <==> AuditIsAbout(a, s))
  {
    if s.Typed? then SubjectIs(p) else SubjectOrIdIs(p)
  }

  /** Between the two subject conditions: the events half filters, the audit
      half does not yet. */
  ghost predicate HalfwayThroughSubject(q: Query, done: Scope, subject: string) {
    && done.tenant == "" && done.subject == ""
    && PlaceholdersExact(q)
    && (forall db, e :: EventSelected(q, db, e) <==> EventWanted(done.(subject := subject), db, e))
    && (forall db, a :: AuditSelected(q, db, a) <==> q.auditHalf && AuditWanted(done, db, a))
  }

  method AddEventSubject(q: Query, ghost done: Scope, subject: string) returns (r: Query)
    requires MeansSoFar(q, done) && done.subject == "" && subject != ""
    ensures HalfwayThroughSubject(r, done, subject)
    ensures r.auditHalf == q.auditHalf && q.args <= r.args
  {
    hide MeansSoFar, HalfwayThroughSubject, SplitSubject, SubjectCond;
    var s := SplitSubject(subject);
    var c := SubjectCond(s, |q.args| + 1);
    if c.Never? {
      r := q.(events := q.events + [c]);
      ClosedHalfStage(q, done, subject);
    } else {
      r := Add(q, Text(s.id), Some(c), None);
      EventSubjectStage(q, done, subject);
    }
  }

  lemma EventSubjectStage(q: Query, done: Scope, subject: string)
    requires MeansSoFar(q, done) && done.subject == "" && subject != ""
    requires !SubjectCond(SplitSubject(subject), |q.args| + 1).Never?
    ensures var s := SplitSubject(subject);
            HalfwayThroughSubject(Add(q, Text(s.id), Some(SubjectCond(s, |q.args| + 1)), None), done, subject)
  {
    hide EventIsAbout, SplitSubject, SubjectCond, HoldsForEvent, EventSelected, AuditSelected;
    var s := SplitSubject(subject);
    var c := SubjectCond(s, |q.args| + 1);
    AddExact(q, Text(s.id), Some(c), None);
    AddMeans(q, Text(s.id), Some(c), None);
    hide PlaceholdersExact;
  }

  lemma ClosedHalfStage(q: Query, done: Scope, subject: string)
    requires MeansSoFar(q, done) && done.subject == "" && subject != ""
    requires SubjectCond(SplitSubject(subject), |q.args| + 1).Never?
    ensures HalfwayThroughSubject(q.(events := q.events + [Never]), done, subject)
  {
    hide EventIsAbout, SplitSubject, SubjectCond, HoldsForEvent, EventSelected, AuditSelected, PlaceholdersExact;
    NeverStage(q, Never);
  }

  lemma NeverStage(q: Query, c: Cond)
    requires PlaceholdersExact(q) && c.Never?
    ensures var r := q.(events := q.events + [c]);
            && PlaceholdersExact(r)
            && (forall db, e :: !EventSelected(r, db, e))
            && (forall db, a :: AuditSelected(r, db, a) <==> AuditSelected(q, db, a))
  {
    var r := q.(events := q.events + [c]);
    assert r.events[|q.events|] == c;
    forall p: nat | 2 <= p <= |r.args|
      ensures Reads(r.events, p) || Reads(r.audits, p)
    {
      ReadsKept(q.events, r.events, p);
    }
  }

  lemma AuditSubjectStage(q: Query, done: Scope, subject: string)
    requires HalfwayThroughSubject(q, done, subject) && subject != "" && q.auditHalf
    ensures var s := SplitSubject(subject);
            MeansSoFar(Add(q, Text(AuditSubjectArg(s)), None, Some(AuditSubjectCond(s, |q.args| + 1))),
                       done.(subject := subject))
  {
    var s := SplitSubject(subject);
    var c := AuditSubjectCond(s, |q.args| + 1);
    AddExact(q, Text(AuditSubjectArg(s)), None, Some(c));
    AddMeans(q, Text(AuditSubjectArg(s)), None, Some(c));
    hide EventSelected, AuditSelected, PlaceholdersExact, EventIsAbout, SplitSubject, AuditIsAbout, HoldsForAudit;
  }

  lemma TenantStage(q: Query, done: Scope, tenant: string)
    requires MeansSoFar(q, done) && tenant != "" && !q.auditHalf
    ensures var r := Add(q, Text(tenant), Some(OwnedBy(|q.args| + 1)), None);
            PlaceholdersExact(r) && Means(r, done.(tenant := tenant))
  {
    AddExact(q, Text(tenant), Some(OwnedBy(|q.args| + 1)), None);
    AddMeans(q, Text(tenant), Some(OwnedBy(|q.args| + 1)), None);
    hide EventSelected, AuditSelected, PlaceholdersExact;
  }

  /** For every scope the query selects exactly the rows the scope asks for, and
      binds exactly the arguments it reads. */
  method BuildQuery(s: Scope) returns (q: Query)
    ensures Means(q, s)
    ensures PlaceholdersExact(q)
    ensures q.auditHalf <==> s.tenant == ""
    ensures q.args[0] == Number(PageSize(s))
  {
    hide Means, MeansSoFar, HalfwayThroughSubject, PlaceholdersExact, PageSize;
    q := Query([Number(PageSize(s))], [], [], s.tenant == "");
    ghost var done := Scope("", "", "", 0, s.limit);
    StartStage(q, done);
    if s.kind != "" {
      KindStage(q, done, s.kind);
      q := Add(q, Text(s.kind), Some(KindIs(|q.args| + 1)), Some(ActionIs(|q.args| + 1)));
      done := done.(kind := s.kind);
    }
    if s.lookback > 0 {
      LookbackStage(q, done, s.lookback);
      q := Add(q, Interval(s.lookback), Some(Since(|q.args| + 1)), Some(Since(|q.args| + 1)));
      done := done.(lookback := s.lookback);
    }
    if s.subject != "" {
      var subject := SplitSubject(s.subject);
      q := AddEventSubject(q, done, s.subject);
      if q.auditHalf {
        AuditSubjectStage(q, done, s.subject);
        q := Add(q, Text(AuditSubjectArg(subject)), None, Some(AuditSubjectCond(subject, |q.args| + 1)));
      } else {
        NoAuditSubject(q, done, s.subject);
      }
      done := done.(subject := s.subject);
    }
    if s.tenant != "" {
      TenantStage(q, done, s.tenant);
      q := Add(q, Text(s.tenant), Some(OwnedBy(|q.args| + 1)), None);
      done := done.(tenant := s.tenant);
    } else {
      WholeFarm(q, done);
    }
    NoWindow(q, done, s);
  }

  lemma StartStage(q: Query, done: Scope)
    requires |q.args| == 1 && q.events == [] && q.audits == []
    requires done == Scope("", "", "", 0, done.limit)
    ensures MeansSoFar(q, done)
  {
  }

  lemma NoAuditSubject(q: Query, done: Scope, subject: string)
    requires HalfwayThroughSubject(q, done, subject) && !q.auditHalf
    ensures MeansSoFar(q, done.(subject := subject))
  {
  }

  lemma WholeFarm(q: Query, done: Scope)
    requires MeansSoFar(q, done) && q.auditHalf
    ensures PlaceholdersExact(q) && Means(q, done)
  {
    hide EventSelected, AuditSelected, PlaceholdersExact;
  }

  /** A lookback that is not positive asks for no window, like none at all. */
  lemma NoWindow(q: Query, done: Scope, s: Scope)
    requires Means(q, done)
    requires done.lookback == s.lookback || (done.lookback == 0 && s.lookback <= 0)
    requires done.kind == s.kind && done.subject == s.subject && done.tenant == s.tenant
    ensures Means(q, s)
  {
    hide EventSelected, AuditSelected;
  }

  // ---------------------------------------------------------------------
  // The subject both halves filter on
  // ---------------------------------------------------------------------

  /** The subject an audit row carries, copied back into a scope, asks for what
      the original asked for: normalising is idempotent. */
  lemma SubjectNormalised(subject: string)
    ensures SplitSubject(AuditSubjectArg(SplitSubject(subject))) == SplitSubject(subject)
  {
    var s := SplitSubject(subject);
    if s.Typed? {
      IndexOfCut(s.kind, ':', s.id);
      assert s.kind + ":" + s.id == s.kind + [':'] + s.id;
      TrimTwice(subject[IndexOf(subject, ':').value + 1..]);
    }
  }

  // ---------------------------------------------------------------------
  // The answer
  // ---------------------------------------------------------------------

  /** The rows of the events half, numbered as they stand in the table. */
  ghost function EventRows(want: Event -> bool, events: seq<Event>): seq<N.Row> {
    if events == [] then []
    else
      var k := |events| - 1;
      EventRows(want, events[..k]) + if want(events[k]) then [N.Row(events[k].at, "event", k)] else []
  }

  ghost function AuditRows(want: Audit -> bool, audits: seq<Audit>): seq<N.Row> {
    if audits == [] then []
    else
      var k := |audits| - 1;
      AuditRows(want, audits[..k]) + if want(audits[k]) then [N.Row(audits[k].at, "audit", k)] else []
  }

  /** Some run of the statement: each half sorted and limited, the two appended,
      sorted and limited again, ties falling as the database likes. */
  ghost predicate IsAnswer(q: Query, db: Db, events: seq<Event>, audits: seq<Audit>, out: seq<N.Row>) {
    && |q.args| >= 1 && q.args[0].Number? && q.args[0].n >= 0
    && exists ha, hb ::
      && N.IsNewest(q.args[0].n, multiset(EventRows(e => EventSelected(q, db, e), events)), ha)
      && N.IsNewest(q.args[0].n, multiset(AuditRows(a => AuditSelected(q, db, a), audits)), hb)
      && N.IsNewest(q.args[0].n, multiset(ha) + multiset(hb), out)
  }

  /** The plain reading of a scope: every wanted row of both tables. */
  ghost function WantedRows(s: Scope, db: Db, events: seq<Event>, audits: seq<Audit>): multiset<N.Row> {
    multiset(EventRows(e => EventWanted(s, db, e), events)) + multiset(AuditRows(a => AuditWanted(s, db, a), audits))
  }

  lemma {:induction false} SameEventRows(f: Event -> bool, g: Event -> bool, events: seq<Event>)
    requires forall e :: f(e) <==> g(e)
    ensures EventRows(f, events) == EventRows(g, events)
  {
    if events != [] {
      SameEventRows(f, g, events[..|events| - 1]);
    }
  }

  lemma {:induction false} SameAuditRows(f: Audit -> bool, g: Audit -> bool, audits: seq<Audit>)
    requires forall a :: f(a) <==> g(a)
    ensures AuditRows(f, audits) == AuditRows(g, audits)
  {
    if audits != [] {
      SameAuditRows(f, g, audits[..|audits| - 1]);
    }
  }

  /** Every answer of the built query is a newest page of the wanted rows of the
      two tables together, so its timestamps are those of any such page. */
  lemma AnswerIsNewestWanted(q: Query, s: Scope, db: Db, events: seq<Event>, audits: seq<Audit>, out: seq<N.Row>)
    requires Means(q, s) && |q.args| >= 1 && q.args[0] == Number(PageSize(s))
    requires IsAnswer(q, db, events, audits, out)
    ensures N.IsNewest(PageSize(s), WantedRows(s, db, events, audits), out)
    ensures forall page: seq<N.Row> :: N.IsNewest(PageSize(s), WantedRows(s, db, events, audits), page) ==>
              |page| == |out| && forall i :: 0 <= i < |page| ==> page[i].at == out[i].at
  {
    hide EventSelected, AuditSelected, EventWanted, AuditWanted, N.IsNewest, PageSize;
    SameEventRows(e => EventSelected(q, db, e), e => EventWanted(s, db, e), events);
    SameAuditRows(a => AuditSelected(q, db, a), a => AuditWanted(s, db, a), audits);
    var es, au := EventRows(e => EventSelected(q, db, e), events), AuditRows(a => AuditSelected(q, db, a), audits);
    var ha, hb :|
      && N.IsNewest(q.args[0].n, multiset(es), ha)
      && N.IsNewest(q.args[0].n, multiset(au), hb)
      && N.IsNewest(q.args[0].n, multiset(ha) + multiset(hb), out);
    N.MergeHalves(PageSize(s), multiset(es), multiset(au), ha, hb, out);
    forall page: seq<N.Row> | N.IsNewest(PageSize(s), WantedRows(s, db, events, audits), page)
      ensures |page| == |out| && forall i :: 0 <= i < |page| ==> page[i].at == out[i].at
    {
      N.SameTimestamps(PageSize(s), WantedRows(s, db, events, audits), page, out);
    }
  }

  /** There is always an answer. */
  lemma AnswerExists(q: Query, db: Db, events: seq<Event>, audits: seq<Audit>) returns (out: seq<N.Row>)
    requires |q.args| >= 1 && q.args[0].Number? && q.args[0].n >= 0
    ensures IsAnswer(q, db, events, audits, out)
  {
    hide N.IsNewest, EventSelected, AuditSelected;
    var n := q.args[0].n;
    var es, au := EventRows(e => EventSelected(q, db, e), events), AuditRows(a => AuditSelected(q, db, a), audits);
    N.SortLimitIsNewest(n, es);
    N.SortLimitIsNewest(n, au);
    var ha, hb := N.Limit(n, N.Sort(es)), N.Limit(n, N.Sort(au));
    N.SortLimitIsNewest(n, ha + hb);
    out := N.Limit(n, N.Sort(ha + hb));
    assert multiset(ha + hb) == multiset(ha) + multiset(hb);
  }

  lemma {:induction false} EventRowIsWanted(want: Event -> bool, events: seq<Event>, r: N.Row)
    requires r in EventRows(want, events)
    ensures r.key < |events| && r == N.Row(events[r.key].at, "event", r.key) && want(events[r.key])
  {
    var k := |events| - 1;
    if r in EventRows(want, events[..k]) {
      EventRowIsWanted(want, events[..k], r);
    }
  }

  lemma {:induction false} NoAuditRows(want: Audit -> bool, audits: seq<Audit>)
    requires forall a :: !want(a)
    ensures AuditRows(want, audits) == []
  {
    if audits != [] {
      NoAuditRows(want, audits[..|audits| - 1]);
    }
  }

  /** A tenant's page holds only events whose job or lease is that tenant's. */
  lemma TenantSeesOwnRows(q: Query, s: Scope, db: Db, events: seq<Event>, audits: seq<Audit>, out: seq<N.Row>, i: nat)
    requires s.tenant != "" && Means(q, s) && |q.args| >= 1 && q.args[0] == Number(PageSize(s))
    requires IsAnswer(q, db, events, audits, out) && i < |out|
    ensures out[i].source == "event" && out[i].key < |events|
    ensures var e := events[out[i].key];
            || (e.job.Some? && e.job.value in db.jobTenant && db.jobTenant[e.job.value] == s.tenant)
            || (e.lease.Some? && e.lease.value in db.leaseTenant && db.leaseTenant[e.lease.value] == s.tenant)
  {
    AnswerIsNewestWanted(q, s, db, events, audits, out);
    NoAuditRows(a => AuditWanted(s, db, a), audits);
    assert out[i] in multiset(out);
    assert out[i] in WantedRows(s, db, events, audits);
    EventRowIsWanted(e => EventWanted(s, db, e), events, out[i]);
  }
}
