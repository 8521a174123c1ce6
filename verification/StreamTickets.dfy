/** Single-use stream tickets: a swept map of digests under two quotas, shown to
    answer exactly as a plain log of what was minted and presented would. */
module StreamTickets {
  import opened Options

  /** Nanoseconds. */
  const TTL := 30_000_000_000
  const MAX_TICKETS := 4096
  const MAX_PER_SUBJECT := 64
  const STREAM_PATH := "/api/v1/stream"

  datatype Identity = Identity(subject: string, role: nat, tenant: string, how: string)

  /** The parts of a request the store looks at; no ticket parameter is "". */
  datatype Request = Request(verb: string, path: string, ticket: string)

  datatype Ticket = Ticket(digest: string, identity: Identity, expires: int)

  predicate MayRedeem(r: Request) {
    r.ticket != "" && r.verb == "GET" && r.path == STREAM_PATH
  }

  function Redeemed(id: Identity): Identity {
    id.(how := id.how + "+ticket")
  }

  // ---------------------------------------------------------------------
  // The reference: a log and nothing else
  // ---------------------------------------------------------------------

  datatype Entry =
    | Minted(raw: string, id: Identity, at: int)
    | Presented(req: Request, at: int, out: Option<Identity>)

  datatype Grant = Grant(id: Identity, expires: int)

  /** What raw is still good for, going by the last entry about it. */
  function Live(log: seq<Entry>, raw: string): Option<Grant> {
    if log == [] then None
    else
      var e := log[|log| - 1];
      if e.Minted? && e.raw == raw then Some(Grant(e.id, e.at + TTL))
      else if e.Presented? && e.req.ticket == raw then None
      else Live(log[..|log| - 1], raw)
  }

  function Answer(log: seq<Entry>, raw: string, now: int): Option<Identity> {
    match Live(log, raw)
    case None => None
    case Some(g) => if now < g.expires then Some(Redeemed(g.id)) else None
  }

  function MintedRaws(log: seq<Entry>): set<string> {
    set e | e in log && e.Minted? :: e.raw
  }

  predicate LiveAt(log: seq<Entry>, raw: string, now: int) {
    match Live(log, raw)
    case None => false
    case Some(g) => now < g.expires
  }

  function LiveRaws(log: seq<Entry>, now: int): set<string> {
    set raw | raw in MintedRaws(log) && LiveAt(log, raw, now)
  }

  function LiveRawsOf(log: seq<Entry>, now: int, subject: string): set<string> {
    set raw | raw in LiveRaws(log, now) && Live(log, raw).Some? && Live(log, raw).value.id.subject == subject
  }

  predicate Room(log: seq<Entry>, now: int, subject: string) {
    |LiveRaws(log, now)| < MAX_TICKETS && |LiveRawsOf(log, now, subject)| < MAX_PER_SUBJECT
  }

  lemma LiveAfter(log: seq<Entry>, e: Entry, raw: string)
    ensures Live(log + [e], raw) ==
      if e.Minted? && e.raw == raw then Some(Grant(e.id, e.at + TTL))
      else if e.Presented? && e.req.ticket == raw then None
      else Live(log, raw)
  {
    assert (log + [e])[..|log|] == log;
  }

  /** A live ticket goes back to a mint, with nothing about it since. */
  lemma {:induction false} LiveMeans(log: seq<Entry>, raw: string) returns (i: nat)
    requires Live(log, raw).Some?
    ensures i < |log| && log[i].Minted? && log[i].raw == raw
    ensures Live(log, raw).value == Grant(log[i].id, log[i].at + TTL)
    ensures forall j :: i < j < |log| && log[j].Presented? ==> log[j].req.ticket != raw
    ensures raw in MintedRaws(log)
  {
    var k := |log| - 1;
    if log[k].Minted? && log[k].raw == raw {
      i := k;
    } else {
      i := LiveMeans(log[..k], raw);
      assert log[..k][i] == log[i];
      forall j | i < j < |log| && log[j].Presented?
        ensures log[j].req.ticket != raw
      {
        if j < k {
          assert log[..k][j] == log[j];
        }
      }
    }
    assert log[i] in log;
  }

  /** Every presentation was proper and was answered as the log before it says. */
  ghost predicate Honest(log: seq<Entry>) {
    forall j :: 0 <= j < |log| && log[j].Presented? ==>
      MayRedeem(log[j].req) && log[j].out == Answer(log[..j], log[j].req.ticket, log[j].at)
  }

  /** No raw ticket is drawn twice. */
  ghost predicate Fresh(log: seq<Entry>) {
    forall i, j :: 0 <= i < j < |log| && log[i].Minted? && log[j].Minted? ==> log[i].raw != log[j].raw
  }

  lemma HonestSnoc(log: seq<Entry>, e: Entry)
    requires Honest(log)
    requires e.Presented? ==> MayRedeem(e.req) && e.out == Answer(log, e.req.ticket, e.at)
    ensures Honest(log + [e])
  {
    var l := log + [e];
    assert l[..|log|] == log;
    forall j | 0 <= j < |l| && l[j].Presented?
      ensures MayRedeem(l[j].req) && l[j].out == Answer(l[..j], l[j].req.ticket, l[j].at)
    {
      if j < |log| {
        assert l[..j] == log[..j];
      }
    }
  }

  /** A redemption is by GET on the stream path, strictly before the expiry of an
      earlier mint of that ticket, and yields its identity with only the method
      extended. */
  lemma RedeemedAsMinted(log: seq<Entry>, j: nat) returns (i: nat)
    requires Honest(log) && j < |log| && log[j].Presented? && log[j].out.Some?
    ensures i < j && log[i].Minted? && log[i].raw == log[j].req.ticket
    ensures log[j].at < log[i].at + TTL
    ensures log[j].out == Some(log[i].id.(how := log[i].id.how + "+ticket"))
    ensures log[j].req.verb == "GET" && log[j].req.path == STREAM_PATH
    ensures forall k :: i < k < j && log[k].Presented? ==> log[k].req.ticket != log[j].req.ticket
  {
    i := LiveMeans(log[..j], log[j].req.ticket);
    assert log[..j][i] == log[i];
    forall k | i < k < j && log[k].Presented?
      ensures log[k].req.ticket != log[j].req.ticket
    {
      assert log[..j][k] == log[k];
    }
  }

  /** Single use: two redemptions are of two tickets. */
  lemma SingleUse(log: seq<Entry>, j: nat, k: nat)
    requires Honest(log) && Fresh(log) && j < k < |log|
    requires log[j].Presented? && log[k].Presented? && log[j].out.Some? && log[k].out.Some?
    ensures log[j].req.ticket != log[k].req.ticket
  {
    var mj := RedeemedAsMinted(log, j);
    var mk := RedeemedAsMinted(log, k);
  }

  /** Spent on sight: once presented after its mint, a ticket is never honoured. */
  lemma SpentOnSight(log: seq<Entry>, i: nat, j: nat, k: nat)
    requires Honest(log) && Fresh(log) && i < j < k < |log|
    requires log[i].Minted? && log[j].Presented? && log[k].Presented?
    requires log[i].raw == log[j].req.ticket == log[k].req.ticket
    ensures log[k].out.None?
  {
    if log[k].out.Some? {
      var m := RedeemedAsMinted(log, k);
    }
  }

  // ---------------------------------------------------------------------
  // The store
  // ---------------------------------------------------------------------

  /** What the sweep leaves: the tickets not yet expired. */
  function Swept(tickets: map<string, Ticket>, now: int): map<string, Ticket> {
    map k | k in tickets && now < tickets[k].expires :: tickets[k]
  }

  function HeldBy(tickets: map<string, Ticket>, subject: string): set<string> {
    set k | k in tickets && tickets[k].identity.subject == subject
  }

  /** The map in the middle of a sweep, with the keys in todo not looked at yet. */
  ghost function Partly(start: map<string, Ticket>, todo: set<string>, now: int): map<string, Ticket> {
    map k | k in start && (k in todo || now < start[k].expires) :: start[k]
  }

  /** What the sweep has counted by then. */
  ghost function Counted(start: map<string, Ticket>, todo: set<string>, now: int, subject: string): set<string> {
    set k | k in start && k !in todo && now < start[k].expires && start[k].identity.subject == subject
  }

  lemma SweepEnds(start: map<string, Ticket>, now: int, subject: string)
    ensures Partly(start, start.Keys, now) == start
    ensures Partly(start, {}, now) == Swept(start, now)
    ensures Counted(start, start.Keys, now, subject) == {}
    ensures Counted(start, {}, now, subject) == HeldBy(Swept(start, now), subject)
  {
  }

  lemma SweepStep(start: map<string, Ticket>, todo: set<string>, k: string, now: int)
    requires todo <= start.Keys && k in todo
    ensures var m := Partly(start, todo, now);
            && k in m && m[k] == start[k]
            && Partly(start, todo - {k}, now) == (if now >= start[k].expires then m - {k} else m)
  {
  }

  lemma CountStep(start: map<string, Ticket>, todo: set<string>, k: string, now: int, subject: string)
    requires todo <= start.Keys && k in todo
    ensures |Counted(start, todo - {k}, now, subject)| == |Counted(start, todo, now, subject)| +
      if now < start[k].expires && start[k].identity.subject == subject then 1 else 0
  {
    var before := Counted(start, todo, now, subject);
    if now < start[k].expires && start[k].identity.subject == subject {
      assert Counted(start, todo - {k}, now, subject) == before + {k};
    } else {
      assert Counted(start, todo - {k}, now, subject) == before;
    }
  }

  ghost predicate Injective(digest: string -> string) {
    forall a, b :: digest(a) == digest(b) ==> a == b
  }

  ghost predicate IsDigest(digest: string -> string, k: string) {
    exists raw :: digest(raw) == k
  }

  /** The map holds nothing the log does not, and all of it that has not expired. */
  ghost predicate Agrees(digest: string -> string, tickets: map<string, Ticket>, log: seq<Entry>, last: int) {
    && (forall k :: k in tickets ==> IsDigest(digest, k))
    && (forall raw :: digest(raw) in tickets ==>
          && tickets[digest(raw)].digest == digest(raw)
          && Live(log, raw) == Some(Grant(tickets[digest(raw)].identity, tickets[digest(raw)].expires)))
    && (forall raw :: LiveAt(log, raw, last) ==> digest(raw) in tickets)
  }

  ghost predicate Quotas(tickets: map<string, Ticket>) {
    |tickets| <= MAX_TICKETS && forall subject :: |HeldBy(tickets, subject)| <= MAX_PER_SUBJECT
  }

  class Store {
    const digest: string -> string
    var tickets: map<string, Ticket>
    ghost var log: seq<Entry>
    /** The latest clock reading. */
    ghost var last: int

    ghost predicate Valid()
      reads this
    {
      Injective(digest) && Agrees(digest, tickets, log, last) && Quotas(tickets) && Honest(log)
    }

    constructor (digest: string -> string, ghost start: int)
      requires Injective(digest)
      ensures Valid() && this.digest == digest && log == [] && tickets == map[] && last == start
    {
      this.digest := digest;
      tickets, log, last := map[], [], start;
      new;
      assert forall subject :: HeldBy(map[], subject) == {};
    }

    /** Drops what has expired and counts what the subject still holds. */
    method Sweep(now: int, subject: string) returns (held: nat)
      modifies this`tickets
      ensures tickets == Swept(old(tickets), now)
      ensures held == |HeldBy(tickets, subject)|
    {
      hide HeldBy, Swept, Partly, Counted;
      held := 0;
      var todo := tickets.Keys;
      ghost var start := tickets;
      SweepEnds(start, now, subject);
      while todo != {}
        invariant todo <= start.Keys
        invariant tickets == Partly(start, todo, now)
        invariant held == |Counted(start, todo, now, subject)|
        decreases |todo|
      {
        var k :| k in todo;
        SweepStep(start, todo, k, now);
        CountStep(start, todo, k, now, subject);
        var t := tickets[k];
        if now >= t.expires {
          tickets := tickets - {k};
        } else if t.identity.subject == subject {
          held := held + 1;
        }
        todo := todo - {k};
      }
    }

    /** Issues raw, unless the store or the caller's share of it is full. */
    method Mint(id: Identity, raw: string, now: int) returns (ok: bool)
      requires Valid() && last <= now && raw != ""
      modifies this
      ensures Valid() && last == now
      ensures ok == Room(old(log), now, id.subject)
      ensures log == if ok then old(log) + [Minted(raw, id, now)] else old(log)
    {
      hide Agrees, Quotas, Honest, Injective;
      ghost var was := tickets;
      var held := Sweep(now, id.subject);
      SweepAgrees(digest, was, log, last, now);
      SweepKeepsQuotas(was, now);
      CountsAgree(digest, tickets, log, now, id.subject);
      last := now;
      ok := |tickets| < MAX_TICKETS && held < MAX_PER_SUBJECT;
      if ok {
        var t := Ticket(digest(raw), id, now + TTL);
        InsertAgrees(digest, tickets, log, now, raw, t);
        InsertKeepsQuotas(tickets, digest(raw), t);
        HonestSnoc(log, Minted(raw, id, now));
        tickets := tickets[digest(raw) := t];
        log := log + [Minted(raw, id, now)];
      }
    }

    /** Spends the ticket r presents, if r is a request one may open at all. */
    method Redeem(r: Request, now: int) returns (out: Option<Identity>)
      requires Valid() && last <= now
      modifies this
      ensures Valid() && old(last) <= last <= now
      ensures !MayRedeem(r) ==> out.None? && log == old(log) && tickets == old(tickets)
      ensures MayRedeem(r) ==> out == Answer(old(log), r.ticket, now) && log == old(log) + [Presented(r, now, out)]
      ensures MayRedeem(r) ==> digest(r.ticket) !in tickets
    {
      hide Agrees, Quotas, Honest, Injective;
      if r.ticket == "" {
        return None;
      }
      if r.verb != "GET" || r.path != STREAM_PATH {
        return None;
      }
      var key := digest(r.ticket);
      LookupAgrees(digest, tickets, log, last, r.ticket, now);
      if key !in tickets {
        out := None;
      } else {
        var t := tickets[key];
        tickets := tickets - {key};
        out := if t.digest == key && now < t.expires
               then Some(t.identity.(how := t.identity.how + "+ticket")) else None;
      }
      RemoveAgrees(digest, old(tickets), log, last, r, now, out);
      RemoveKeepsQuotas(old(tickets), key);
      HonestSnoc(log, Presented(r, now, out));
      assert tickets == old(tickets) - {key};
      log := log + [Presented(r, now, out)];
      last := now;
    }
  }

  // ---------------------------------------------------------------------
  // Why the map keeps agreeing with the log
  // ---------------------------------------------------------------------

  lemma SweepAgrees(digest: string -> string, tickets: map<string, Ticket>, log: seq<Entry>, last: int, now: int)
    requires Agrees(digest, tickets, log, last) && last <= now
    ensures Agrees(digest, Swept(tickets, now), log, now)
  {
    forall raw | LiveAt(log, raw, now)
      ensures digest(raw) in Swept(tickets, now)
    {
      assert LiveAt(log, raw, last);
    }
  }

  lemma InsertAgrees(digest: string -> string, tickets: map<string, Ticket>, log: seq<Entry>, now: int, raw: string,
                     t: Ticket)
    requires Injective(digest) && Agrees(digest, tickets, log, now)
    requires t.digest == digest(raw) && t.expires == now + TTL
    ensures Agrees(digest, tickets[digest(raw) := t], log + [Minted(raw, t.identity, now)], now)
  {
    var l := log + [Minted(raw, t.identity, now)];
    assert IsDigest(digest, digest(raw));
    forall other
      ensures Live(l, other) == if other == raw then Some(Grant(t.identity, t.expires)) else Live(log, other) {
      LiveAfter(log, Minted(raw, t.identity, now), other);
    }
    forall other | LiveAt(l, other, now)
      ensures digest(other) in tickets[digest(raw) := t]
    {
      assert other != raw ==> LiveAt(log, other, now);
    }
  }

  lemma LookupAgrees(digest: string -> string, tickets: map<string, Ticket>, log: seq<Entry>, last: int, raw: string,
                     now: int)
    requires Agrees(digest, tickets, log, last) && last <= now
    ensures digest(raw) !in tickets ==> Answer(log, raw, now).None?
    ensures digest(raw) in tickets ==>
              var t := tickets[digest(raw)];
              && t.digest == digest(raw)
              && Answer(log, raw, now) == (if now < t.expires then Some(Redeemed(t.identity)) else None)
  {
    if Answer(log, raw, now).Some? {
      assert LiveAt(log, raw, last);
    }
  }

  lemma RemoveAgrees(digest: string -> string, tickets: map<string, Ticket>, log: seq<Entry>, last: int,
                     r: Request, now: int, out: Option<Identity>)
    requires Injective(digest) && Agrees(digest, tickets, log, last) && last <= now
    ensures Agrees(digest, tickets - {digest(r.ticket)}, log + [Presented(r, now, out)], now)
  {
    var l := log + [Presented(r, now, out)];
    forall other ensures Live(l, other) == if other == r.ticket then None else Live(log, other) {
      LiveAfter(log, Presented(r, now, out), other);
    }
    forall other | LiveAt(l, other, now)
      ensures digest(other) in tickets - {digest(r.ticket)}
    {
      assert LiveAt(log, other, last);
    }
  }

  lemma SubsetSize<T>(a: set<T>, b: set<T>)
    requires a <= b
    ensures |a| <= |b|
  {
    assert b == a + (b - a);
  }

  lemma SweepKeepsQuotas(tickets: map<string, Ticket>, now: int)
    requires Quotas(tickets)
    ensures Quotas(Swept(tickets, now))
  {
    SubsetSize(Swept(tickets, now).Keys, tickets.Keys);
    forall subject ensures |HeldBy(Swept(tickets, now), subject)| <= MAX_PER_SUBJECT {
      SubsetSize(HeldBy(Swept(tickets, now), subject), HeldBy(tickets, subject));
    }
  }

  lemma RemoveKeepsQuotas(tickets: map<string, Ticket>, k: string)
    requires Quotas(tickets)
    ensures Quotas(tickets - {k})
  {
    SubsetSize((tickets - {k}).Keys, tickets.Keys);
    forall subject ensures |HeldBy(tickets - {k}, subject)| <= MAX_PER_SUBJECT {
      SubsetSize(HeldBy(tickets - {k}, subject), HeldBy(tickets, subject));
    }
  }

  lemma InsertKeepsQuotas(tickets: map<string, Ticket>, k: string, t: Ticket)
    requires Quotas(tickets) && |tickets| < MAX_TICKETS && |HeldBy(tickets, t.identity.subject)| < MAX_PER_SUBJECT
    ensures Quotas(tickets[k := t])
  {
    assert tickets[k := t].Keys == tickets.Keys + {k};
    var more := tickets[k := t];
    forall subject ensures |HeldBy(more, subject)| <= MAX_PER_SUBJECT {
      if subject == t.identity.subject {
        SubsetSize(HeldBy(more, subject), HeldBy(tickets, subject) + {k});
      } else {
        SubsetSize(HeldBy(more, subject), HeldBy(tickets, subject));
      }
    }
  }

  lemma {:induction false} ImageSize(digest: string -> string, raws: set<string>, keys: set<string>)
    requires Injective(digest)
    requires forall raw :: raw in raws ==> digest(raw) in keys
    requires forall k :: k in keys ==> exists raw :: raw in raws && digest(raw) == k
    ensures |raws| == |keys|
    decreases |raws|
  {
    if raws == {} {
      assert keys == {};
    } else {
      var raw :| raw in raws;
      var rest := keys - {digest(raw)};
      forall k | k in rest
        ensures exists r :: r in raws - {raw} && digest(r) == k
      {
        var r :| r in raws && digest(r) == k;
        assert r in raws - {raw};
      }
      ImageSize(digest, raws - {raw}, rest);
    }
  }

  /** After a sweep the two counts the quotas look at are counts of live tickets. */
  lemma CountsAgree(digest: string -> string, tickets: map<string, Ticket>, log: seq<Entry>, now: int, subject: string)
    requires Injective(digest) && Agrees(digest, tickets, log, now)
    requires forall k :: k in tickets ==> now < tickets[k].expires
    ensures |tickets| == |LiveRaws(log, now)|
    ensures |HeldBy(tickets, subject)| == |LiveRawsOf(log, now, subject)|
  {
    forall k | k in tickets
      ensures exists raw :: raw in LiveRaws(log, now) && digest(raw) == k
    {
      var raw := KeyIsLive(digest, tickets, log, now, k);
    }
    ImageSize(digest, LiveRaws(log, now), tickets.Keys);
    assert |tickets| == |tickets.Keys|;
    var held := HeldBy(tickets, subject);
    forall k | k in held
      ensures exists raw :: raw in LiveRawsOf(log, now, subject) && digest(raw) == k
    {
      var raw := KeyIsLive(digest, tickets, log, now, k);
      assert raw in LiveRawsOf(log, now, subject);
    }
    ImageSize(digest, LiveRawsOf(log, now, subject), held);
  }

  lemma KeyIsLive(digest: string -> string, tickets: map<string, Ticket>, log: seq<Entry>, now: int, k: string)
    returns (raw: string)
    requires Agrees(digest, tickets, log, now) && k in tickets && now < tickets[k].expires
    ensures raw in LiveRaws(log, now) && digest(raw) == k
    ensures Live(log, raw) == Some(Grant(tickets[k].identity, tickets[k].expires))
  {
    assert IsDigest(digest, k);
    raw :| digest(raw) == k;
    var _ := LiveMeans(log, raw);
  }

  // ---------------------------------------------------------------------
  // The authentication step, and whole runs
  // ---------------------------------------------------------------------

  /** What the deployment's own authenticator says of a request. */
  datatype Verdict = Accepted(id: Identity) | NoCredential | Fault

  datatype Outcome = Admitted(id: Identity) | Unauthenticated | Faulted

  /** The authenticator first; a ticket only when nothing identified the caller.
      A request it accepts, or faults on, never touches the store. */
  method Authenticate(primary: Verdict, store: Store?, r: Request, now: int) returns (o: Outcome)
    requires store != null ==> store.Valid() && store.last <= now
    modifies if store == null then {} else {store}
    ensures store != null ==> store.Valid() && store.last <= now
    ensures primary.Accepted? ==> o == Admitted(primary.id)
    ensures primary.Fault? ==> o == Faulted
    ensures store != null && (!primary.NoCredential? || !MayRedeem(r)) ==>
              store.log == old(store.log) && store.tickets == old(store.tickets)
    ensures primary.NoCredential? && (store == null || !MayRedeem(r)) ==> o == Unauthenticated
    ensures primary.NoCredential? && store != null && MayRedeem(r) ==>
              var a := Answer(old(store.log), r.ticket, now);
              && o == (if a.Some? then Admitted(a.value) else Unauthenticated)
              && store.log == old(store.log) + [Presented(r, now, a)]
  {
    hide Answer, MayRedeem, Agrees, Quotas, Honest, Injective;
    if primary.Accepted? {
      return Admitted(primary.id);
    }
    if primary.Fault? {
      return Faulted;
    }
    if store != null {
      var out := store.Redeem(r, now);
      if out.Some? {
        return Admitted(out.value);
      }
    }
    return Unauthenticated;
  }

  datatype Call =
    | MintCall(id: Identity, entropy: Option<string>, at: int)
    | AuthCall(primary: Verdict, req: Request, at: int)

  datatype Reply = Issued(raw: string) | Refused | NoEntropy | Answered(o: Outcome)

  predicate Grants(log: seq<Entry>, c: Call) {
    c.MintCall? && c.entropy.Some? && Room(log, c.at, c.id.subject)
  }

  predicate Consults(c: Call) {
    c.AuthCall? && c.primary.NoCredential? && MayRedeem(c.req)
  }

  /** What the log alone says the reply is. */
  function LogReply(log: seq<Entry>, c: Call): Reply {
    match c
    case MintCall(id, None, _) => NoEntropy
    case MintCall(id, Some(raw), _) => if Grants(log, c) then Issued(raw) else Refused
    case AuthCall(Accepted(id), _, _) => Answered(Admitted(id))
    case AuthCall(Fault, _, _) => Answered(Faulted)
    case AuthCall(NoCredential, r, at) =>
      if Consults(c) && Answer(log, r.ticket, at).Some? then Answered(Admitted(Answer(log, r.ticket, at).value))
      else Answered(Unauthenticated)
  }

  function LogAfter(log: seq<Entry>, c: Call): seq<Entry> {
    if Grants(log, c) then log + [Minted(c.entropy.value, c.id, c.at)]
    else if Consults(c) then log + [Presented(c.req, c.at, Answer(log, c.req.ticket, c.at))]
    else log
  }

  function RunLog(log: seq<Entry>, calls: seq<Call>): seq<Entry> {
    if calls == [] then log else LogAfter(RunLog(log, calls[..|calls| - 1]), calls[|calls| - 1])
  }

  ghost predicate ClockRuns(start: int, calls: seq<Call>) {
    && (forall i :: 0 <= i < |calls| ==> start <= calls[i].at)
    && (forall i, j :: 0 <= i < j < |calls| ==> calls[i].at <= calls[j].at)
  }

  ghost predicate Drawn(calls: seq<Call>) {
    && (forall i :: 0 <= i < |calls| && calls[i].MintCall? && calls[i].entropy.Some? ==> calls[i].entropy.value != "")
    && (forall i, j :: 0 <= i < j < |calls| && calls[i].MintCall? && calls[j].MintCall? && calls[i].entropy.Some? ==>
          calls[i].entropy != calls[j].entropy)
  }

  method Serve(store: Store, c: Call) returns (reply: Reply)
    requires store.Valid() && store.last <= c.at
    requires c.MintCall? && c.entropy.Some? ==> c.entropy.value != ""
    modifies store
    ensures store.Valid() && store.last <= c.at
    ensures reply == LogReply(old(store.log), c)
    ensures store.log == LogAfter(old(store.log), c)
  {
    hide Agrees, Quotas, Honest, Injective, Room, Answer;
    match c
    case MintCall(id, entropy, at) =>
      if entropy.None? {
        reply := NoEntropy;
      } else {
        var ok := store.Mint(id, entropy.value, at);
        reply := if ok then Issued(entropy.value) else Refused;
      }
    case AuthCall(primary, req, at) =>
      var o := Authenticate(primary, store, req, at);
      reply := Answered(o);
  }

  /** For every run the swept, quota-bound map replies exactly as the plain log,
      call by call. */
  method Run(store: Store, calls: seq<Call>) returns (replies: seq<Reply>)
    requires store.Valid() && ClockRuns(store.last, calls) && Drawn(calls)
    modifies store
    ensures store.Valid()
    ensures store.log == RunLog(old(store.log), calls)
    ensures |replies| == |calls|
    ensures forall i :: 0 <= i < |calls| ==> replies[i] == LogReply(RunLog(old(store.log), calls[..i]), calls[i])
  {
    hide LogReply, LogAfter, Agrees, Quotas, Honest, Injective, RunLog;
    replies := [];
    assert calls[..0] == [];
    RunLogStarts(store.log);
    for i := 0 to |calls|
      invariant store.Valid() && |replies| == i
      invariant forall j :: i <= j < |calls| ==> store.last <= calls[j].at
      invariant store.log == RunLog(old(store.log), calls[..i])
      invariant forall j :: 0 <= j < i ==> replies[j] == LogReply(RunLog(old(store.log), calls[..j]), calls[j])
    {
      RunLogStep(store.log, old(store.log), calls, i);
      var reply := Serve(store, calls[i]);
      replies := replies + [reply];
    }
    assert calls[..|calls|] == calls;
  }

  lemma RunLogStarts(log: seq<Entry>)
    ensures RunLog(log, []) == log
  {
  }

  lemma RunLogStep(now: seq<Entry>, log: seq<Entry>, calls: seq<Call>, i: nat)
    requires i < |calls| && now == RunLog(log, calls[..i])
    ensures RunLog(log, calls[..i + 1]) == LogAfter(now, calls[i])
  {
    hide LogAfter;
    assert calls[..i + 1][..i] == calls[..i];
  }

  /** Whatever a run minted was drawn by one of its calls. */
  lemma {:induction false} MintsAreDraws(calls: seq<Call>, e: Entry)
    requires e in RunLog([], calls) && e.Minted?
    ensures exists i :: 0 <= i < |calls| && calls[i].MintCall? && calls[i].entropy == Some(e.raw)
  {
    var k := |calls| - 1;
    if e in RunLog([], calls[..k]) {
      MintsAreDraws(calls[..k], e);
      var i :| 0 <= i < k && calls[..k][i].MintCall? && calls[..k][i].entropy == Some(e.raw);
      assert calls[i] == calls[..k][i];
    }
  }

  /** Every run from an empty store leaves a log that is honest and, the draws
      being distinct, fresh: so SingleUse and SpentOnSight hold of every run. */
  lemma {:induction false} RunsAreHonestAndFresh(calls: seq<Call>)
    requires Drawn(calls)
    ensures Honest(RunLog([], calls)) && Fresh(RunLog([], calls))
  {
    if calls != [] {
      var k := |calls| - 1;
      var log, c := RunLog([], calls[..k]), calls[k];
      RunsAreHonestAndFresh(calls[..k]);
      if Grants(log, c) {
        HonestSnoc(log, Minted(c.entropy.value, c.id, c.at));
        forall i | 0 <= i < |log| && log[i].Minted?
          ensures log[i].raw != c.entropy.value
        {
          MintsAreDraws(calls[..k], log[i]);
          var j :| 0 <= j < k && calls[..k][j].MintCall? && calls[..k][j].entropy == Some(log[i].raw);
          assert calls[j] == calls[..k][j];
        }
      } else if Consults(c) {
        HonestSnoc(log, Presented(c.req, c.at, Answer(log, c.req.ticket, c.at)));
      }
    }
  }

  // ---------------------------------------------------------------------
  // The numbers
  // ---------------------------------------------------------------------

  /** A ticket minted at t by itself is good until thirty seconds later, and not at
      that instant. */
  lemma ThirtySeconds(raw: string, id: Identity, t: int, now: int)
    ensures Answer([Minted(raw, id, t)], raw, now) ==
            if now < t + 30 * 1_000_000_000 then Some(id.(how := id.how + "+ticket")) else None
  {
  }

  /** The store never holds more than 4096 tickets, nor 64 of one subject's. */
  lemma QuotaNumbers(tickets: map<string, Ticket>, subject: string)
    requires Quotas(tickets)
    ensures |tickets| <= 4096 && |HeldBy(tickets, subject)| <= 64
  {
  }

  /** The one route a ticket opens. */
  lemma StreamRoute(r: Request)
    ensures MayRedeem(r) <==> r.ticket != "" && r.verb == "GET" && r.path == "/api/v1/stream"
  {
  }
}
