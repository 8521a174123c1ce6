/** The blob garbage collector, sweeping while uploads commit bytes and write
    the rows that name them.

    The farm moves between any two statements of a sweep: `Elapse` plays the
    next stretch of a schedule of other people's steps, and a theorem about
    every schedule is a theorem about every interleaving. Environment
    assumptions: uploads commit bytes and insert rows as separate steps;
    committing a digest already on disk leaves the file and its modification
    time alone; nothing but a sweep unlinks a blob; one sweep runs at a time. */
module BlobSweep {

  type Digest = string

  datatype Blob = Blob(size: nat, mtime: int)

  /** What one instant looks like: server clock, disk, and the digests that
      farm.artifacts or farm.device_artifacts name. */
  datatype Moment = Moment(clock: int, disk: map<Digest, Blob>, named: set<Digest>)

  datatype EnvStep =
    | Tick(elapsed: nat)
    | Commit(sha: Digest, size: nat, age: nat) // staged bytes, last written `age` ago
    | InsertRow(sha: Digest)
    | DeleteRow(sha: Digest)

  function Apply(m: Moment, step: EnvStep): Moment {
    match step
    case Tick(d) => m.(clock := m.clock + d)
    case Commit(sha, size, age) =>
      if sha in m.disk then m else m.(disk := m.disk[sha := Blob(size, m.clock - age)])
    case InsertRow(sha) => m.(named := m.named + {sha})
    case DeleteRow(sha) => m.(named := m.named - {sha})
  }

  // ---------------------------------------------------------------------
  // Histories
  // ---------------------------------------------------------------------

  ghost predicate Flows(past: seq<Moment>) {
    && (forall i, j :: 0 <= i <= j < |past| ==> past[i].clock <= past[j].clock)
    && (forall i, sha :: 0 <= i < |past| - 1 && sha in past[i].disk && sha in past[i + 1].disk
          ==> past[i + 1].disk[sha] == past[i].disk[sha])
  }

  ghost predicate RemovedAt(past: seq<Moment>, r: nat, sha: Digest) {
    0 < r < |past| && sha in past[r - 1].disk && sha !in past[r].disk
  }

  /** The second look: the very file removed at r stood on disk, past its grace
      and unnamed, at instant k. */
  ghost predicate UnnamedAt(past: seq<Moment>, grace: int, k: nat, r: nat, sha: Digest)
    requires RemovedAt(past, r, sha)
  {
    && k < r && sha in past[k].disk && past[k].disk[sha] == past[r - 1].disk[sha]
    && sha !in past[k].named && past[r - 1].disk[sha].mtime + grace <= past[k].clock
  }

  ghost predicate RemovalsJustified(past: seq<Moment>, grace: int) {
    forall r: nat, sha :: RemovedAt(past, r, sha) ==> exists k: nat :: UnnamedAt(past, grace, k, r, sha)
  }

  lemma ClockOrder(past: seq<Moment>, i: nat, k: nat)
    requires Flows(past) && i < |past| && k < |past| && past[i].clock < past[k].clock
    ensures i < k
  {
  }

  lemma DiskStep(past: seq<Moment>, i: nat, sha: Digest)
    requires Flows(past) && i + 1 < |past| && sha in past[i].disk && sha in past[i + 1].disk
    ensures past[i + 1].disk[sha] == past[i].disk[sha]
  {
  }

  /** A file whose row was there before its grace ran out is not removed later. */
  lemma NotRemoved(past: seq<Moment>, grace: int, sha: Digest, i: nat, j: nat)
    requires Flows(past) && RemovalsJustified(past, grace) && i < |past|
    requires 0 < j < |past| && sha in past[j - 1].disk
    requires past[i].clock < past[j - 1].disk[sha].mtime + grace
    requires forall k :: i <= k < |past| ==> sha in past[k].named
    ensures sha in past[j].disk
  {
    hide Flows;
    if RemovedAt(past, j, sha) {
      var k: nat :| UnnamedAt(past, grace, k, j, sha);
      ClockOrder(past, i, k);
    }
  }

  /** A blob on disk whose row arrives within the grace period of the file's own
      timestamp, and stays, is never removed: not at any later instant of any
      interleaving of sweeps and uploads. */
  lemma {:induction false} FreshUploadSurvives(past: seq<Moment>, grace: int, sha: Digest, c: nat, i: nat, j: nat)
    requires Flows(past) && RemovalsJustified(past, grace)
    requires c <= j < |past| && c <= i < |past|
    requires sha in past[c].disk
    requires past[i].clock < past[c].disk[sha].mtime + grace
    requires forall k :: i <= k < |past| ==> sha in past[k].named
    ensures sha in past[j].disk && past[j].disk[sha] == past[c].disk[sha]
    decreases j
  {
    hide Flows, RemovalsJustified;
    if j > c {
      FreshUploadSurvives(past, grace, sha, c, i, j - 1);
      NotRemoved(past, grace, sha, i, j);
      DiskStep(past, j - 1, sha);
    }
  }

  lemma FlowsSnoc(past: seq<Moment>, m: Moment)
    requires past != [] && Flows(past)
    requires past[|past| - 1].clock <= m.clock
    requires forall sha :: sha in past[|past| - 1].disk && sha in m.disk ==> m.disk[sha] == past[|past| - 1].disk[sha]
    ensures Flows(past + [m])
  {
  }

  lemma JustifiedSnoc(past: seq<Moment>, grace: int, m: Moment)
    requires past != [] && RemovalsJustified(past, grace)
    requires forall sha :: sha in past[|past| - 1].disk && sha !in m.disk ==>
               RemovedAt(past + [m], |past|, sha) && exists k: nat :: UnnamedAt(past + [m], grace, k, |past|, sha)
    ensures RemovalsJustified(past + [m], grace)
  {
    var after := past + [m];
    forall r: nat, sha | RemovedAt(after, r, sha)
      ensures exists k: nat :: UnnamedAt(after, grace, k, r, sha)
    {
      if r < |past| {
        assert RemovedAt(past, r, sha);
        var k: nat :| UnnamedAt(past, grace, k, r, sha);
        assert UnnamedAt(after, grace, k, r, sha);
      }
    }
  }

  // ---------------------------------------------------------------------
  // The farm
  // ---------------------------------------------------------------------

  class Farm {
    const grace: int
    var now: Moment
    var schedule: seq<seq<EnvStep>>
    ghost var past: seq<Moment>
    /** Reference queries and unlinks that have failed so far. */
    ghost var queryFaults: nat
    ghost var unlinkFaults: nat
    /** Every digest ever unlinked, in order. */
    ghost var unlinked: seq<Digest>

    ghost predicate Valid()
      reads this
    {
      past != [] && past[|past| - 1] == now && Flows(past) && RemovalsJustified(past, grace)
    }

    ghost function Here(): Mark
      reads this
    {
      Mark(past, now, queryFaults, unlinkFaults, unlinked)
    }

    constructor (grace: int, start: Moment, schedule: seq<seq<EnvStep>>)
      ensures Valid() && this.grace == grace && now == start && past == [start]
    {
      this.grace, this.schedule := grace, schedule;
      now, past := start, [start];
      queryFaults, unlinkFaults, unlinked := 0, 0, [];
    }

    /** Everybody else's next stretch of steps. */
    method Elapse()
      requires Valid()
      modifies this`now, this`past, this`schedule
      ensures Valid() && old(past) <= past && Grown(old(now), now)
      ensures GrewFrom(past, |old(past)| - 1, old(now))
    {
      hide Flows, RemovalsJustified;
      if schedule != [] {
        var steps := schedule[0];
        schedule := schedule[1..];
        for i := 0 to |steps|
          invariant Valid() && old(past) <= past && Grown(old(now), now)
          invariant GrewFrom(past, |old(past)| - 1, old(now))
        {
          var m := Apply(now, steps[i]);
          FlowsSnoc(past, m);
          JustifiedSnoc(past, grace, m);
          now, past := m, past + [m];
        }
      }
    }

    /** One reference query: the digests named at one instant, or an error. */
    method Query(shas: seq<Digest>) returns (ok: bool, found: set<Digest>)
      requires Valid()
      modifies this`queryFaults
      ensures Valid()
      ensures ok ==> found == (set s | s in shas && s in now.named)
      ensures queryFaults == old(queryFaults) + if ok then 0 else 1
    {
      hide Flows, RemovalsJustified;
      found := {};
      ok := true;
      if * {
        ok, queryFaults := false, queryFaults + 1;
      } else {
        found := set s | s in shas && s in now.named;
      }
    }

    /** os.Remove of a blob the sweep has just looked at for the second time. */
    method Unlink(sha: Digest, ghost k: nat) returns (ok: bool)
      requires Valid() && sha in now.disk
      requires k < |past| && sha in past[k].disk && past[k].disk[sha] == now.disk[sha]
      requires sha !in past[k].named && now.disk[sha].mtime + grace <= past[k].clock
      modifies this`now, this`past, this`unlinkFaults, this`unlinked
      ensures unlinked == old(unlinked) + if ok then [sha] else []
      ensures unlinkFaults == old(unlinkFaults) + if ok then 0 else 1
      ensures Valid() && old(past) <= past && now.clock == old(now.clock) && now.named == old(now.named)
      ensures now.disk == if ok then old(now.disk) - {sha} else old(now.disk)
      ensures ok ==> |past| == |old(past)| + 1 && RemovedAt(past, |old(past)|, sha)
      ensures ok ==> UnnamedAt(past, grace, k, |old(past)|, sha)
    {
      hide Flows, RemovalsJustified;
      if * {
        unlinkFaults := unlinkFaults + 1;
        return false;
      }
      var m := now.(disk := now.disk - {sha});
      FlowsSnoc(past, m);
      assert UnnamedAt(past + [m], grace, k, |past|, sha);
      JustifiedSnoc(past, grace, m);
      now, past, unlinked := m, past + [m], unlinked + [sha];
      return true;
    }
  }

  /** The disk as the sweep may rely on it between its own steps: nothing it saw
      goes away or changes, and the clock never runs backwards. */
  ghost predicate Grown(before: Moment, after: Moment) {
    && before.clock <= after.clock
    && forall sha :: sha in before.disk ==> sha in after.disk && after.disk[sha] == before.disk[sha]
  }

  /** At every instant from index `from` on, what moment m held is still there. */
  ghost predicate GrewFrom(past: seq<Moment>, from: nat, m: Moment) {
    forall k :: from <= k < |past| ==> Grown(m, past[k])
  }

  lemma GrewOn(past: seq<Moment>, after: seq<Moment>, from: nat, mid: nat, m: Moment, n: Moment)
    requires GrewFrom(past, from, m) && past <= after && Grown(m, n) && GrewFrom(after, mid, n) && mid <= |past|
    ensures GrewFrom(after, from, m)
  {
    forall k | from <= k < |after|
      ensures Grown(m, after[k])
    {
      if k < |past| {
        assert after[k] == past[k];
      }
    }
  }

  /** Nothing left the disk but what is in `removed`. */
  ghost predicate LostOnly(before: Moment, after: Moment, removed: seq<Digest>) {
    forall sha :: sha in before.disk && sha !in removed ==> sha in after.disk && after.disk[sha] == before.disk[sha]
  }

  lemma LostOnlyTrans(a: Moment, b: Moment, c: Moment, first: seq<Digest>, both: seq<Digest>)
    requires LostOnly(a, b, first) && LostOnly(b, c, both) && first <= both
    ensures LostOnly(a, c, both)
  {
  }

  // ---------------------------------------------------------------------
  // Enumeration
  // ---------------------------------------------------------------------

  datatype DirEntry = DirEntry(name: string, isDir: bool, statOk: bool, regular: bool)

  datatype TopEntry = TopEntry(name: string, isDir: bool, readable: bool, entries: seq<DirEntry>)

  datatype BlobFile = BlobFile(sha: Digest, blob: Blob)

  predicate LowerHex(s: string) {
    forall i :: 0 <= i < |s| ==> '0' <= s[i] <= '9' || 'a' <= s[i] <= 'f'
  }

  predicate IsFanoutDir(name: string) {
    |name| == 2 && LowerHex(name)
  }

  predicate ValidSHA256(name: string) {
    |name| == 64 && LowerHex(name)
  }

  predicate IsBlobName(top: string, e: DirEntry) {
    !e.isDir && ValidSHA256(e.name) && e.name[..2] == top
  }

  /** A directory holds each name once. */
  ghost predicate DistinctNames(tops: seq<TopEntry>) {
    && (forall i, j :: 0 <= i < j < |tops| ==> tops[i].name != tops[j].name)
    && forall i :: 0 <= i < |tops| ==> DistinctEntries(tops[i].entries)
  }

  ghost predicate DistinctEntries(entries: seq<DirEntry>) {
    forall i, j :: 0 <= i < j < |entries| ==> entries[i].name != entries[j].name
  }

  /** What a sweep holds on to: each digest once, each as it still is on disk. */
  ghost predicate Tracked(files: seq<BlobFile>, now: Moment) {
    && (forall i, j :: 0 <= i < j < |files| ==> files[i].sha != files[j].sha)
    && forall i :: 0 <= i < |files| ==> OnDisk(files[i], now)
  }

  ghost predicate OnDisk(f: BlobFile, now: Moment) {
    f.sha in now.disk && now.disk[f.sha] == f.blob
  }

  /** Entries the walk accounts for: all of a fan-out directory it could read,
      and anything else at the root as one. */
  function Walked(tops: seq<TopEntry>): nat {
    if tops == [] then 0
    else
      var t := tops[|tops| - 1];
      Walked(tops[..|tops| - 1]) + if t.isDir && IsFanoutDir(t.name) && t.readable then |t.entries| else 1
  }

  /** An entry that is a blob, in a fan-out directory the walk can read. */
  predicate Qualifies(top: TopEntry, e: DirEntry) {
    top.isDir && IsFanoutDir(top.name) && top.readable && IsBlobName(top.name, e) && e.statOk && e.regular
  }

  ghost predicate ListedUpTo(top: TopEntry, i: nat, sha: Digest)
    requires i <= |top.entries|
  {
    exists j :: 0 <= j < i && top.entries[j].name == sha && Qualifies(top, top.entries[j])
  }

  lemma ListedOneMore(top: TopEntry, i: nat)
    requires i < |top.entries|
    ensures forall sha :: ListedUpTo(top, i, sha) ==> ListedUpTo(top, i + 1, sha)
    ensures Qualifies(top, top.entries[i]) ==> ListedUpTo(top, i + 1, top.entries[i].name)
    ensures DistinctEntries(top.entries) ==> !ListedUpTo(top, i, top.entries[i].name)
  {
  }

  ghost predicate ListedIn(top: TopEntry, sha: Digest) {
    ListedUpTo(top, |top.entries|, sha)
  }

  ghost predicate IsListed(tops: seq<TopEntry>, sha: Digest) {
    exists i :: 0 <= i < |tops| && ListedIn(tops[i], sha)
  }

  ghost predicate Found(files: seq<BlobFile>, sha: Digest) {
    exists k :: 0 <= k < |files| && files[k].sha == sha
  }

  lemma FoundGrows(files: seq<BlobFile>, more: seq<BlobFile>, sha: Digest)
    requires Found(files, sha) && files <= more
    ensures Found(more, sha)
  {
    var k :| 0 <= k < |files| && files[k].sha == sha;
    assert more[k] == files[k];
  }

  lemma ListedName(top: TopEntry, sha: Digest)
    requires ListedIn(top, sha)
    ensures ValidSHA256(sha) && sha[..2] == top.name
  {
  }

  lemma NothingUpToZero(top: TopEntry)
    ensures forall sha :: !ListedUpTo(top, 0, sha)
    ensures forall sha :: ListedIn(top, sha) ==>
              exists j :: 0 <= j < |top.entries| && top.entries[j].name == sha && Qualifies(top, top.entries[j])
  {
  }

  method EnumerateDir(farm: Farm, top: TopEntry, files0: seq<BlobFile>)
    returns (files: seq<BlobFile>, unrecognised: nat, problems: seq<Problem>)
    requires farm.Valid() && Tracked(files0, farm.now) && DistinctEntries(top.entries)
    requires forall i :: 0 <= i < |files0| ==> |files0[i].sha| >= 2 && files0[i].sha[..2] != top.name
    requires top.isDir && IsFanoutDir(top.name) && top.readable
    modifies farm`now, farm`past, farm`schedule
    ensures farm.Valid() && old(farm.past) <= farm.past && Grown(old(farm.now), farm.now)
    ensures files0 <= files && Tracked(files, farm.now)
    ensures forall i :: |files0| <= i < |files| ==> ListedIn(top, files[i].sha)
    ensures forall sha :: ListedIn(top, sha) && sha in old(farm.now.disk) ==> Found(files, sha)
    ensures |files| - |files0| + unrecognised + |problems| == |top.entries|
    ensures forall p :: p in problems ==> p.StatFailed?
  {
    hide Found, ListedUpTo, Flows, RemovalsJustified, LowerHex;
    NothingUpToZero(top);
    files, unrecognised, problems := files0, 0, [];
    for i := 0 to |top.entries|
      invariant farm.Valid() && old(farm.past) <= farm.past && Grown(old(farm.now), farm.now)
      invariant files0 <= files && Tracked(files, farm.now)
      invariant forall k :: |files0| <= k < |files| ==> |files[k].sha| >= 2 && files[k].sha[..2] == top.name
      invariant forall k :: |files0| <= k < |files| ==> ListedUpTo(top, i, files[k].sha)
      invariant forall j ::
                  0 <= j < i && Qualifies(top, top.entries[j]) && top.entries[j].name in old(farm.now.disk) ==>
                  Found(files, top.entries[j].name)
      invariant |files| - |files0| + unrecognised + |problems| == i
      invariant forall p :: p in problems ==> p.StatFailed?
    {
      farm.Elapse();
      ListedOneMore(top, i);
      var e := top.entries[i];
      if !IsBlobName(top.name, e) {
        unrecognised := unrecognised + 1;
      } else if !e.statOk || e.name !in farm.now.disk {
        problems := problems + [StatFailed(e.name)];
      } else if !e.regular {
        unrecognised := unrecognised + 1;
      } else {
        ghost var before := files;
        files := files + [BlobFile(e.name, farm.now.disk[e.name])];
        FoundAll(before, files, top, i, old(farm.now.disk));
      }
    }
  }

  lemma FoundAll(before: seq<BlobFile>, files: seq<BlobFile>, top: TopEntry, i: nat, disk: map<Digest, Blob>)
    requires i < |top.entries| && before <= files && |files| == |before| + 1
             && files[|before|].sha == top.entries[i].name
    requires forall j :: 0 <= j < i && Qualifies(top, top.entries[j]) && top.entries[j].name in disk ==>
               Found(before, top.entries[j].name)
    ensures forall j :: 0 <= j <= i && Qualifies(top, top.entries[j]) && top.entries[j].name in disk ==>
              Found(files, top.entries[j].name)
  {
    forall j | 0 <= j <= i && Qualifies(top, top.entries[j]) && top.entries[j].name in disk
      ensures Found(files, top.entries[j].name)
    {
      if j < i {
        FoundGrows(before, files, top.entries[j].name);
      }
    }
  }

  lemma NothingListed(top: TopEntry)
    requires !top.isDir || !IsFanoutDir(top.name) || !top.readable
    ensures forall sha :: !ListedIn(top, sha)
  {
  }

  /** What a directory adds is filed under its name, and takes nothing away. */
  lemma ListedFiles(top: TopEntry, before: seq<BlobFile>, files: seq<BlobFile>)
    requires before <= files && forall i :: |before| <= i < |files| ==> ListedIn(top, files[i].sha)
    ensures forall i :: |before| <= i < |files| ==> |files[i].sha| >= 2 && files[i].sha[..2] == top.name
    ensures forall sha :: Found(before, sha) ==> Found(files, sha)
  {
    hide ListedIn, Found;
    forall i | |before| <= i < |files|
      ensures |files[i].sha| >= 2 && files[i].sha[..2] == top.name
    {
      ListedName(top, files[i].sha);
    }
    forall sha | Found(before, sha)
      ensures Found(files, sha)
    {
      FoundGrows(before, files, sha);
    }
  }

  method Enumerate(farm: Farm, tops: seq<TopEntry>)
    returns (files: seq<BlobFile>, unrecognised: nat, problems: seq<Problem>)
    requires farm.Valid() && DistinctNames(tops)
    modifies farm`now, farm`past, farm`schedule
    ensures farm.Valid() && old(farm.past) <= farm.past && Grown(old(farm.now), farm.now)
    ensures Tracked(files, farm.now)
    ensures forall k :: 0 <= k < |files| ==> IsListed(tops, files[k].sha)
    ensures forall sha :: IsListed(tops, sha) && sha in old(farm.now.disk) ==> Found(files, sha)
    ensures |files| + unrecognised + |problems| == Walked(tops)
    ensures forall p :: p in problems ==> p.StatFailed? || p.UnreadableDir?
  {
    hide Found, ListedIn, Flows, RemovalsJustified, LowerHex;
    files, unrecognised, problems := [], 0, [];
    for i := 0 to |tops|
      invariant farm.Valid() && old(farm.past) <= farm.past && Grown(old(farm.now), farm.now)
      invariant Tracked(files, farm.now)
      invariant forall k :: 0 <= k < |files| ==> |files[k].sha| >= 2
      invariant forall k :: 0 <= k < |files| ==> exists j :: 0 <= j < i && ListedIn(tops[j], files[k].sha)
      invariant forall j, sha :: 0 <= j < i && ListedIn(tops[j], sha) && sha in old(farm.now.disk) ==> Found(files, sha)
      invariant forall k, j :: 0 <= k < |files| && i <= j < |tops| ==> files[k].sha[..2] != tops[j].name
      invariant |files| + unrecognised + |problems| == Walked(tops[..i])
      invariant forall p :: p in problems ==> p.StatFailed? || p.UnreadableDir?
    {
      farm.Elapse();
      var t := tops[i];
      assert tops[..i + 1][..i] == tops[..i];
      if !t.isDir || !IsFanoutDir(t.name) {
        NothingListed(t);
        unrecognised := unrecognised + 1;
      } else if !t.readable {
        NothingListed(t);
        problems := problems + [UnreadableDir(t.name)];
      } else {
        var more, more';
        ghost var before := files;
        files, more, more' := EnumerateDir(farm, t, files);
        ListedFiles(t, before, files);
        unrecognised, problems := unrecognised + more, problems + more';
      }
    }
    assert tops[..|tops|] == tops;
  }

  // ---------------------------------------------------------------------
  // Reference scan
  // ---------------------------------------------------------------------

  const BATCH := 1000

  /** found says of each digest whether it was named, at some instant of the
      scan, from history index `since` on. */
  ghost predicate Answered(found: set<Digest>, shas: seq<Digest>, past: seq<Moment>, since: nat) {
    forall i :: 0 <= i < |shas| ==> Seen(shas[i] in found, shas[i], past, since)
  }

  ghost predicate Seen(named: bool, sha: Digest, past: seq<Moment>, since: nat) {
    exists k: nat :: SeenAs(named, sha, past, since, k)
  }

  ghost predicate SeenAs(named: bool, sha: Digest, past: seq<Moment>, since: nat, k: nat) {
    since <= k < |past| && (sha in past[k].named <==> named)
  }

  method NamedDigests(farm: Farm, shas: seq<Digest>) returns (ok: bool, found: set<Digest>)
    requires farm.Valid()
    requires forall i, j :: 0 <= i < j < |shas| ==> shas[i] != shas[j]
    modifies farm`now, farm`past, farm`schedule, farm`queryFaults
    ensures farm.Valid() && old(farm.past) <= farm.past && Grown(old(farm.now), farm.now)
    ensures farm.queryFaults == old(farm.queryFaults) + if ok then 0 else 1
    ensures GrewFrom(farm.past, |old(farm.past)| - 1, old(farm.now))
    ensures ok ==> Answered(found, shas, farm.past, |old(farm.past)| - 1)
    ensures ok ==> forall s :: s in found ==> s in shas
  {
    hide Flows, RemovalsJustified, Answered, GrewFrom;
    GrewStarts(farm.past, farm.now);
    found := {};
    AnsweredNothing(farm.past, |farm.past| - 1);
    var start := 0;
    while start < |shas|
      invariant 0 <= start <= |shas|
      invariant farm.Valid() && old(farm.past) <= farm.past && Grown(old(farm.now), farm.now)
      invariant Answered(found, shas[..start], farm.past, |old(farm.past)| - 1)
      invariant GrewFrom(farm.past, |old(farm.past)| - 1, old(farm.now))
      invariant farm.queryFaults == old(farm.queryFaults)
      invariant forall s :: s in found ==> s in shas[..start]
    {
      ghost var before, then_ := farm.past, farm.now;
      farm.Elapse();
      GrewOn(before, farm.past, |old(farm.past)| - 1, |before| - 1, old(farm.now), then_);
      AnsweredGrows(found, shas[..start], before, farm.past, |old(farm.past)| - 1);
      var stop := if start + BATCH <= |shas| then start + BATCH else |shas|;
      var batch := shas[start..stop];
      var more;
      ok, more := farm.Query(batch);
      if !ok {
        return;
      }
      AnswerBatch(found, more, shas, start, stop, farm.past, |old(farm.past)| - 1, farm.now);
      found := found + more;
      start := stop;
    }
    assert shas[..|shas|] == shas;
    ok := true;
  }

  lemma GrewStarts(past: seq<Moment>, now: Moment)
    requires past != [] && past[|past| - 1] == now
    ensures GrewFrom(past, |past| - 1, now)
  {
  }

  lemma AnsweredNothing(past: seq<Moment>, since: nat)
    ensures Answered({}, [], past, since)
  {
  }

  lemma SeenGrows(named: bool, sha: Digest, past: seq<Moment>, after: seq<Moment>, since: nat)
    requires Seen(named, sha, past, since) && past <= after
    ensures Seen(named, sha, after, since)
  {
    var k: nat :| SeenAs(named, sha, past, since, k);
    assert SeenAs(named, sha, after, since, k);
  }

  lemma AnsweredGrows(found: set<Digest>, shas: seq<Digest>, past: seq<Moment>, after: seq<Moment>, since: nat)
    requires Answered(found, shas, past, since) && past <= after
    ensures Answered(found, shas, after, since)
  {
    forall i | 0 <= i < |shas|
      ensures Seen(shas[i] in found, shas[i], after, since)
    {
      SeenGrows(shas[i] in found, shas[i], past, after, since);
    }
  }

  lemma AnswerBatch(found: set<Digest>, more: set<Digest>, shas: seq<Digest>, start: nat, stop: nat,
                    past: seq<Moment>, since: nat, now: Moment)
    requires forall i, j :: 0 <= i < j < |shas| ==> shas[i] != shas[j]
    requires start <= stop <= |shas| && since < |past| && past[|past| - 1] == now
    requires more == (set s | s in shas[start..stop] && s in now.named)
    requires Answered(found, shas[..start], past, since)
    requires forall s :: s in found ==> s in shas[..start]
    ensures Answered(found + more, shas[..stop], past, since)
    ensures forall s :: s in found + more ==> s in shas[..stop]
  {
    forall i | 0 <= i < stop
      ensures Seen(shas[..stop][i] in found + more, shas[..stop][i], past, since)
    {
      var sha := shas[i];
      if i < start {
        assert shas[..start][i] == sha;
        assert sha !in shas[start..stop];
      } else {
        assert shas[start..stop][i - start] == sha;
        assert sha !in shas[..start];
        assert SeenAs(sha in found + more, sha, past, since, |past| - 1);
      }
    }
    forall s | s in found + more
      ensures s in shas[..stop]
    {
      if s in found {
        var i :| 0 <= i < start && shas[..start][i] == s;
        assert shas[..stop][i] == s;
      } else {
        var i :| 0 <= i < stop - start && shas[start..stop][i] == s;
        assert shas[..stop][start + i] == s;
      }
    }
  }

  // ---------------------------------------------------------------------
  // The sweep
  // ---------------------------------------------------------------------

  datatype Problem =
    | UnreadableDir(name: string)
    | StatFailed(sha: Digest)
    | StoppedEarly
    | RecheckFailed(sha: Digest)
    | RemoveFailed(sha: Digest)
    | Unconfirmed
    | Raced(sha: Digest)

  datatype GCEntry = GCEntry(sha: Digest, blob: Blob, deleted: bool)

  datatype Report = Report(
    scanned: nat, unrecognised: nat, referenced: nat, withinGrace: nat,
    collectable: nat, reclaimable: nat, deleted: nat, freed: nat, adopted: nat,
    blobs: seq<GCEntry>, truncated: bool, problems: seq<Problem>)

  const LIST_LIMIT := 500

  function Rechecks(ps: seq<Problem>): nat {
    if ps == [] then 0 else Rechecks(ps[..|ps| - 1]) + if ps[|ps| - 1].RecheckFailed? then 1 else 0
  }

  lemma RechecksSnoc(ps: seq<Problem>, p: Problem)
    ensures Rechecks(ps + [p]) == Rechecks(ps) + if p.RecheckFailed? then 1 else 0
  {
    assert (ps + [p])[..|ps|] == ps;
  }

  lemma {:induction false} NoRechecks(ps: seq<Problem>)
    requires forall p :: p in ps ==> !p.RecheckFailed?
    ensures Rechecks(ps) == 0
    decreases |ps|
  {
    if ps != [] {
      NoRechecks(ps[..|ps| - 1]);
    }
  }

  /** The report's own arithmetic, after `seen` candidates of a sweep. */
  ghost predicate Balanced(rep: Report, seen: nat) {
    && seen == rep.referenced + rep.adopted + rep.collectable + Rechecks(rep.problems)
    && rep.deleted <= rep.collectable && rep.freed <= rep.reclaimable
    && |rep.blobs| == (if rep.collectable <= LIST_LIMIT then rep.collectable else LIST_LIMIT)
    && rep.truncated == (rep.collectable > LIST_LIMIT)
  }

  /** Each removed digest went unnamed at a second look within this sweep. */
  ghost predicate LookedTwice(removed: seq<Digest>, past: seq<Moment>, grace: int, since: nat) {
    forall i :: 0 <= i < |removed| ==> Looked(removed[i], past, grace, since)
  }

  ghost predicate Looked(sha: Digest, past: seq<Moment>, grace: int, since: nat) {
    exists k: nat, r: nat :: LookedAt(sha, past, grace, since, k, r)
  }

  ghost predicate LookedAt(sha: Digest, past: seq<Moment>, grace: int, since: nat, k: nat, r: nat) {
    since <= k && RemovedAt(past, r, sha) && UnnamedAt(past, grace, k, r, sha)
  }

  lemma LookedGrows(sha: Digest, past: seq<Moment>, after: seq<Moment>, grace: int, since: nat, since': nat)
    requires Looked(sha, past, grace, since) && past <= after && since' <= since
    ensures Looked(sha, after, grace, since')
  {
    var k: nat, r: nat :| LookedAt(sha, past, grace, since, k, r);
    assert LookedAt(sha, after, grace, since', k, r);
  }

  lemma LookedTwiceGrows(removed: seq<Digest>, past: seq<Moment>, after: seq<Moment>, grace: int, since: nat)
    requires LookedTwice(removed, past, grace, since) && past <= after
    ensures LookedTwice(removed, after, grace, since)
  {
    forall i | 0 <= i < |removed|
      ensures Looked(removed[i], after, grace, since)
    {
      LookedGrows(removed[i], past, after, grace, since, since);
    }
  }

  /** Why a file past its grace period is gone or still there: removed, named at
      some instant of the sweep, or a problem says so. */
  ghost predicate Accounted(sha: Digest, removed: seq<Digest>, ps: seq<Problem>, past: seq<Moment>, since: nat) {
    sha in removed || Seen(true, sha, past, since) || RecheckFailed(sha) in ps || RemoveFailed(sha) in ps
  }

  ghost predicate AllAccounted(fs: seq<BlobFile>, removed: seq<Digest>, ps: seq<Problem>, past: seq<Moment>,
                               since: nat) {
    forall i :: 0 <= i < |fs| ==> Accounted(fs[i].sha, removed, ps, past, since)
  }

  lemma AccountedGrows(fs: seq<BlobFile>, removed: seq<Digest>, removed': seq<Digest>, ps: seq<Problem>,
                       ps': seq<Problem>,
                       past: seq<Moment>, after: seq<Moment>, since: nat, since': nat)
    requires AllAccounted(fs, removed, ps, past, since)
    requires removed <= removed' && ps <= ps' && past <= after && since' <= since
    ensures AllAccounted(fs, removed', ps', after, since')
  {
    hide Seen;
    forall i | 0 <= i < |fs|
      ensures Accounted(fs[i].sha, removed', ps', after, since')
    {
      if Seen(true, fs[i].sha, past, since) {
        SeenEarlier(true, fs[i].sha, past, after, since, since');
      }
    }
  }

  lemma SeenEarlier(named: bool, sha: Digest, past: seq<Moment>, after: seq<Moment>, since: nat, since': nat)
    requires Seen(named, sha, past, since) && past <= after && since' <= since
    ensures Seen(named, sha, after, since')
  {
    var k: nat :| SeenAs(named, sha, past, since, k);
    assert SeenAs(named, sha, after, since', k);
  }

  /** What became of one candidate the first scan found unnamed. */
  datatype Verdict = Unasked | Adopted | Collectable(removed: bool, failed: bool)

  /** The second look and the unlink. */
  method SecondLook(farm: Farm, apply: bool, f: BlobFile) returns (v: Verdict)
    requires farm.Valid() && OnDisk(f, farm.now) && f.blob.mtime + farm.grace <= farm.now.clock
    modifies farm
    ensures farm.Valid() && old(farm.past) <= farm.past
    ensures old(farm.now.clock) <= farm.now.clock
    ensures forall sha :: sha in old(farm.now.disk) && (sha != f.sha || v != Collectable(true, false)) ==>
                sha in farm.now.disk && farm.now.disk[sha] == old(farm.now.disk)[sha]
    ensures farm.unlinked == old(farm.unlinked) + if v.Collectable? && v.removed then [f.sha] else []
    ensures v.Collectable? && v.removed ==> apply && !v.failed
    ensures v.Collectable? && v.removed ==> Looked(f.sha, farm.past, farm.grace, |old(farm.past)| - 1)
    ensures !apply ==> v == Collectable(false, false) && farm.past == old(farm.past)
    ensures v.Adopted? ==> Seen(true, f.sha, farm.past, |old(farm.past)| - 1)
    ensures farm.queryFaults == old(farm.queryFaults) + if v.Unasked? then 1 else 0
    ensures farm.unlinkFaults == old(farm.unlinkFaults) + if v.Collectable? && v.failed then 1 else 0
    ensures apply && v.Collectable? && !v.removed ==> v.failed
  {
    hide Flows, RemovalsJustified, UnnamedAt;
    if !apply {
      return Collectable(false, false);
    }
    farm.Elapse();
    var ok, again := farm.Query([f.sha]);
    ghost var k := |farm.past| - 1;
    if !ok {
      return Unasked;
    }
    if f.sha in again {
      assert SeenAs(true, f.sha, farm.past, |old(farm.past)| - 1, k);
      return Adopted;
    }
    assert f.sha in [f.sha];
    farm.Elapse();
    ghost var r := |farm.past|;
    var removed := farm.Unlink(f.sha, k);
    if removed {
      assert LookedAt(f.sha, farm.past, farm.grace, |old(farm.past)| - 1, k, r);
    }
    v := Collectable(removed, !removed);
  }

  /** How the report accounts for a verdict. */
  function Tally(rep: Report, f: BlobFile, v: Verdict): Report {
    match v
    case Unasked => rep.(problems := rep.problems + [RecheckFailed(f.sha)])
    case Adopted => rep.(adopted := rep.adopted + 1)
    case Collectable(removed, failed) =>
      rep.(collectable := rep.collectable + 1,
           reclaimable := rep.reclaimable + f.blob.size,
           deleted := rep.deleted + (if removed then 1 else 0),
           freed := rep.freed + (if removed then f.blob.size else 0),
           problems := rep.problems + (if failed then [RemoveFailed(f.sha)] else []),
           blobs := if |rep.blobs| < LIST_LIMIT then rep.blobs + [GCEntry(f.sha, f.blob, removed)] else rep.blobs,
           truncated := rep.truncated || |rep.blobs| >= LIST_LIMIT)
  }

  lemma TallyBalanced(rep: Report, f: BlobFile, v: Verdict, seen: nat)
    requires Balanced(rep, seen)
    ensures Balanced(Tally(rep, f, v), seen + 1)
  {
    hide Rechecks;
    match v {
      case Unasked => RechecksSnoc(rep.problems, RecheckFailed(f.sha));
      case Adopted =>
      case Collectable(_, failed) =>
        if failed {
          RechecksSnoc(rep.problems, RemoveFailed(f.sha));
        } else {
          assert rep.problems + [] == rep.problems;
        }
    }
  }

  /** So many queries and unlinks failed between the two reports: each failed
      query is a recheck noted, each failed unlink a blob collectable but not
      deleted, and nothing else keeps the two counts apart when applying. */
  ghost predicate Faults(queries: int, unlinks: int, apply: bool, before: Report, after: Report) {
    && queries >= 0 && unlinks >= 0
    && Rechecks(after.problems) == Rechecks(before.problems) + queries
    && (apply ==> after.collectable - after.deleted == before.collectable - before.deleted + unlinks)
    && (!apply ==> queries == 0 && unlinks == 0 && after.deleted == before.deleted)
  }

  lemma FaultsStart(apply: bool, rep: Report)
    ensures Faults(0, 0, apply, rep, rep)
  {
  }

  /** Steps in which nothing failed, and that remove nothing, leave it alone. */
  lemma FaultsKept(queries: int, unlinks: int, apply: bool, before: Report, after: Report, more: Report)
    requires Faults(queries, unlinks, apply, before, after)
    requires Rechecks(more.problems) == Rechecks(after.problems)
    requires more.collectable == after.collectable && more.deleted == after.deleted
    ensures Faults(queries, unlinks, apply, before, more)
  {
  }

  lemma FaultsAdd(q: int, u: int, q': int, u': int, apply: bool, before: Report, mid: Report, after: Report)
    requires Faults(q, u, apply, before, mid) && Faults(q', u', apply, mid, after)
    ensures Faults(q + q', u + u', apply, before, after)
  {
  }

  lemma TallyFaults(rep: Report, f: BlobFile, v: Verdict, apply: bool)
    requires v.Collectable? ==> (v.removed ==> apply && !v.failed) && (apply && !v.removed ==> v.failed)
    requires !apply ==> v == Collectable(false, false)
    ensures Faults(if v.Unasked? then 1 else 0, if v.Collectable? && v.failed then 1 else 0,
                   apply, rep, Tally(rep, f, v))
  {
    hide Rechecks;
    match v {
      case Unasked => RechecksSnoc(rep.problems, RecheckFailed(f.sha));
      case Adopted =>
      case Collectable(_, failed) =>
        if failed {
          RechecksSnoc(rep.problems, RemoveFailed(f.sha));
        } else {
          assert rep.problems + [] == rep.problems;
        }
    }
  }

  /** Nothing has been said yet about races with uploads. */
  ghost predicate NoneRaced(ps: seq<Problem>) {
    forall p :: p in ps ==> !p.Raced? && !p.Unconfirmed?
  }

  /** What the apply loop has established after `done` candidates. */
  ghost predicate Progress(candidates: seq<BlobFile>, done: nat, removed: seq<Digest>, rep: Report, now: Moment)
    requires done <= |candidates|
  {
    && Balanced(rep, done) && rep.deleted == |removed| && NoneRaced(rep.problems)
    && (forall j :: done <= j < |candidates| ==> OnDisk(candidates[j], now))
    && (forall j :: done <= j < |candidates| ==> candidates[j].sha !in removed)
    && forall k, j :: 0 <= k < j < |removed| ==> removed[k] != removed[j]
  }

  // ---------------------------------------------------------------------
  // The books behind the report's counters
  // ---------------------------------------------------------------------

  /** At one instant of the sweep the file was on disk, past its grace, and named
      by nothing. */
  ghost predicate Unneeded(f: BlobFile, past: seq<Moment>, grace: int, since: nat) {
    exists k: nat :: UnneededAt(f, past, grace, since, k)
  }

  ghost predicate UnneededAt(f: BlobFile, past: seq<Moment>, grace: int, since: nat, k: nat) {
    since <= k < |past| && OnDisk(f, past[k]) && f.sha !in past[k].named && f.blob.mtime + grace <= past[k].clock
  }

  lemma UnneededGrows(f: BlobFile, past: seq<Moment>, after: seq<Moment>, grace: int, since: nat)
    requires Unneeded(f, past, grace, since) && past <= after
    ensures Unneeded(f, after, grace, since)
  {
    var k: nat :| UnneededAt(f, past, grace, since, k);
    assert UnneededAt(f, after, grace, since, k);
  }

  /** What became of each file decided: named at the first look, named at the
      second, collectable, or not asked about a second time. */
  datatype Ledger = Ledger(
    referenced: seq<BlobFile>, adopted: seq<BlobFile>, collected: seq<BlobFile>, unasked: seq<BlobFile>)

  function Book(led: Ledger, f: BlobFile, v: Verdict): Ledger {
    match v
    case Unasked => led.(unasked := led.unasked + [f])
    case Adopted => led.(adopted := led.adopted + [f])
    case Collectable(_, _) => led.(collected := led.collected + [f])
  }

  function Sizes(fs: seq<BlobFile>): nat {
    if fs == [] then 0 else Sizes(fs[..|fs| - 1]) + fs[|fs| - 1].blob.size
  }

  /** The sizes of those files that are among the removed. */
  function SizesOf(fs: seq<BlobFile>, removed: seq<Digest>): nat {
    if fs == [] then 0
    else SizesOf(fs[..|fs| - 1], removed) + if fs[|fs| - 1].sha in removed then fs[|fs| - 1].blob.size else 0
  }

  /** Every file decided is in exactly one column, and the counters count them. */
  ghost predicate Columns(led: Ledger, fs: seq<BlobFile>, rep: Report) {
    && multiset(fs) ==
         multiset(led.referenced) + multiset(led.adopted) + multiset(led.collected) + multiset(led.unasked)
    && rep.referenced == |led.referenced| && rep.adopted == |led.adopted| && rep.collectable == |led.collected|
    && Rechecks(rep.problems) == |led.unasked|
  }

  /** Each column says what the database answered. */
  ghost predicate Backed(led: Ledger, ps: seq<Problem>, past: seq<Moment>, grace: int, since: nat) {
    && (forall f :: f in led.referenced ==> Seen(true, f.sha, past, since))
    && (forall f :: f in led.adopted ==> Seen(true, f.sha, past, since) && Unneeded(f, past, grace, since))
    && (forall f :: f in led.collected ==> Unneeded(f, past, grace, since))
    && (forall f :: f in led.unasked ==> RecheckFailed(f.sha) in ps)
  }

  /** The listing is the first 500 collectable files as they are, each marked
      deleted exactly when it was removed; and the two byte counts are theirs. */
  ghost predicate Itemised(collected: seq<BlobFile>, removed: seq<Digest>, rep: Report) {
    && |rep.blobs| == (if |collected| <= 500 then |collected| else 500)
    && (forall i :: 0 <= i < |rep.blobs| ==>
          rep.blobs[i] == GCEntry(collected[i].sha, collected[i].blob, collected[i].sha in removed))
    && rep.reclaimable == Sizes(collected) && rep.freed == SizesOf(collected, removed)
    && (forall sha :: sha in removed ==> Found(collected, sha))
  }

  ghost predicate Booked(led: Ledger, fs: seq<BlobFile>, removed: seq<Digest>, rep: Report, past: seq<Moment>,
                         grace: int, since: nat) {
    Columns(led, fs, rep) && Backed(led, rep.problems, past, grace, since) && Itemised(led.collected, removed, rep)
  }

  /** A report nothing has been counted in yet. */
  predicate Blank(rep: Report) {
    && rep.referenced == rep.adopted == rep.collectable == 0 && rep.reclaimable == rep.freed == 0
    && rep.blobs == [] && Rechecks(rep.problems) == 0
  }

  lemma BooksOpen(rep: Report, past: seq<Moment>, grace: int, since: nat)
    requires Blank(rep)
    ensures Booked(Ledger([], [], [], []), [], [], rep, past, grace, since)
  {
  }

  lemma BackedGrows(led: Ledger, ps: seq<Problem>, ps': seq<Problem>, past: seq<Moment>, after: seq<Moment>, grace: int,
                    since: nat)
    requires Backed(led, ps, past, grace, since) && past <= after && ps <= ps'
    ensures Backed(led, ps', after, grace, since)
  {
    hide Seen, Unneeded;
    forall f | f in led.referenced + led.adopted
      ensures Seen(true, f.sha, after, since)
    {
      SeenGrows(true, f.sha, past, after, since);
    }
    forall f | f in led.adopted + led.collected
      ensures Unneeded(f, after, grace, since)
    {
      UnneededGrows(f, past, after, grace, since);
    }
    assert forall f :: f in led.referenced ==> f in led.referenced + led.adopted;
    assert forall f :: f in led.adopted ==> f in led.referenced + led.adopted && f in led.adopted + led.collected;
    assert forall f :: f in led.collected ==> f in led.adopted + led.collected;
  }

  lemma BookReferenced(led: Ledger, fs: seq<BlobFile>, i: nat, removed: seq<Digest>, rep: Report, before: seq<Moment>,
                       past: seq<Moment>, grace: int, since: nat)
    requires i < |fs| && Booked(led, fs[..i], removed, rep, past, grace, since)
    requires before <= past && Seen(true, fs[i].sha, before, since)
    ensures Booked(led.(referenced := led.referenced + [fs[i]]), fs[..i + 1], removed,
                   rep.(referenced := rep.referenced + 1), past, grace, since)
  {
    hide Seen, Unneeded, Rechecks, Sizes, SizesOf, Found;
    SeenGrows(true, fs[i].sha, before, past, since);
    assert fs[..i + 1] == fs[..i] + [fs[i]];
  }

  lemma BooksStop(led: Ledger, fs: seq<BlobFile>, removed: seq<Digest>, rep: Report, past: seq<Moment>, grace: int,
                  since: nat)
    requires Booked(led, fs, removed, rep, past, grace, since)
    ensures Booked(led, fs, removed, rep.(problems := rep.problems + [StoppedEarly]), past, grace, since)
  {
    hide Seen, Unneeded, Sizes, SizesOf, Found, Rechecks;
    RechecksSnoc(rep.problems, StoppedEarly);
  }

  /** Only what it adds is new to a column. */
  lemma BookColumns(led: Ledger, fs: seq<BlobFile>, i: nat, rep: Report, v: Verdict)
    requires i < |fs| && Columns(led, fs[..i], rep)
    ensures Columns(Book(led, fs[i], v), fs[..i + 1], Tally(rep, fs[i], v))
  {
    hide Rechecks;
    assert fs[..i + 1] == fs[..i] + [fs[i]];
    match v {
      case Unasked => RechecksSnoc(rep.problems, RecheckFailed(fs[i].sha));
      case Adopted =>
      case Collectable(_, failed) =>
        if failed {
          RechecksSnoc(rep.problems, RemoveFailed(fs[i].sha));
        } else {
          assert rep.problems + [] == rep.problems;
        }
    }
  }

  lemma BookBacked(led: Ledger, f: BlobFile, v: Verdict, rep: Report, before: seq<Moment>, past: seq<Moment>,
                   grace: int, since: nat)
    requires Backed(led, rep.problems, before, grace, since) && before <= past
    requires Unneeded(f, past, grace, since) && (v.Adopted? ==> Seen(true, f.sha, past, since))
    ensures Backed(Book(led, f, v), Tally(rep, f, v).problems, past, grace, since)
  {
    BackedGrows(led, rep.problems, Tally(rep, f, v).problems, before, past, grace, since);
    hide Seen, Unneeded;
  }

  /** A digest not among the files adds nothing to what was freed of them. */
  lemma {:induction false} SizesOfOthers(fs: seq<BlobFile>, removed: seq<Digest>, sha: Digest)
    requires !Found(fs, sha)
    ensures SizesOf(fs, removed + [sha]) == SizesOf(fs, removed)
    decreases |fs|
  {
    if fs != [] {
      var k := |fs| - 1;
      assert fs[k].sha != sha;
      assert !Found(fs[..k], sha) by {
        if Found(fs[..k], sha) {
          FoundGrows(fs[..k], fs, sha);
        }
      }
      SizesOfOthers(fs[..k], removed, sha);
    }
  }

  lemma BookItemised(collected: seq<BlobFile>, f: BlobFile, removed: seq<Digest>, rep: Report, gone: bool, failed: bool)
    requires Itemised(collected, removed, rep) && !Found(collected, f.sha) && f.sha !in removed
    requires rep.collectable == |collected|
    ensures Itemised(collected + [f], removed + if gone then [f.sha] else [], Tally(rep, f, Collectable(gone, failed)))
  {
    var removed' := removed + if gone then [f.sha] else [];
    var more := Tally(rep, f, Collectable(gone, failed));
    assert (collected + [f])[..|collected|] == collected;
    assert forall i :: 0 <= i < |collected| ==> collected[i].sha != f.sha;
    if gone {
      SizesOfOthers(collected, removed, f.sha);
    } else {
      assert removed' == removed;
    }
    forall sha | sha in removed'
      ensures Found(collected + [f], sha)
    {
      if sha in removed {
        FoundGrows(collected, collected + [f], sha);
      } else {
        assert (collected + [f])[|collected|].sha == sha;
      }
    }
    hide Found, SizesOf, Sizes;
  }

  /** What is in a column was decided before, so the next file is not. */
  lemma NotYetBooked(led: Ledger, fs: seq<BlobFile>, i: nat, rep: Report)
    requires i < |fs| && Columns(led, fs[..i], rep)
    requires forall a, b :: 0 <= a < b < |fs| ==> fs[a].sha != fs[b].sha
    ensures !Found(led.collected, fs[i].sha)
  {
    hide Rechecks;
    forall k | 0 <= k < |led.collected|
      ensures led.collected[k].sha != fs[i].sha
    {
      assert led.collected[k] in multiset(led.collected);
      assert led.collected[k] in multiset(fs[..i]);
      assert led.collected[k] in fs[..i];
    }
  }

  lemma BookDecided(led: Ledger, fs: seq<BlobFile>, i: nat, removed: seq<Digest>, removed': seq<Digest>, rep: Report,
                    v: Verdict, start: seq<Moment>, before: seq<Moment>, past: seq<Moment>, grace: int, since: nat)
    requires i < |fs| && Booked(led, fs[..i], removed, rep, before, grace, since)
    requires forall a, b :: 0 <= a < b < |fs| ==> fs[a].sha != fs[b].sha
    requires start <= before <= past && before != [] && Unneeded(fs[i], start, grace, since) && fs[i].sha !in removed
    requires v.Adopted? ==> Seen(true, fs[i].sha, past, |before| - 1)
    requires since < |start|
    requires removed' == removed + if v.Collectable? && v.removed then [fs[i].sha] else []
    ensures Booked(Book(led, fs[i], v), fs[..i + 1], removed', Tally(rep, fs[i], v), past, grace, since)
  {
    hide Seen, Unneeded, Columns, Backed, Itemised;
    BookColumns(led, fs, i, rep, v);
    UnneededGrows(fs[i], start, past, grace, since);
    if v.Adopted? {
      SeenEarlier(true, fs[i].sha, past, past, |before| - 1, since);
    }
    BookBacked(led, fs[i], v, rep, before, past, grace, since);
    if v.Collectable? {
      NotYetBooked(led, fs, i, rep);
      CollectedCount(led, fs[..i], rep);
      BookItemised(led.collected, fs[i], removed, rep, v.removed, v.failed);
    } else {
      assert removed' == removed;
      SameItems(led.collected, removed, rep, fs[i], v);
    }
  }

  lemma CollectedCount(led: Ledger, fs: seq<BlobFile>, rep: Report)
    requires Columns(led, fs, rep)
    ensures rep.collectable == |led.collected|
  {
  }

  lemma SameItems(collected: seq<BlobFile>, removed: seq<Digest>, rep: Report, f: BlobFile, v: Verdict)
    requires Itemised(collected, removed, rep) && !v.Collectable?
    ensures Itemised(collected, removed, Tally(rep, f, v))
  {
    hide Found, Sizes, SizesOf;
  }

  /** How far a sweep has come: the farm's ghosts and the instant it stands at. */
  datatype Mark = Mark(past: seq<Moment>, now: Moment, queryFaults: nat, unlinkFaults: nat, unlinked: seq<Digest>)

  /** What deciding one candidate leaves, from mark m to mark n. */
  ghost predicate DecidedOne(m: Mark, n: Mark, grace: int, apply: bool, sha: Digest, removed0: seq<Digest>,
                             removed: seq<Digest>, rep0: Report, rep: Report) {
    && m.past != [] && m.past <= n.past && m.now.clock <= n.now.clock
    && rep.scanned == rep0.scanned && rep.withinGrace == rep0.withinGrace
    && (removed == removed0 || (apply && removed == removed0 + [sha] && Looked(sha, n.past, grace, |m.past| - 1)))
    && n.unlinked == m.unlinked + removed[|removed0|..] && LostOnly(m.now, n.now, removed)
    && rep0.problems <= rep.problems && (StoppedEarly in rep.problems <==> StoppedEarly in rep0.problems)
    && Faults(n.queryFaults - m.queryFaults, n.unlinkFaults - m.unlinkFaults, apply, rep0, rep)
    && (apply ==> Accounted(sha, removed, rep.problems, n.past, |m.past| - 1))
  }

  /** What the apply loop keeps, from mark a at its start to mark b, i candidates
      later. */
  ghost predicate Course(a: Mark, b: Mark, grace: int, apply: bool, candidates: seq<BlobFile>, i: nat,
                         removed: seq<Digest>, rep0: Report, rep: Report, since: nat)
    requires i <= |candidates|
  {
    && a.past != [] && a.past <= b.past && a.now.clock <= b.now.clock
    && Progress(candidates, i, removed, rep, b.now)
    && rep.scanned == rep0.scanned && rep.withinGrace == rep0.withinGrace
    && (!apply ==> removed == [])
    && b.unlinked == a.unlinked + removed && LostOnly(a.now, b.now, removed)
    && (StoppedEarly in rep.problems ==> StoppedEarly in rep0.problems)
    && Faults(b.queryFaults - a.queryFaults, b.unlinkFaults - a.unlinkFaults, apply, rep0, rep)
    && (apply ==> AllAccounted(candidates[..i], removed, rep.problems, b.past, since))
    && LookedTwice(removed, b.past, grace, |a.past| - 1)
  }

  /** One candidate the first scan found unnamed. */
  method DecideOne(farm: Farm, apply: bool, candidates: seq<BlobFile>, done: nat, rep0: Report, removed0: seq<Digest>)
    returns (rep: Report, removed: seq<Digest>, ghost v: Verdict)
    requires farm.Valid() && done < |candidates| && Progress(candidates, done, removed0, rep0, farm.now)
    requires forall i, j :: 0 <= i < j < |candidates| ==> candidates[i].sha != candidates[j].sha
    requires candidates[done].blob.mtime + farm.grace <= farm.now.clock
    modifies farm
    ensures farm.Valid() && Progress(candidates, done + 1, removed, rep, farm.now)
    ensures DecidedOne(old(farm.Here()), farm.Here(), farm.grace, apply,
                       candidates[done].sha, removed0, removed, rep0, rep)
    ensures old(farm.past) <= farm.past
    ensures rep == Tally(rep0, candidates[done], v) && (!apply ==> v == Collectable(false, false))
    ensures removed == removed0 + if v.Collectable? && v.removed then [candidates[done].sha] else []
    ensures v.Adopted? ==> Seen(true, candidates[done].sha, farm.past, |old(farm.past)| - 1)
  {
    hide Flows, RemovalsJustified, Looked, Rechecks, Seen, Faults;
    var f := candidates[done];
    var verdict := SecondLook(farm, apply, f);
    v := verdict;
    TallyBalanced(rep0, f, v, done);
    TallyFaults(rep0, f, v, apply);
    rep := Tally(rep0, f, verdict);
    removed := removed0;
    if verdict.Collectable? && verdict.removed {
      removed := removed + [f.sha];
    }
  }

  lemma CourseStarts(a: Mark, grace: int, apply: bool, candidates: seq<BlobFile>, rep: Report, since: nat)
    requires a.past != [] && Progress(candidates, 0, [], rep, a.now)
    ensures Course(a, a, grace, apply, candidates, 0, [], rep, rep, since)
  {
    hide Progress;
    FaultsStart(apply, rep);
    assert a.unlinked + [] == a.unlinked;
  }

  lemma CourseReferenced(a: Mark, b: Mark, grace: int, apply: bool, candidates: seq<BlobFile>, i: nat,
                         removed: seq<Digest>, rep0: Report, rep: Report, since: nat)
    requires i < |candidates| && Course(a, b, grace, apply, candidates, i, removed, rep0, rep, since)
    requires Seen(true, candidates[i].sha, a.past, since)
    ensures Course(a, b, grace, apply, candidates, i + 1, removed, rep0, rep.(referenced := rep.referenced + 1), since)
  {
    hide Seen, Faults, LookedTwice, LostOnly, AllAccounted;
    var more := rep.(referenced := rep.referenced + 1);
    ReferencedBalanced(rep, i);
    NamedAccounted(candidates, i, removed, rep.problems, a.past, b.past, since, apply);
    FaultsKept(b.queryFaults - a.queryFaults, b.unlinkFaults - a.unlinkFaults, apply, rep0, rep, more);
  }

  lemma CourseDecided(a: Mark, m: Mark, b: Mark, grace: int, apply: bool, candidates: seq<BlobFile>, i: nat,
                      removed: seq<Digest>, removed': seq<Digest>, rep0: Report, mid: Report, rep: Report, since: nat)
    requires i < |candidates| && Course(a, m, grace, apply, candidates, i, removed, rep0, mid, since)
    requires Progress(candidates, i + 1, removed', rep, b.now) && since < |a.past|
    requires DecidedOne(m, b, grace, apply, candidates[i].sha, removed, removed', mid, rep)
    ensures Course(a, b, grace, apply, candidates, i + 1, removed', rep0, rep, since)
  {
    hide Progress, Faults, LostOnly, Looked, AllAccounted, Accounted, LookedTwice;
    FaultsAdd(m.queryFaults - a.queryFaults, m.unlinkFaults - a.unlinkFaults,
              b.queryFaults - m.queryFaults, b.unlinkFaults - m.unlinkFaults, apply, rep0, mid, rep);
    LostOnlyTrans(a.now, m.now, b.now, removed, removed');
    if removed' != removed {
      assert removed'[..|removed'| - 1] == removed;
    }
    KeepLooking(m.past, b.past, grace, |a.past| - 1, candidates[i].sha, removed');
    if apply {
      AccountedGrows(candidates[..i], removed, removed', mid.problems, rep.problems, m.past, b.past, since, since);
      OneMoreAccounted(candidates, i, removed', rep.problems, b.past, |m.past| - 1, since);
    }
    assert removed' == removed + removed'[|removed|..];
  }

  /** Stopping where the course stands. */
  lemma CourseStops(a: Mark, b: Mark, grace: int, apply: bool, candidates: seq<BlobFile>, i: nat,
                    removed: seq<Digest>, rep0: Report, rep: Report, since: nat)
    requires i <= |candidates| && Course(a, b, grace, apply, candidates, i, removed, rep0, rep, since)
    ensures var more := rep.(problems := rep.problems + [StoppedEarly]);
            && Balanced(more, i) && NoneRaced(more.problems)
            && Faults(b.queryFaults - a.queryFaults, b.unlinkFaults - a.unlinkFaults, apply, rep0, more)
            && (apply ==> AllAccounted(candidates[..i], removed, more.problems, b.past, since))
  {
    hide LookedTwice, LostOnly, Faults, AllAccounted;
    var more := rep.(problems := rep.problems + [StoppedEarly]);
    StoppedBalanced(rep, i);
    RechecksSnoc(rep.problems, StoppedEarly);
    FaultsKept(b.queryFaults - a.queryFaults, b.unlinkFaults - a.unlinkFaults, apply, rep0, rep, more);
    if apply {
      AccountedGrows(candidates[..i], removed, removed, rep.problems, more.problems, b.past, b.past, since, since);
    }
  }

  /** The apply loop: every candidate is decided, until the caller hangs up, which
      it does once `patience` candidates are behind it. */
  method Decide(farm: Farm, apply: bool, patience: nat, candidates: seq<BlobFile>, named: set<Digest>, rep0: Report,
                ghost since: nat)
    returns (rep: Report, removed: seq<Digest>, ghost decided: nat, ghost led: Ledger)
    requires farm.Valid() && Tracked(candidates, farm.now)
    requires forall i :: 0 <= i < |candidates| ==> candidates[i].blob.mtime + farm.grace <= farm.now.clock
    requires Balanced(rep0, 0) && NoneRaced(rep0.problems) && since < |farm.past|
    requires forall i :: 0 <= i < |candidates| && candidates[i].sha in named ==>
               Seen(true, candidates[i].sha, farm.past, since)
    requires forall i :: 0 <= i < |candidates| && candidates[i].sha !in named ==>
               Unneeded(candidates[i], farm.past, farm.grace, since)
    requires Blank(rep0)
    modifies farm
    ensures farm.Valid() && old(farm.past) <= farm.past && NoneRaced(rep.problems)
    ensures decided <= |candidates| && Balanced(rep, decided)
    ensures apply ==> AllAccounted(candidates[..decided], removed, rep.problems, farm.past, since)
    ensures Booked(led, candidates[..decided], removed, rep, farm.past, farm.grace, since)
    ensures !apply ==> led.adopted == [] && led.unasked == []
    ensures StoppedEarly in rep.problems || decided == |candidates|
    ensures StoppedEarly in rep.problems ==> StoppedEarly in rep0.problems || patience < |candidates|
    ensures farm.unlinked == old(farm.unlinked) + removed && LostOnly(old(farm.now), farm.now, removed)
    ensures Faults(farm.queryFaults - old(farm.queryFaults), farm.unlinkFaults - old(farm.unlinkFaults),
                   apply, rep0, rep)
    ensures rep.deleted == |removed| && (!apply ==> removed == [])
    ensures rep.scanned == rep0.scanned && rep.withinGrace == rep0.withinGrace
    ensures forall i, j :: 0 <= i < j < |removed| ==> removed[i] != removed[j]
    ensures LookedTwice(removed, farm.past, farm.grace, |old(farm.past)| - 1)
  {
    hide Flows, RemovalsJustified, Balanced, Seen, AllAccounted, Faults, LostOnly, LookedTwice, DecidedOne, Unneeded,
         Booked, Blank;
    ghost var start := farm.Here();
    rep, removed, decided, led := rep0, [], 0, Ledger([], [], [], []);
    assert candidates[..0] == [];
    BooksOpen(rep, farm.past, farm.grace, since);
    NothingDeleted(rep);
    CourseStarts(start, farm.grace, apply, candidates, rep, since);
    for i := 0 to |candidates|
      invariant farm.Valid()
      invariant Course(start, farm.Here(), farm.grace, apply, candidates, i, removed, rep0, rep, since)
      invariant Booked(led, candidates[..i], removed, rep, farm.past, farm.grace, since)
      invariant !apply ==> led.adopted == [] && led.unasked == []
    {
      decided := i;
      if candidates[i].sha in named {
        CourseReferenced(start, farm.Here(), farm.grace, apply, candidates, i, removed, rep0, rep, since);
        BookReferenced(led, candidates, i, removed, rep, start.past, farm.past, farm.grace, since);
        led := led.(referenced := led.referenced + [candidates[i]]);
        rep := rep.(referenced := rep.referenced + 1);
      } else if i >= patience {
        CourseStops(start, farm.Here(), farm.grace, apply, candidates, i, removed, rep0, rep, since);
        BooksStop(led, candidates[..i], removed, rep, farm.past, farm.grace, since);
        rep := rep.(problems := rep.problems + [StoppedEarly]);
        return;
      } else {
        ghost var here, mid, gone := farm.Here(), rep, removed;
        ghost var v;
        rep, removed, v := DecideOne(farm, apply, candidates, i, rep, removed);
        CourseDecided(start, here, farm.Here(), farm.grace, apply, candidates, i, gone, removed, rep0, mid, rep, since);
        BookDecided(led, candidates, i, gone, removed, mid, v, start.past, here.past, farm.past, farm.grace, since);
        led := Book(led, candidates[i], v);
      }
    }
    decided := |candidates|;
    assert candidates[..decided] == candidates;
  }

  lemma OneMoreAccounted(fs: seq<BlobFile>, i: nat, removed: seq<Digest>, ps: seq<Problem>, past: seq<Moment>,
                         recent: nat, since: nat)
    requires i < |fs| && AllAccounted(fs[..i], removed, ps, past, since) && since <= recent
    requires Accounted(fs[i].sha, removed, ps, past, recent)
    ensures AllAccounted(fs[..i + 1], removed, ps, past, since)
  {
    hide Seen;
    if Seen(true, fs[i].sha, past, recent) {
      SeenEarlier(true, fs[i].sha, past, past, recent, since);
    }
    assert fs[..i + 1] == fs[..i] + [fs[i]];
  }

  lemma NamedAccounted(fs: seq<BlobFile>, i: nat, removed: seq<Digest>, ps: seq<Problem>, before: seq<Moment>,
                       past: seq<Moment>,
                       since: nat, apply: bool)
    requires i < |fs| && before <= past && Seen(true, fs[i].sha, before, since)
    requires apply ==> AllAccounted(fs[..i], removed, ps, past, since)
    ensures apply ==> AllAccounted(fs[..i + 1], removed, ps, past, since)
  {
    hide Seen;
    SeenGrows(true, fs[i].sha, before, past, since);
    if apply {
      OneMoreAccounted(fs, i, removed, ps, past, since, since);
    }
  }

  lemma KeepLooking(before: seq<Moment>, after: seq<Moment>, grace: int, since: nat, sha: Digest, removed: seq<Digest>)
    requires before != [] && before <= after && since < |before|
    requires LookedTwice(removed, before, grace, since)
         || (removed != [] && removed[|removed| - 1] == sha
             && LookedTwice(removed[..|removed| - 1], before, grace, since)
             && Looked(sha, after, grace, |before| - 1))
    ensures LookedTwice(removed, after, grace, since)
  {
    hide Looked;
    if LookedTwice(removed, before, grace, since) {
      LookedTwiceGrows(removed, before, after, grace, since);
    } else {
      LookedTwiceGrows(removed[..|removed| - 1], before, after, grace, since);
      LookedGrows(sha, after, after, grace, |before| - 1, since);
      assert forall i :: 0 <= i < |removed| - 1 ==> removed[i] == removed[..|removed| - 1][i];
    }
  }

  lemma NothingDeleted(rep: Report)
    requires Balanced(rep, 0)
    ensures rep.deleted == 0
  {
  }

  lemma ReferencedBalanced(rep: Report, seen: nat)
    requires Balanced(rep, seen)
    ensures Balanced(rep.(referenced := rep.referenced + 1), seen + 1)
  {
  }

  lemma StoppedBalanced(rep: Report, seen: nat)
    requires Balanced(rep, seen)
    ensures Balanced(rep.(problems := rep.problems + [StoppedEarly]), seen)
  {
    RechecksSnoc(rep.problems, StoppedEarly);
  }

  /** Files past their grace period, in order, and how many were not. */
  method SplitByAge(files: seq<BlobFile>, cutoff: int, ghost now: Moment)
    returns (candidates: seq<BlobFile>, withinGrace: nat)
    requires Tracked(files, now)
    ensures Tracked(candidates, now) && |candidates| + withinGrace == |files|
    ensures forall i :: 0 <= i < |candidates| ==> candidates[i].blob.mtime <= cutoff
    ensures forall f :: f in candidates <==> f in files && f.blob.mtime <= cutoff
  {
    candidates, withinGrace := [], 0;
    for i := 0 to |files|
      invariant Tracked(candidates, now) && |candidates| + withinGrace == i
      invariant forall k :: 0 <= k < |candidates| ==> candidates[k].blob.mtime <= cutoff
      invariant forall k :: 0 <= k < |candidates| ==> exists j :: 0 <= j < i && files[j] == candidates[k]
      invariant forall j :: 0 <= j < i && files[j].blob.mtime <= cutoff ==> files[j] in candidates
    {
      if files[i].blob.mtime > cutoff {
        withinGrace := withinGrace + 1;
      } else {
        candidates := candidates + [files[i]];
      }
    }
  }

  /** After the final check, a removed digest is reported as raced exactly when
      the check saw it named, or the report says the check could not be made. */
  ghost predicate RacesReported(removed: seq<Digest>, ps: seq<Problem>, past: seq<Moment>, since: nat) {
    Unconfirmed in ps || forall i :: 0 <= i < |removed| ==> Seen(Raced(removed[i]) in ps, removed[i], past, since)
  }

  method ReportLostRaces(farm: Farm, removed: seq<Digest>, rep0: Report) returns (rep: Report)
    requires farm.Valid() && NoneRaced(rep0.problems)
    requires forall i, j :: 0 <= i < j < |removed| ==> removed[i] != removed[j]
    modifies farm`now, farm`past, farm`schedule, farm`queryFaults
    ensures farm.Valid() && old(farm.past) <= farm.past && Grown(old(farm.now), farm.now)
    ensures farm.queryFaults == old(farm.queryFaults) + if Unconfirmed in rep.problems then 1 else 0
    ensures rep == rep0.(problems := rep.problems) && Rechecks(rep.problems) == Rechecks(rep0.problems)
    ensures StoppedEarly in rep.problems <==> StoppedEarly in rep0.problems
    ensures RacesReported(removed, rep.problems, farm.past, |old(farm.past)| - 1)
    ensures rep0.problems <= rep.problems
  {
    hide Flows, RemovalsJustified, Rechecks, Seen;
    rep := rep0;
    var ok, named := NamedDigests(farm, removed);
    if !ok {
      RechecksSnoc(rep.problems, Unconfirmed);
      rep := rep.(problems := rep.problems + [Unconfirmed]);
      return;
    }
    var ps := rep.problems;
    for i := 0 to |removed|
      modifies {}
      invariant Rechecks(ps) == Rechecks(rep0.problems) && rep0.problems <= ps && Unconfirmed !in ps
      invariant StoppedEarly in ps <==> StoppedEarly in rep0.problems
      invariant forall sha :: Raced(sha) in ps <==> sha in removed[..i] && sha in named
    {
      if removed[i] in named {
        RechecksSnoc(ps, Raced(removed[i]));
        ps := ps + [Raced(removed[i])];
      }
      assert removed[..i + 1] == removed[..i] + [removed[i]];
    }
    assert removed[..|removed|] == removed;
    rep := rep.(problems := ps);
  }

  // ---------------------------------------------------------------------
  // What a sweep promises
  // ---------------------------------------------------------------------

  datatype Status = ScanFailed | Swept

  /** One sweep: what it was asked, what it answered, the instant it began, and
      the instant at which it had unlinked all it would. */
  datatype SweepRun = SweepRun(
    apply: bool, tops: seq<TopEntry>, status: Status, rep: Report, removed: seq<Digest>, since: nat, checkFrom: nat,
    decided: seq<BlobFile>, books: Ledger)

  /** Listed as a blob, and on disk past its grace period at instant m. */
  ghost predicate DueAt(tops: seq<TopEntry>, m: Moment, grace: int, sha: Digest) {
    IsListed(tops, sha) && sha in m.disk && m.disk[sha].mtime + grace <= m.clock
  }

  ghost predicate Sums(rep: Report) {
    && (StoppedEarly !in rep.problems ==>
          rep.scanned == rep.withinGrace + rep.referenced + rep.adopted + rep.collectable + Rechecks(rep.problems))
    && rep.deleted <= rep.collectable && rep.freed <= rep.reclaimable
    && |rep.blobs| == (if rep.collectable <= LIST_LIMIT then rep.collectable else LIST_LIMIT)
    && rep.truncated == (rep.collectable > LIST_LIMIT)
  }

  ghost predicate DueAccounted(run: SweepRun, past: seq<Moment>, grace: int)
    requires run.since < |past|
  {
    forall sha :: DueAt(run.tops, past[run.since], grace, sha) ==>
      Accounted(sha, run.removed, run.rep.problems, past, run.since)
  }

  /** Every digest removed was looked at twice and unlinked between the beginning
      and checkFrom; from checkFrom on, each was looked for once more and is
      reported exactly when it was named then, unless the report says that check
      could not be made; the counters add up; and unless it stopped early, every
      listed file that was due at the beginning is accounted for. */
  ghost predicate Promised(run: SweepRun, past: seq<Moment>, grace: int) {
    && run.since <= run.checkFrom < |past|
    && run.rep.deleted == |run.removed|
    && (!run.apply || run.status == ScanFailed ==> run.removed == [])
    && LookedTwice(run.removed, past[..run.checkFrom + 1], grace, run.since)
    && (run.status == Swept ==> Sums(run.rep) && RacesReported(run.removed, run.rep.problems, past, run.checkFrom))
    && (run.status == Swept && run.apply && StoppedEarly !in run.rep.problems ==> DueAccounted(run, past, grace))
    && (run.status == Swept ==> Booked(run.books, run.decided, run.removed, run.rep, past, grace, run.since))
    && (run.status == Swept && StoppedEarly !in run.rep.problems ==>
          forall sha :: DueAt(run.tops, past[run.since], grace, sha) ==> Found(run.decided, sha))
    && (!run.apply ==> run.books.adopted == [] && run.books.unasked == [])
  }

  /** Dry or not, a sweep that was not stopped early settles every listed file that
      was due when it began: it was seen named, it is counted and listed as
      collectable, or, when applying, the second question about it failed. */
  lemma DueSettled(run: SweepRun, past: seq<Moment>, grace: int, sha: Digest)
    requires Promised(run, past, grace) && run.status == Swept && StoppedEarly !in run.rep.problems
    requires DueAt(run.tops, past[run.since], grace, sha)
    ensures || Seen(true, sha, past, run.since)
            || Found(run.books.collected, sha)
            || (run.apply && RecheckFailed(sha) in run.rep.problems)
  {
    hide Seen, DueAt, Unneeded, DueAccounted, Sums, LookedTwice, RacesReported, Itemised, Rechecks;
    var led := run.books;
    var k :| 0 <= k < |run.decided| && run.decided[k].sha == sha;
    var f := run.decided[k];
    assert f in multiset(run.decided);
    if f in multiset(led.collected) {
      var j :| 0 <= j < |led.collected| && led.collected[j] == f;
      assert led.collected[j].sha == sha;
    } else if f in multiset(led.unasked) {
      assert f in led.unasked;
    } else if f in multiset(led.referenced) {
      assert f in led.referenced;
    } else {
      assert f in multiset(led.adopted);
      assert f in led.adopted;
    }
  }

  lemma PromisedBounds(run: SweepRun, past: seq<Moment>, grace: int)
    requires Promised(run, past, grace)
    ensures run.since <= run.checkFrom < |past|
  {
  }

  lemma PromisedGrows(run: SweepRun, past: seq<Moment>, after: seq<Moment>, grace: int)
    requires Promised(run, past, grace) && past <= after
    ensures Promised(run, after, grace)
  {
    hide Seen, LookedTwice, Sums, DueAt, Columns, Backed, Itemised, Found;
    assert past[..run.checkFrom + 1] == after[..run.checkFrom + 1];
    if run.status == Swept {
      BackedGrows(run.books, run.rep.problems, run.rep.problems, past, after, grace, run.since);
      forall i | 0 <= i < |run.removed| && Unconfirmed !in run.rep.problems
        ensures Seen(Raced(run.removed[i]) in run.rep.problems, run.removed[i], after, run.checkFrom)
      {
        SeenGrows(Raced(run.removed[i]) in run.rep.problems, run.removed[i], past, after, run.checkFrom);
      }
      if run.apply && StoppedEarly !in run.rep.problems {
        forall sha | DueAt(run.tops, after[run.since], grace, sha)
          ensures Accounted(sha, run.removed, run.rep.problems, after, run.since)
        {
          if Seen(true, sha, past, run.since) {
            SeenGrows(true, sha, past, after, run.since);
          }
        }
      }
    }
  }

  /** What was due at the beginning was found, is past the cutoff, and so is a
      candidate. */
  lemma DueIsCandidate(tops: seq<TopEntry>, start: Moment, now: Moment, grace: int, files: seq<BlobFile>,
                       candidates: seq<BlobFile>, sha: Digest)
    requires DueAt(tops, start, grace, sha) && Grown(start, now) && Tracked(files, now)
    requires forall s :: IsListed(tops, s) && s in start.disk ==> Found(files, s)
    requires forall f :: f in candidates <==> f in files && f.blob.mtime <= now.clock - grace
    ensures Found(candidates, sha)
  {
    hide IsListed;
    assert Found(files, sha);
    var k :| 0 <= k < |files| && files[k].sha == sha;
    assert OnDisk(files[k], now);
    assert files[k] in candidates;
    var i :| 0 <= i < |candidates| && candidates[i] == files[k];
    assert candidates[i].sha == sha;
  }

  lemma CandidatesCoverDue(tops: seq<TopEntry>, start: Moment, now: Moment, grace: int, files: seq<BlobFile>,
                           candidates: seq<BlobFile>)
    requires Grown(start, now) && Tracked(files, now)
    requires forall s :: IsListed(tops, s) && s in start.disk ==> Found(files, s)
    requires forall f :: f in candidates <==> f in files && f.blob.mtime <= now.clock - grace
    ensures forall sha :: DueAt(tops, start, grace, sha) ==> Found(candidates, sha)
  {
    hide DueAt, Grown, Tracked, IsListed, Found;
    forall sha | DueAt(tops, start, grace, sha)
      ensures Found(candidates, sha)
    {
      DueIsCandidate(tops, start, now, grace, files, candidates, sha);
    }
  }

  lemma AllDueAccounted(run: SweepRun, candidates: seq<BlobFile>, past: seq<Moment>, grace: int)
    requires run.since < |past| && AllAccounted(candidates, run.removed, run.rep.problems, past, run.since)
    requires forall sha :: DueAt(run.tops, past[run.since], grace, sha) ==> Found(candidates, sha)
    ensures DueAccounted(run, past, grace)
  {
    hide DueAt, Accounted;
    forall sha | DueAt(run.tops, past[run.since], grace, sha)
      ensures Accounted(sha, run.removed, run.rep.problems, past, run.since)
    {
      var i :| 0 <= i < |candidates| && candidates[i].sha == sha;
      assert Accounted(candidates[i].sha, run.removed, run.rep.problems, past, run.since);
    }
  }

  lemma BalancedSums(rep: Report, decided: nat, due: nat)
    requires Balanced(rep, decided) && due + rep.withinGrace == rep.scanned
    requires StoppedEarly in rep.problems || decided == due
    ensures Sums(rep)
  {
  }

  lemma NothingRemoved(past: seq<Moment>, grace: int, since: nat, ps: seq<Problem>, from: nat)
    ensures LookedTwice([], past, grace, since) && RacesReported([], ps, past, from)
  {
  }

  /** The first half of a sweep: what is on disk, which of it is past its grace, and
      which of that something names. */
  method Scan(farm: Farm, tops: seq<TopEntry>)
    returns (ok: bool, rep: Report, candidates: seq<BlobFile>, named: set<Digest>)
    requires farm.Valid() && DistinctNames(tops)
    modifies farm`now, farm`past, farm`schedule, farm`queryFaults
    ensures farm.Valid() && old(farm.past) <= farm.past && LostOnly(old(farm.now), farm.now, [])
    ensures farm.queryFaults == old(farm.queryFaults) + if ok then 0 else 1
    ensures Blank(rep) && Balanced(rep, 0) && NoneRaced(rep.problems) && rep.deleted == 0
    ensures Rechecks(rep.problems) == 0 && StoppedEarly !in rep.problems
    ensures |candidates| + rep.withinGrace == rep.scanned
    ensures forall sha :: DueAt(tops, old(farm.now), farm.grace, sha) ==> Found(candidates, sha)
    ensures Tracked(candidates, farm.now)
    ensures forall i :: 0 <= i < |candidates| ==> candidates[i].blob.mtime + farm.grace <= farm.now.clock
    ensures ok ==> forall i :: 0 <= i < |candidates| && candidates[i].sha in named ==>
              Seen(true, candidates[i].sha, farm.past, |old(farm.past)| - 1)
    ensures ok ==> forall i :: 0 <= i < |candidates| && candidates[i].sha !in named ==>
              Unneeded(candidates[i], farm.past, farm.grace, |old(farm.past)| - 1)
  {
    hide DueAt, Flows, RemovalsJustified, Rechecks, Seen, DistinctNames, Walked, Found, IsListed, Answered, Unneeded,
         GrewFrom;
    ghost var since, start := |farm.past| - 1, farm.now;
    var files, unrecognised, problems := Enumerate(farm, tops);
    farm.Elapse();
    var cutoff := farm.now.clock - farm.grace;
    var withinGrace;
    candidates, withinGrace := SplitByAge(files, cutoff, farm.now);
    CandidatesCoverDue(tops, start, farm.now, farm.grace, files, candidates);
    rep := Report(|files|, unrecognised, 0, withinGrace, 0, 0, 0, 0, 0, [], false, problems);
    NoRechecks(problems);
    var shas := seq(|candidates|, i requires 0 <= i < |candidates| => candidates[i].sha);
    ghost var queried, asking := |farm.past| - 1, farm.now;
    ok, named := NamedDigests(farm, shas);
    if ok {
      AnsweredNamed(candidates, shas, named, farm.past, queried, since);
      AllUnneeded(candidates, shas, named, farm.past, farm.grace, queried, since, asking);
    }
  }

  /** The whole sweep. `farm.Valid()` carries across it that every removal in
      history was of a file past its grace and unnamed at its second look. When
      no query fails the sweep and its final check are made, and no recheck is
      noted; when no unlink fails all that is collectable is deleted. What it
      unlinked is exactly `removed`, nothing else left the disk, and it stops
      early only for a caller whose patience ends before the last candidate. */
  method Sweep(farm: Farm, apply: bool, patience: nat, tops: seq<TopEntry>)
    returns (status: Status, rep: Report, removed: seq<Digest>, ghost checkFrom: nat, ghost decided: seq<BlobFile>,
             ghost books: Ledger)
    requires farm.Valid() && DistinctNames(tops)
    modifies farm
    ensures farm.Valid() && old(farm.past) <= farm.past
    ensures Promised(SweepRun(apply, tops, status, rep, removed, |old(farm.past)| - 1, checkFrom, decided, books),
                     farm.past, farm.grace)
    ensures farm.unlinked == old(farm.unlinked) + removed
    ensures LostOnly(old(farm.now), farm.now, removed)
    ensures StoppedEarly in rep.problems ==> patience < rep.scanned - rep.withinGrace
    ensures farm.queryFaults == old(farm.queryFaults) ==>
              status == Swept && Unconfirmed !in rep.problems && Rechecks(rep.problems) == 0
    ensures farm.unlinkFaults == old(farm.unlinkFaults) && apply && status == Swept ==> rep.deleted == rep.collectable
  {
    hide AllAccounted, DueAt, Flows, RemovalsJustified, Rechecks, Seen, LookedTwice, DistinctNames, Found,
         RacesReported, Sums, Booked, Unneeded, Promised, DueAccounted, Tracked, Blank, LostOnly;
    ghost var since, start := |farm.past| - 1, farm.now;
    removed, checkFrom, decided, books := [], since, [], Ledger([], [], [], []);
    var ok, candidates, named;
    ok, rep, candidates, named := Scan(farm, tops);
    if !ok {
      ScanPromised(SweepRun(apply, tops, ScanFailed, rep, [], since, since, [], books), farm.past, farm.grace);
      return ScanFailed, rep, [], since, [], books;
    }
    ghost var count, before := 0, farm.past;
    ghost var then_ := farm.now;
    rep, removed, count, books := Decide(farm, apply, patience, candidates, named, rep, since);
    decided := candidates[..count];
    LostOnlyTrans(start, then_, farm.now, [], removed);
    assert candidates[..|candidates|] == candidates;
    KeepLookingFrom(removed, farm.past, farm.grace, |before| - 1, since);
    BalancedSums(rep, count, |candidates|);
    checkFrom := |farm.past| - 1;
    status := Swept;
    ghost var looked, noted, end := farm.past, rep, farm.now;
    assert looked == looked[..checkFrom + 1];
    if removed != [] {
      rep := ReportLostRaces(farm, removed, rep);
      SumsKept(noted, rep);
      BooksKept(books, decided, removed, noted, rep, looked, farm.past, farm.grace, since);
    } else {
      NothingRemoved(farm.past, farm.grace, since, rep.problems, checkFrom);
    }
    assert farm.past[..checkFrom + 1] == looked;
    LostOnlyTrans(start, end, farm.now, removed, removed);
    if apply && StoppedEarly !in rep.problems {
      AccountedGrows(candidates, removed, removed, noted.problems, rep.problems, looked, farm.past, since, since);
      AllDueAccounted(SweepRun(apply, tops, status, rep, removed, since, checkFrom, decided, books), candidates,
                      farm.past, farm.grace);
    }
    SweepPromised(SweepRun(apply, tops, status, rep, removed, since, checkFrom, decided, books), farm.past, farm.grace);
  }

  lemma ScanPromised(run: SweepRun, past: seq<Moment>, grace: int)
    requires run.status == ScanFailed && run.removed == [] && run.rep.deleted == 0
    requires run.since <= run.checkFrom < |past| && run.books.adopted == [] && run.books.unasked == []
    ensures Promised(run, past, grace)
  {
  }

  lemma SweepPromised(run: SweepRun, past: seq<Moment>, grace: int)
    requires run.status == Swept && run.since <= run.checkFrom < |past| && run.rep.deleted == |run.removed|
    requires !run.apply ==> run.removed == [] && run.books.adopted == [] && run.books.unasked == []
    requires LookedTwice(run.removed, past[..run.checkFrom + 1], grace, run.since)
    requires Sums(run.rep) && RacesReported(run.removed, run.rep.problems, past, run.checkFrom)
    requires run.apply && StoppedEarly !in run.rep.problems ==> DueAccounted(run, past, grace)
    requires Booked(run.books, run.decided, run.removed, run.rep, past, grace, run.since)
    requires StoppedEarly !in run.rep.problems ==>
               forall sha :: DueAt(run.tops, past[run.since], grace, sha) ==> Found(run.decided, sha)
    ensures Promised(run, past, grace)
  {
    hide LookedTwice, Sums, RacesReported, DueAccounted, Booked, DueAt, Found;
  }

  lemma BooksKept(led: Ledger, fs: seq<BlobFile>, removed: seq<Digest>, before: Report, after: Report,
                  past: seq<Moment>, later: seq<Moment>, grace: int, since: nat)
    requires Booked(led, fs, removed, before, past, grace, since) && past <= later
    requires after == before.(problems := after.problems) && before.problems <= after.problems
    requires Rechecks(after.problems) == Rechecks(before.problems)
    ensures Booked(led, fs, removed, after, later, grace, since)
  {
    hide Rechecks, Backed, Sizes, SizesOf, Found;
    BackedGrows(led, before.problems, after.problems, past, later, grace, since);
  }

  /** A candidate the query did not name was on disk, past its grace and unnamed at
      the instant it was asked about. */
  lemma AllUnneeded(fs: seq<BlobFile>, shas: seq<Digest>, named: set<Digest>, past: seq<Moment>, grace: int,
                    queried: nat, since: nat, asking: Moment)
    requires |shas| == |fs| && (forall i :: 0 <= i < |fs| ==> shas[i] == fs[i].sha)
    requires Answered(named, shas, past, queried) && since <= queried && GrewFrom(past, queried, asking)
    requires forall i :: 0 <= i < |fs| ==> OnDisk(fs[i], asking) && fs[i].blob.mtime + grace <= asking.clock
    ensures forall i :: 0 <= i < |fs| && fs[i].sha !in named ==> Unneeded(fs[i], past, grace, since)
  {
    forall i | 0 <= i < |fs| && fs[i].sha !in named
      ensures Unneeded(fs[i], past, grace, since)
    {
      assert Seen(shas[i] in named, shas[i], past, queried);
      var k: nat :| SeenAs(false, fs[i].sha, past, queried, k);
      assert Grown(asking, past[k]);
      assert UnneededAt(fs[i], past, grace, since, k);
    }
  }

  /** The final check adds problems only. */
  lemma SumsKept(before: Report, after: Report)
    requires Sums(before) && after == before.(problems := after.problems)
    requires Rechecks(after.problems) == Rechecks(before.problems)
    requires StoppedEarly in after.problems <==> StoppedEarly in before.problems
    ensures Sums(after)
  {
  }

  lemma AnsweredNamed(fs: seq<BlobFile>, shas: seq<Digest>, named: set<Digest>, past: seq<Moment>, since: nat,
                      since': nat)
    requires |shas| == |fs| && (forall i :: 0 <= i < |fs| ==> shas[i] == fs[i].sha)
    requires Answered(named, shas, past, since) && since' <= since
    ensures forall i :: 0 <= i < |fs| && fs[i].sha in named ==> Seen(true, fs[i].sha, past, since')
  {
    hide Seen;
    forall i | 0 <= i < |fs| && fs[i].sha in named
      ensures Seen(true, fs[i].sha, past, since')
    {
      assert Seen(shas[i] in named, shas[i], past, since);
      SeenEarlier(true, fs[i].sha, past, past, since, since');
    }
  }

  lemma KeepLookingFrom(removed: seq<Digest>, past: seq<Moment>, grace: int, since: nat, since': nat)
    requires LookedTwice(removed, past, grace, since) && since' <= since
    ensures LookedTwice(removed, past, grace, since')
  {
    forall i | 0 <= i < |removed|
      ensures Looked(removed[i], past, grace, since')
    {
      LookedGrows(removed[i], past, past, grace, since, since');
    }
  }

  datatype Asked = Asked(apply: bool, patience: nat, tops: seq<TopEntry>)

  ghost function AllRemoved(runs: seq<SweepRun>): seq<Digest> {
    if runs == [] then [] else AllRemoved(runs[..|runs| - 1]) + runs[|runs| - 1].removed
  }

  /** Sweep by sweep: what was asked, the report given, and the promises kept. */
  ghost predicate RunsOk(asked: seq<Asked>, reports: seq<Report>, runs: seq<SweepRun>, past: seq<Moment>, grace: int) {
    && |reports| == |runs| == |asked|
    && (forall i :: 0 <= i < |runs| ==>
          runs[i].apply == asked[i].apply && runs[i].tops == asked[i].tops && runs[i].rep == reports[i])
    && (forall i :: 0 <= i < |runs| ==> Promised(runs[i], past, grace))
    && (forall i :: 0 <= i < |runs| - 1 ==> runs[i].checkFrom <= runs[i + 1].since)
  }

  lemma RunsSnoc(asked: seq<Asked>, reports: seq<Report>, runs: seq<SweepRun>, before: seq<Moment>, past: seq<Moment>,
                 grace: int, next: Asked, run: SweepRun)
    requires RunsOk(asked, reports, runs, before, grace) && before <= past
    requires Promised(run, past, grace) && run.apply == next.apply && run.tops == next.tops && |before| - 1 <= run.since
    ensures RunsOk(asked + [next], reports + [run.rep], runs + [run], past, grace)
    ensures AllRemoved(runs + [run]) == AllRemoved(runs) + run.removed
  {
    hide Promised;
    assert (runs + [run])[..|runs|] == runs;
    forall i | 0 <= i < |runs|
      ensures Promised(runs[i], past, grace) && runs[i].checkFrom < |before|
    {
      PromisedGrows(runs[i], before, past, grace);
      PromisedBounds(runs[i], before, grace);
    }
  }

  /** Any number of sweeps, one after another, each over its own listing: every
      one keeps its promises, still kept when the last is over, and no removal in
      the whole history was of a file young or named at its second look. What
      was unlinked is exactly what the sweeps account for. */
  method SweepRepeatedly(farm: Farm, asked: seq<Asked>) returns (reports: seq<Report>, ghost runs: seq<SweepRun>)
    requires farm.Valid() && forall i :: 0 <= i < |asked| ==> DistinctNames(asked[i].tops)
    modifies farm
    ensures farm.unlinked == old(farm.unlinked) + AllRemoved(runs)
    ensures Flows(farm.past) && RemovalsJustified(farm.past, farm.grace) && old(farm.past) <= farm.past
    ensures RunsOk(asked, reports, runs, farm.past, farm.grace)
  {
    hide Flows, RemovalsJustified, DistinctNames, Promised, LostOnly, Rechecks, RunsOk, AllRemoved;
    reports, runs := [], [];
    assert asked[..0] == [];
    NoRuns(farm.past, farm.grace);
    for i := 0 to |asked|
      invariant farm.Valid() && old(farm.past) <= farm.past
      invariant farm.unlinked == old(farm.unlinked) + AllRemoved(runs)
      invariant RunsOk(asked[..i], reports, runs, farm.past, farm.grace)
    {
      ghost var before := farm.past;
      farm.Elapse();
      ghost var since := |farm.past| - 1;
      var status, rep, removed;
      ghost var from, decided, books;
      status, rep, removed, from, decided, books := Sweep(farm, asked[i].apply, asked[i].patience, asked[i].tops);
      ghost var run := SweepRun(asked[i].apply, asked[i].tops, status, rep, removed, since, from, decided, books);
      RunsSnoc(asked[..i], reports, runs, before, farm.past, farm.grace, asked[i], run);
      assert asked[..i + 1] == asked[..i] + [asked[i]];
      reports, runs := reports + [rep], runs + [run];
    }
    assert asked[..|asked|] == asked;
  }

  lemma NoRuns(past: seq<Moment>, grace: int)
    ensures RunsOk([], [], [], past, grace) && AllRemoved([]) == []
  {
  }

  // ---------------------------------------------------------------------
  // What is filed as a blob
  // ---------------------------------------------------------------------

  /** Digits and the letters a to f. */
  lemma HexGrows(s: string, c: char)
    ensures LowerHex("")
    ensures LowerHex(s + [c]) <==> LowerHex(s) && ('0' <= c <= '9' || c in {'a', 'b', 'c', 'd', 'e', 'f'})
  {
    assert forall i :: 0 <= i < |s| ==> (s + [c])[i] == s[i];
    assert (s + [c])[|s|] == c;
  }

  /** A regular file named by 64 hex digits, in a readable directory named by the
      first two of them. */
  lemma FiledAsBlob(top: TopEntry, e: DirEntry)
    ensures Qualifies(top, e) <==>
            && top.isDir && top.readable && |top.name| == 2 && LowerHex(top.name)
            && !e.isDir && e.regular && e.statOk && |e.name| == 64 && LowerHex(e.name) && top.name <= e.name
  {
    if |e.name| == 64 && |top.name| == 2 {
      assert top.name <= e.name <==> e.name[..2] == top.name;
    }
  }
}
