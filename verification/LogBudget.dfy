/** The two-pot budget of a job's rendered logs, and the row loop that spends it. */
module LogBudget {
  import opened Options
  import opened Bytes

  const FULL: nat := 0x20_0000
  const RESERVE: nat := FULL / 4

  /** What the budget holds: the shared pot, the errors' own, and the count of
      fields dropped whole. */
  datatype Pots = Pots(shared: nat, reserved: nat, omitted: nat)

  const START := Pots(FULL - RESERVE, RESERVE, 0)

  predicate Fits(p: Pots, n: nat) {
    n <= p.shared
  }

  predicate ErrorFits(p: Pots, n: nat) {
    n <= p.reserved || n <= p.shared
  }

  function Spent(p: Pots, n: nat): Pots {
    if Fits(p, n) then p.(shared := p.shared - n) else p.(omitted := p.omitted + 1)
  }

  function SpentError(p: Pots, n: nat): Pots {
    if n <= p.reserved then p.(reserved := p.reserved - n) else Spent(p, n)
  }

  /** One stored step: a missing error or output, or an empty detail, is not
      charged at all. */
  datatype Row = Row(error: Option<bytes>, output: Option<bytes>, detail: bytes)

  datatype View = View(
    error: bytes, errorOmitted: bool, output: bytes, outputOmitted: bool, detail: bytes, detailOmitted: bool)

  function AfterError(p: Pots, r: Row): Pots {
    if r.error.Some? then SpentError(p, |r.error.value|) else p
  }

  function AfterOutput(p: Pots, r: Row): Pots {
    var q := AfterError(p, r);
    if r.output.Some? then Spent(q, |r.output.value|) else q
  }

  function AfterRow(p: Pots, r: Row): Pots {
    var q := AfterOutput(p, r);
    if r.detail != [] then Spent(q, |r.detail|) else q
  }

  /** A field as it is rendered: whole, or nothing and flagged. */
  function Kept(field: bytes, fits: bool): bytes {
    if fits then field else []
  }

  function OrNothing(field: Option<bytes>): bytes {
    if field.Some? then field.value else []
  }

  function ViewOf(p: Pots, r: Row): View {
    var e := r.error.Some? && !ErrorFits(p, |r.error.value|);
    var o := r.output.Some? && !Fits(AfterError(p, r), |r.output.value|);
    var d := r.detail != [] && !Fits(AfterOutput(p, r), |r.detail|);
    View(Kept(OrNothing(r.error), !e), e, Kept(OrNothing(r.output), !o), o, Kept(r.detail, !d), d)
  }

  function PotsAfter(rows: seq<Row>): Pots {
    if rows == [] then START else AfterRow(PotsAfter(rows[..|rows| - 1]), rows[|rows| - 1])
  }

  function Views(rows: seq<Row>): (vs: seq<View>)
    ensures |vs| == |rows|
  {
    if rows == [] then []
    else Views(rows[..|rows| - 1]) + [ViewOf(PotsAfter(rows[..|rows| - 1]), rows[|rows| - 1])]
  }

  // ---------------------------------------------------------------------
  // The budget and the loop
  // ---------------------------------------------------------------------

  class Budget {
    var shared: nat
    var reserved: nat
    var omitted: nat

    ghost function Contents(): Pots
      reads this
    {
      Pots(shared, reserved, omitted)
    }

    constructor ()
      ensures Contents() == START
    {
      shared, reserved, omitted := FULL - RESERVE, RESERVE, 0;
    }

    method Spend(n: nat) returns (ok: bool)
      modifies this
      ensures ok == Fits(old(Contents()), n)
      ensures Contents() == Spent(old(Contents()), n)
    {
      if n > shared {
        omitted := omitted + 1;
        return false;
      }
      shared := shared - n;
      return true;
    }

    method SpendError(n: nat) returns (ok: bool)
      modifies this
      ensures ok == ErrorFits(old(Contents()), n)
      ensures Contents() == SpentError(old(Contents()), n)
    {
      if n <= reserved {
        reserved := reserved - n;
        return true;
      }
      ok := Spend(n);
    }

    method RenderRow(r: Row) returns (v: View)
      modifies this
      ensures Contents() == AfterRow(old(Contents()), r)
      ensures v == ViewOf(old(Contents()), r)
    {
      v := View([], false, [], false, [], false);
      if r.error.Some? {
        var ok := SpendError(|r.error.value|);
        v := if ok then v.(error := r.error.value) else v.(errorOmitted := true);
      }
      assert Contents() == AfterError(old(Contents()), r);
      if r.output.Some? {
        var ok := Spend(|r.output.value|);
        v := if ok then v.(output := r.output.value) else v.(outputOmitted := true);
      }
      assert Contents() == AfterOutput(old(Contents()), r);
      if |r.detail| > 0 {
        var ok := Spend(|r.detail|);
        v := if ok then v.(detail := r.detail) else v.(detailOmitted := true);
      }
    }
  }

  /** The handler's loop over the rows. */
  method Render(rows: seq<Row>) returns (out: seq<View>, omitted: nat)
    ensures out == Views(rows)
    ensures omitted == Flags(out)
    ensures ErrorBytes(out) + BulkBytes(out) <= 2_097_152
    ensures BulkBytes(out) <= 1_572_864
  {
    var budget := new Budget();
    out := [];
    for i := 0 to |rows|
      invariant out == Views(rows[..i])
      invariant budget.Contents() == PotsAfter(rows[..i])
    {
      assert rows[..i + 1][..i] == rows[..i];
      var v := budget.RenderRow(rows[i]);
      out := out + [v];
    }
    assert rows[..|rows|] == rows;
    omitted := budget.omitted;
    BytesConserved(rows);
    OmittedCounts(rows);
  }

  // ---------------------------------------------------------------------
  // What it promises
  // ---------------------------------------------------------------------

  function ErrorBytes(vs: seq<View>): nat {
    if vs == [] then 0 else ErrorBytes(vs[..|vs| - 1]) + |vs[|vs| - 1].error|
  }

  function BulkBytes(vs: seq<View>): nat {
    if vs == [] then 0 else BulkBytes(vs[..|vs| - 1]) + |vs[|vs| - 1].output| + |vs[|vs| - 1].detail|
  }

  function Flag(b: bool): nat {
    if b then 1 else 0
  }

  function Flags(vs: seq<View>): nat {
    if vs == [] then 0
    else
      var v := vs[|vs| - 1];
      Flags(vs[..|vs| - 1]) + Flag(v.errorOmitted) + Flag(v.outputOmitted) + Flag(v.detailOmitted)
  }

  /** A row's rendered bytes leave the pots; its output and detail, the shared one. */
  lemma RowConserves(p: Pots, r: Row)
    ensures var q, v := AfterRow(p, r), ViewOf(p, r);
            && q.shared + q.reserved + |v.error| + |v.output| + |v.detail| == p.shared + p.reserved
            && q.shared + |v.output| + |v.detail| <= p.shared
  {
  }

  /** Every byte rendered left one of the pots, and nothing else did; output and
      detail never reach the reserve. */
  lemma {:induction false} BytesConserved(rows: seq<Row>)
    ensures var p, vs := PotsAfter(rows), Views(rows);
            && p.shared + p.reserved + ErrorBytes(vs) + BulkBytes(vs) == FULL
            && p.shared + BulkBytes(vs) <= FULL - RESERVE
  {
    if rows != [] {
      var k := |rows| - 1;
      BytesConserved(rows[..k]);
      assert Views(rows)[..k] == Views(rows[..k]);
      RowConserves(PotsAfter(rows[..k]), rows[k]);
      hide AfterRow, ViewOf;
    }
  }

  lemma {:induction false} OmittedCounts(rows: seq<Row>)
    ensures PotsAfter(rows).omitted == Flags(Views(rows))
  {
    if rows != [] {
      var k := |rows| - 1;
      OmittedCounts(rows[..k]);
      assert Views(rows)[..k] == Views(rows[..k]);
    }
  }

  /** The stored errors of the rows, together. */
  function StoredErrors(rows: seq<Row>): nat {
    if rows == [] then 0 else StoredErrors(rows[..|rows| - 1]) + |OrNothing(rows[|rows| - 1].error)|
  }

  /** As long as the errors so far fit the reserve, they come out of it alone. */
  lemma {:induction false} ReserveIsForErrors(rows: seq<Row>)
    requires StoredErrors(rows) <= RESERVE
    ensures PotsAfter(rows).reserved == RESERVE - StoredErrors(rows)
  {
    if rows != [] {
      ReserveIsForErrors(rows[..|rows| - 1]);
    }
  }

  lemma {:induction false} ViewAt(rows: seq<Row>, i: nat)
    requires i < |rows|
    ensures Views(rows)[i] == ViewOf(PotsAfter(rows[..i]), rows[i])
  {
    hide ViewOf, PotsAfter;
    var k := |rows| - 1;
    if i < k {
      ViewAt(rows[..k], i);
      assert rows[..k][..i] == rows[..i];
    }
  }

  lemma {:induction false} StoredErrorsGrow(rows: seq<Row>, i: nat)
    requires i <= |rows|
    ensures StoredErrors(rows[..i]) <= StoredErrors(rows)
  {
    if i == |rows| {
      assert rows[..i] == rows;
    } else {
      var k := |rows| - 1;
      StoredErrorsGrow(rows[..k], i);
      assert rows[..k][..i] == rows[..i];
    }
  }

  /** An error is rendered whole, whatever output surrounds it, as long as the
      errors up to and including it fit the reserve. */
  lemma ErrorKept(rows: seq<Row>, i: nat)
    requires i < |rows| && StoredErrors(rows[..i + 1]) <= 524_288
    ensures !Views(rows)[i].errorOmitted && Views(rows)[i].error == OrNothing(rows[i].error)
  {
    ViewAt(rows, i);
    assert rows[..i + 1][..i] == rows[..i];
    ReserveIsForErrors(rows[..i]);
  }

  lemma AllErrorsKept(rows: seq<Row>)
    requires StoredErrors(rows) <= 524_288
    ensures forall i :: 0 <= i < |rows| ==>
              !Views(rows)[i].errorOmitted && Views(rows)[i].error == OrNothing(rows[i].error)
  {
    hide Views, StoredErrors;
    forall i | 0 <= i < |rows|
      ensures !Views(rows)[i].errorOmitted && Views(rows)[i].error == OrNothing(rows[i].error)
    {
      StoredErrorsGrow(rows, i + 1);
      ErrorKept(rows, i);
    }
  }

  predicate WholeOrFlagged(stored: bytes, rendered: bytes, omitted: bool) {
    if omitted then rendered == [] else rendered == stored
  }

  /** No field is ever cut: it is rendered whole, or not at all and flagged; and a
      row that stores nothing of a kind is never flagged for it. */
  lemma FieldsWhole(rows: seq<Row>, i: nat)
    requires i < |rows|
    ensures var r, v := rows[i], Views(rows)[i];
            && WholeOrFlagged(OrNothing(r.error), v.error, v.errorOmitted)
            && WholeOrFlagged(OrNothing(r.output), v.output, v.outputOmitted)
            && WholeOrFlagged(r.detail, v.detail, v.detailOmitted)
            && (r.error.None? ==> !v.errorOmitted) && (r.output.None? ==> !v.outputOmitted)
            && (r.detail == [] ==> !v.detailOmitted)
  {
    ViewAt(rows, i);
  }

  /** Nothing is dropped while there is room: a dropped field, added to what was
      rendered before it, would have passed three quarters of the budget. */
  lemma DroppedForRoom(rows: seq<Row>, i: nat)
    requires i < |rows|
    ensures var r, v := rows[i], Views(rows)[i];
            var before := ErrorBytes(Views(rows[..i])) + BulkBytes(Views(rows[..i]));
            && (v.errorOmitted ==> before + |OrNothing(r.error)| > FULL - RESERVE)
            && (v.outputOmitted ==> before + |v.error| + |OrNothing(r.output)| > FULL - RESERVE)
            && (v.detailOmitted ==> before + |v.error| + |v.output| + |r.detail| > FULL - RESERVE)
  {
    ViewAt(rows, i);
    SharedLeast(rows[..i]);
  }

  /** The shared pot has paid for the bulk and at most all the errors. */
  lemma SharedLeast(rows: seq<Row>)
    ensures PotsAfter(rows).shared >= FULL - RESERVE - BulkBytes(Views(rows)) - ErrorBytes(Views(rows))
  {
    BytesConserved(rows);
    ReservedAtMost(rows);
  }

  lemma {:induction false} ReservedAtMost(rows: seq<Row>)
    ensures PotsAfter(rows).reserved <= RESERVE
  {
    if rows != [] {
      ReservedAtMost(rows[..|rows| - 1]);
    }
  }
}
