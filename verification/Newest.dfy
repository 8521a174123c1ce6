/** ORDER BY at DESC LIMIT n, as a relation: which answers a database may give
    when timestamps tie, and why merging two limited halves loses nothing. */
module Newest {

  /** A row of the merged timeline: when it happened, and which row it is. */
  datatype Row = Row(at: int, source: string, key: nat)

  ghost predicate NewestFirst(out: seq<Row>) {
    forall i, j :: 0 <= i < j < |out| ==> out[i].at >= out[j].at
  }

  function Min(a: nat, b: nat): nat {
    if a <= b then a else b
  }

  /** out is some newest-n of the table: sorted, drawn from it, as many as there
      can be, and nothing left behind is newer than anything taken. */
  ghost predicate IsNewest(n: nat, table: multiset<Row>, out: seq<Row>) {
    && NewestFirst(out)
    && multiset(out) <= table
    && |out| == Min(n, |table|)
    && forall r, o :: r in table - multiset(out) && o in out ==> r.at <= o.at
  }

  lemma {:induction false} SizeLe(a: multiset<Row>, b: multiset<Row>)
    requires a <= b
    ensures |a| <= |b| && |b - a| == |b| - |a|
  {
    assert b == a + (b - a);
  }

  /** Too many to fit: some element of a is missing from b. */
  lemma Overflow(a: multiset<Row>, b: multiset<Row>) returns (x: Row)
    requires |a| > |b|
    ensures a[x] > b[x]
  {
    if forall x :: x in a ==> a[x] <= b[x] {
      assert a <= b;
      SizeLe(a, b);
    }
    x :| x in a && a[x] > b[x];
  }

  /** A row a half left behind is no newer than anything the merge keeps. */
  lemma LeftBehind(n: nat, whole: multiset<Row>, half: seq<Row>, pool: multiset<Row>, merged: seq<Row>, r: Row, o: Row)
    requires IsNewest(n, whole, half) && multiset(half) <= pool && IsNewest(n, pool, merged)
    requires r in whole - multiset(half) && o in merged
    ensures r.at <= o.at
  {
    hide NewestFirst;
    SizeLe(multiset(half), whole);
    assert |multiset(half)| == n;
    var others := multiset(merged) - multiset{o};
    SizeLe(multiset{o}, multiset(merged));
    // half has n rows, the merge at most n - 1 besides o: one of half's is
    // either o itself or was not kept.
    var x := Overflow(multiset(half), others);
    assert x in half && r.at <= x.at;
    if x != o {
      assert multiset(merged)[x] < multiset(half)[x] <= pool[x];
      assert x in pool - multiset(merged);
    }
  }

  /** The newest n of (the newest n of a, merged with the newest n of b) is a
      newest n of a and b together. */
  lemma MergeHalves(n: nat, a: multiset<Row>, b: multiset<Row>, ha: seq<Row>, hb: seq<Row>, merged: seq<Row>)
    requires IsNewest(n, a, ha) && IsNewest(n, b, hb) && IsNewest(n, multiset(ha) + multiset(hb), merged)
    ensures IsNewest(n, a + b, merged)
  {
    var pool := multiset(ha) + multiset(hb);
    assert |pool| == |ha| + |hb|;
    assert |a + b| == |a| + |b|;
    assert multiset(merged) <= a + b;
    forall r, o | r in (a + b) - multiset(merged) && o in merged
      ensures r.at <= o.at
    {
      if r in a - multiset(ha) {
        LeftBehind(n, a, ha, pool, merged, r, o);
      } else if r in b - multiset(hb) {
        LeftBehind(n, b, hb, pool, merged, r, o);
      } else {
        assert a[r] == multiset(ha)[r] && b[r] == multiset(hb)[r];
        assert r in pool - multiset(merged);
      }
    }
  }

  /** Of two newest-n answers neither is ahead of the other at any position: u
      has i + 1 rows up to position i, so one of them is not among m's first i. */
  lemma NotAhead(n: nat, table: multiset<Row>, u: seq<Row>, m: seq<Row>, i: nat)
    requires IsNewest(n, table, u) && IsNewest(n, table, m) && i < |u|
    ensures i < |m| && u[i].at <= m[i].at
  {
    var x := Overflow(multiset(u[..i + 1]), multiset(m[..i]));
    HeadIsNew(u, i, x);
    Split(u, i + 1, x);
    Split(m, i, x);
    if x in multiset(m[i..]) {
      TailIsOld(m, i, x);
    } else {
      Missing(n, table, u, m, x, m[i]);
    }
  }

  lemma Split(s: seq<Row>, k: nat, x: Row)
    requires k <= |s|
    ensures multiset(s)[x] == multiset(s[..k])[x] + multiset(s[k..])[x]
  {
    assert s == s[..k] + s[k..];
  }

  lemma Missing(n: nat, table: multiset<Row>, u: seq<Row>, m: seq<Row>, x: Row, o: Row)
    requires IsNewest(n, table, u) && IsNewest(n, table, m) && multiset(u)[x] > multiset(m)[x] && o in m
    ensures x.at <= o.at
  {
    assert x in table - multiset(m);
  }

  lemma HeadIsNew(u: seq<Row>, i: nat, x: Row)
    requires NewestFirst(u) && i < |u| && x in multiset(u[..i + 1])
    ensures x.at >= u[i].at
  {
    assert x in u[..i + 1];
  }

  lemma TailIsOld(m: seq<Row>, i: nat, x: Row)
    requires NewestFirst(m) && i < |m| && x in multiset(m[i..])
    ensures x.at <= m[i].at
  {
    assert x in m[i..];
  }

  /** Ties may be broken differently, but the timestamps are determined. */
  lemma SameTimestamps(n: nat, table: multiset<Row>, u: seq<Row>, m: seq<Row>)
    requires IsNewest(n, table, u) && IsNewest(n, table, m)
    ensures |u| == |m| && forall i :: 0 <= i < |u| ==> u[i].at == m[i].at
  {
    forall i | 0 <= i < |u|
      ensures u[i].at == m[i].at
    {
      NotAhead(n, table, u, m, i);
      NotAhead(n, table, m, u, i);
    }
  }

  // ---------------------------------------------------------------------
  // Such an answer always exists
  // ---------------------------------------------------------------------

  function Insert(r: Row, sorted: seq<Row>): seq<Row> {
    if sorted == [] || r.at >= sorted[0].at then [r] + sorted else [sorted[0]] + Insert(r, sorted[1..])
  }

  function Sort(rows: seq<Row>): seq<Row> {
    if rows == [] then [] else Insert(rows[0], Sort(rows[1..]))
  }

  lemma {:induction false} InsertSorts(r: Row, sorted: seq<Row>)
    requires NewestFirst(sorted)
    ensures NewestFirst(Insert(r, sorted)) && multiset(Insert(r, sorted)) == multiset{r} + multiset(sorted)
    decreases |sorted|
  {
    if sorted != [] {
      assert sorted == [sorted[0]] + sorted[1..];
      if r.at < sorted[0].at {
        InsertSorts(r, sorted[1..]);
        HeadStays(r, sorted, Insert(r, sorted[1..]));
      }
    }
  }

  lemma HeadStays(r: Row, sorted: seq<Row>, tail: seq<Row>)
    requires sorted != [] && NewestFirst(sorted) && r.at < sorted[0].at
    requires NewestFirst(tail) && multiset(tail) == multiset{r} + multiset(sorted[1..])
    ensures NewestFirst([sorted[0]] + tail)
  {
    forall i | 0 <= i < |tail|
      ensures tail[i].at <= sorted[0].at
    {
      assert tail[i] in multiset(tail);
    }
  }

  lemma {:induction false} SortSorts(rows: seq<Row>)
    ensures NewestFirst(Sort(rows)) && multiset(Sort(rows)) == multiset(rows)
    decreases |rows|
  {
    if rows != [] {
      SortSorts(rows[1..]);
      InsertSorts(rows[0], Sort(rows[1..]));
      assert rows == [rows[0]] + rows[1..];
    }
  }

  function Limit(n: nat, rows: seq<Row>): seq<Row> {
    if |rows| <= n then rows else rows[..n]
  }

  lemma PrefixIsNewest(all: seq<Row>, k: nat, r: Row, o: Row)
    requires NewestFirst(all) && k <= |all| && r in multiset(all[k..]) && o in all[..k]
    ensures r.at <= o.at
  {
    assert r in all[k..];
    var i :| 0 <= i < |all[k..]| && all[k..][i] == r;
    var j :| 0 <= j < |all[..k]| && all[..k][j] == o;
    assert all[k + i] == r && all[j] == o;
  }

  lemma PrefixSorted(all: seq<Row>, k: nat)
    requires NewestFirst(all) && k <= |all|
    ensures NewestFirst(all[..k]) && multiset(all[..k]) <= multiset(all)
  {
    assert all == all[..k] + all[k..];
  }

  lemma PrefixOfSorted(n: nat, all: seq<Row>)
    requires NewestFirst(all)
    ensures IsNewest(n, multiset(all), Limit(n, all))
  {
    hide NewestFirst;
    var k := Min(n, |all|);
    assert Limit(n, all) == all[..k];
    assert |all| == |multiset(all)|;
    PrefixSorted(all, k);
    forall r, o | r in multiset(all) - multiset(all[..k]) && o in all[..k]
      ensures r.at <= o.at
    {
      Split(all, k, r);
      PrefixIsNewest(all, k, r, o);
    }
  }

  lemma SortLimitIsNewest(n: nat, rows: seq<Row>)
    ensures IsNewest(n, multiset(rows), Limit(n, Sort(rows)))
  {
    SortSorts(rows);
    PrefixOfSorted(n, Sort(rows));
  }
}
