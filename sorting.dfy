/**
 * `sort_values("Date")`: rows reordered so that dates do not decrease. The
 * library's default sort is not stable, so nothing is promised about the order
 * of rows with equal dates; every property of the model is stated in terms of
 * "sorted by date and a permutation of the input" only.
 */
module Sorting {
  import opened Records

  predicate SortedByDate(s: seq<Row>) {
    forall i, j :: 0 <= i < j < |s| ==> s[i].date <= s[j].date
  }

  /** Places `x` into a date-sorted sequence. */
  function Insert(x: Row, s: seq<Row>): (r: seq<Row>)
    requires SortedByDate(s)
    ensures SortedByDate(r)
    ensures multiset(r) == multiset(s) + multiset{x}
  {
    if s == [] then [x]
    else if x.date <= s[0].date then [x] + s
    else
      var rest := Insert(x, s[1..]);
      PrependSmallest(s, x, rest);
      [s[0]] + rest
  }

  /** The first row of a sorted sequence may go in front of the rest of it
      with a later row inserted. */
  lemma PrependSmallest(s: seq<Row>, x: Row, rest: seq<Row>)
    requires SortedByDate(s) && s != [] && s[0].date < x.date
    requires SortedByDate(rest) && multiset(rest) == multiset(s[1..]) + multiset{x}
    ensures SortedByDate([s[0]] + rest)
    ensures multiset([s[0]] + rest) == multiset(s) + multiset{x}
  {
    assert s == [s[0]] + s[1..];
    forall j | 0 <= j < |rest|
      ensures s[0].date <= rest[j].date
    {
      assert rest[j] in multiset(rest);
      if rest[j] != x {
        assert rest[j] in multiset(s[1..]);
      }
    }
  }

  /** The rows in non-decreasing date order. */
  function SortByDate(rows: seq<Row>): (r: seq<Row>)
    ensures SortedByDate(r)
    ensures multiset(r) == multiset(rows)
    ensures |r| == |rows|
  {
    if rows == [] then []
    else
      assert rows == [rows[0]] + rows[1..];
      var r := Insert(rows[0], SortByDate(rows[1..]));
      assert |r| == |multiset(r)|;
      r
  }

  /** The `Date` column. */
  function Dates(s: seq<Row>): seq<int> {
    seq(|s|, i requires 0 <= i < |s| => s[i].date)
  }

  /** Removing the row at `k` removes one occurrence of it. */
  lemma RemoveAt(b: seq<Row>, k: nat)
    requires k < |b|
    ensures multiset(b[..k] + b[k + 1..]) == multiset(b) - multiset{b[k]}
  {
    assert b == b[..k] + [b[k]] + b[k + 1..];
  }

  /** Removing the row at `k` removes one occurrence of its date. */
  lemma DatesRemoveAt(b: seq<Row>, k: nat)
    requires k < |b|
    ensures multiset(Dates(b)) == multiset(Dates(b[..k] + b[k + 1..])) + multiset{b[k].date}
  {
    var front, back := b[..k], b[k + 1..];
    assert Dates(b) == Dates(front) + [b[k].date] + Dates(back);
    assert Dates(front + back) == Dates(front) + Dates(back);
  }

  /** Taking the first row from one arrangement and the same row from the
      other leaves two arrangements of the same rows. */
  lemma RemoveMatching(a: seq<Row>, b: seq<Row>, k: nat)
    requires multiset(a) == multiset(b)
    requires a != [] && k < |b| && b[k] == a[0]
    ensures multiset(a[1..]) == multiset(b[..k] + b[k + 1..])
  {
    assert a == [a[0]] + a[1..];
    assert multiset(a[1..]) == multiset(a) - multiset{a[0]};
    RemoveAt(b, k);
  }

  /** The dates of a non-empty arrangement are its first date and the dates of the rest. */
  lemma DatesHead(a: seq<Row>)
    requires a != []
    ensures multiset(Dates(a)) == multiset(Dates(a[1..])) + multiset{a[0].date}
  {
    assert Dates(a) == [a[0].date] + Dates(a[1..]);
  }

  /** Two arrangements with the same dates once a matching row is taken out
      of each have the same dates. */
  lemma RestoreMatching(a: seq<Row>, b: seq<Row>, k: nat)
    requires a != [] && k < |b| && b[k] == a[0]
    requires multiset(Dates(a[1..])) == multiset(Dates(b[..k] + b[k + 1..]))
    ensures multiset(Dates(a)) == multiset(Dates(b))
  {
    DatesHead(a);
    DatesRemoveAt(b, k);
    var tailDates := multiset(Dates(a[1..]));
    assert multiset(Dates(a)) == tailDates + multiset{a[0].date};
    assert multiset(Dates(b)) == tailDates + multiset{b[k].date};
  }

  /** Reordering rows reorders their dates. */
  lemma {:induction false} PermutationKeepsDates(a: seq<Row>, b: seq<Row>)
    requires multiset(a) == multiset(b)
    ensures multiset(Dates(a)) == multiset(Dates(b))
  {
    if a != [] {
      assert a[0] in multiset(b);
      var k :| 0 <= k < |b| && b[k] == a[0];
      RemoveMatching(a, b, k);
      PermutationKeepsDates(a[1..], b[..k] + b[k + 1..]);
      RestoreMatching(a, b, k);
    }
  }

  /** Two non-decreasing integer sequences with the same elements are equal. */
  lemma {:induction false} SortedIntsUnique(x: seq<int>, y: seq<int>)
    requires forall i, j :: 0 <= i < j < |x| ==> x[i] <= x[j]
    requires forall i, j :: 0 <= i < j < |y| ==> y[i] <= y[j]
    requires multiset(x) == multiset(y)
    ensures x == y
  {
    if x != [] {
      assert |y| == |multiset(y)| == |multiset(x)| == |x|;
      assert x[0] in multiset(y) && y[0] in multiset(x);
      assert x[0] <= y[0] && y[0] <= x[0];
      assert x == [x[0]] + x[1..] && y == [y[0]] + y[1..];
      assert multiset(x) == multiset{x[0]} + multiset(x[1..]);
      assert multiset(y) == multiset{y[0]} + multiset(y[1..]);
      forall v
        ensures multiset(x[1..])[v] == multiset(y[1..])[v]
      {
        assert multiset(x)[v] == multiset{x[0]}[v] + multiset(x[1..])[v];
        assert multiset(y)[v] == multiset{y[0]}[v] + multiset(y[1..])[v];
      }
      assert multiset(x[1..]) == multiset(y[1..]);
      SortedIntsUnique(x[1..], y[1..]);
    }
  }

  /**
   * However rows with equal dates are ordered, every date-sorted permutation of
   * the same rows has the same `Date` column.
   */
  lemma SortedPermutationsShareDates(a: seq<Row>, b: seq<Row>)
    requires SortedByDate(a) && SortedByDate(b)
    requires multiset(a) == multiset(b)
    ensures Dates(a) == Dates(b)
  {
    PermutationKeepsDates(a, b);
    SortedIntsUnique(Dates(a), Dates(b));
  }
}
