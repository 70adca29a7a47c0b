/**
 * Boolean-mask row selection, `df[mask]`: the rows whose mask entry is true,
 * in their original order. Both the date filter and the category split are
 * instances of it.
 */
module Selection {
  import opened Records

  /** The rows of `xs` that satisfy `keep`, in order. */
  function Where(xs: seq<Row>, keep: Row -> bool): (r: seq<Row>)
    ensures |r| <= |xs|
  {
    if xs == [] then []
    else
      var rest := Where(xs[1..], keep);
      if keep(xs[0]) then [xs[0]] + rest else rest
  }

  /** Selection keeps a row iff the mask holds for it, and then keeps every
      occurrence of it. */
  lemma {:induction false} WhereKeeps(xs: seq<Row>, keep: Row -> bool)
    ensures forall x :: x in Where(xs, keep) <==> x in xs && keep(x)
    ensures forall x :: multiset(Where(xs, keep))[x] == if keep(x) then multiset(xs)[x] else 0
  {
    if xs != [] {
      assert xs == [xs[0]] + xs[1..];
      WhereKeeps(xs[1..], keep);
    }
  }

  /** The positions of `xs` whose element satisfies `keep`, increasing. */
  function KeptIndices(xs: seq<Row>, keep: Row -> bool): (idx: seq<nat>)
    ensures forall k :: 0 <= k < |idx| ==> idx[k] < |xs| && keep(xs[idx[k]])
    ensures forall k, l :: 0 <= k < l < |idx| ==> idx[k] < idx[l]
    ensures forall i :: 0 <= i < |xs| && keep(xs[i]) ==> i in idx
  {
    if xs == [] then []
    else
      var n := |xs| - 1;
      var front := KeptIndices(xs[..n], keep);
      if keep(xs[n]) then front + [n] else front
  }

  /** Selecting from a row followed by more rows. */
  lemma WhereCons(x: Row, rest: seq<Row>, keep: Row -> bool)
    ensures Where([x] + rest, keep) == (if keep(x) then [x] else []) + Where(rest, keep)
  {
    assert ([x] + rest)[0] == x && ([x] + rest)[1..] == rest;
  }

  /** Selecting from a concatenation selects from each part. */
  lemma {:induction false} WhereAppend(a: seq<Row>, b: seq<Row>, keep: Row -> bool)
    ensures Where(a + b, keep) == Where(a, keep) + Where(b, keep)
  {
    if a == [] {
      assert a + b == b;
    } else {
      var x, rest := a[0], a[1..];
      assert a == [x] + rest && a + b == [x] + (rest + b);
      WhereCons(x, rest, keep);
      WhereCons(x, rest + b, keep);
      WhereAppend(rest, b, keep);
    }
  }

  /**
   * Selection keeps the relative order of the kept rows: the k-th selected row
   * is the row at the k-th kept position, and the kept positions increase.
   */
  lemma {:induction false} WhereSelectsKeptIndices(xs: seq<Row>, keep: Row -> bool)
    ensures |Where(xs, keep)| == |KeptIndices(xs, keep)|
    ensures forall k :: 0 <= k < |Where(xs, keep)| ==>
      Where(xs, keep)[k] == xs[KeptIndices(xs, keep)[k]]
  {
    if xs != [] {
      var n := |xs| - 1;
      var front := xs[..n];
      WhereSelectsKeptIndices(front, keep);
      WhereLast(xs, keep);
      var wf, idf := Where(front, keep), KeptIndices(front, keep);
      forall k | 0 <= k < |wf|
        ensures wf[k] == xs[idf[k]]
      {
        assert wf[k] == front[idf[k]];
      }
    }
  }

  /** Selecting from a non-empty sequence selects from all but its last row,
      then the last row if the mask keeps it. */
  lemma WhereLast(xs: seq<Row>, keep: Row -> bool)
    requires xs != []
    ensures var n := |xs| - 1;
      Where(xs, keep) == Where(xs[..n], keep) + (if keep(xs[n]) then [xs[n]] else [])
  {
    var n := |xs| - 1;
    assert xs == xs[..n] + [xs[n]];
    WhereAppend(xs[..n], [xs[n]], keep);
    assert Where([xs[n]], keep) == if keep(xs[n]) then [xs[n]] else [];
  }

  /** A mask that is true everywhere selects every row. */
  lemma {:induction false} WhereAll(xs: seq<Row>, keep: Row -> bool)
    requires forall i :: 0 <= i < |xs| ==> keep(xs[i])
    ensures Where(xs, keep) == xs
  {
    if xs != [] {
      WhereAll(xs[1..], keep);
    }
  }
}
