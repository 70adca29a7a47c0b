/**
 * The category split: the filtered rows whose `Investment Type`, lowercased,
 * equals `fixed`, `variable` or `currency`. Any other label is dropped.
 */
module Categories {
  import opened Records
  import opened Selection

  const Fixed := "fixed"
  const Variable := "variable"
  const Currency := "currency"

  /** `str.lower()` on one character, restricted to ASCII. */
  function LowerChar(c: char): char {
    if 'A' <= c <= 'Z' then (c as int + 32) as char else c
  }

  /** `str.lower()`, restricted to ASCII. */
  function Lower(s: string): (r: string)
    ensures |r| == |s|
    ensures forall i :: 0 <= i < |r| ==> !('A' <= r[i] <= 'Z')
    ensures forall i :: 0 <= i < |r| ==>
      r[i] == s[i] || ('A' <= s[i] <= 'Z' && r[i] as int == s[i] as int + 32)
  {
    seq(|s|, i requires 0 <= i < |s| => LowerChar(s[i]))
  }

  /** A word made of lower-case ASCII letters, such as the three labels. */
  predicate IsLowerWord(w: string) {
    forall i :: 0 <= i < |w| ==> 'a' <= w[i] <= 'z'
  }

  /** Independent reading of "equal ignoring case": position by position, the
      character is the label's letter or its upper-case form. */
  predicate MatchesIgnoringCase(s: string, w: string) {
    |s| == |w| && forall i :: 0 <= i < |s| ==> s[i] == w[i] || s[i] as int == w[i] as int - 32
  }

  /** Lowercasing a type gives a label exactly when the type spells the label in any case. */
  lemma LowerEqualsIff(s: string, w: string)
    requires IsLowerWord(w)
    ensures Lower(s) == w <==> MatchesIgnoringCase(s, w)
  {
  }

  /** Lowercasing twice is lowercasing once. */
  lemma LowerIdempotent(s: string)
    ensures Lower(Lower(s)) == Lower(s)
  {
  }

  /** `filtered[filtered['Investment Type'].str.lower() == name]`. */
  function SelectCategory(rows: seq<Row>, name: string): (r: seq<Row>)
    ensures forall x :: x in r <==> x in rows && Lower(x.itype) == name
    ensures forall x :: multiset(r)[x] == if Lower(x.itype) == name then multiset(rows)[x] else 0
  {
    var keep := (x: Row) => Lower(x.itype) == name;
    WhereKeeps(rows, keep);
    Where(rows, keep)
  }

  /** A type that lowercases to one of the three labels. */
  predicate Recognized(x: Row) {
    Lower(x.itype) in {Fixed, Variable, Currency}
  }

  datatype Split = Split(fixed: seq<Row>, variable: seq<Row>, currency: seq<Row>)

  /** The three subsets handed to the ROI calculation. */
  function SplitByCategory(rows: seq<Row>): (s: Split)
    ensures forall x :: x in s.fixed <==> x in rows && Lower(x.itype) == Fixed
    ensures forall x :: x in s.variable <==> x in rows && Lower(x.itype) == Variable
    ensures forall x :: x in s.currency <==> x in rows && Lower(x.itype) == Currency
    ensures forall x :: !(x in s.fixed && x in s.variable) && !(x in s.fixed && x in s.currency)
                        && !(x in s.variable && x in s.currency)
    ensures forall x :: !Recognized(x) ==> x !in s.fixed && x !in s.variable && x !in s.currency
  {
    Split(SelectCategory(rows, Fixed), SelectCategory(rows, Variable), SelectCategory(rows, Currency))
  }

  /**
   * Every recognised row lands in exactly one subset, as many times as it
   * occurs: the three subsets together are the recognised rows, counted with
   * multiplicity.
   */
  lemma SplitAccountsForRecognizedRows(rows: seq<Row>)
    ensures var s := SplitByCategory(rows);
      multiset(s.fixed) + multiset(s.variable) + multiset(s.currency) == multiset(Where(rows, Recognized))
    ensures var s := SplitByCategory(rows);
      |s.fixed| + |s.variable| + |s.currency| <= |rows|
  {
    var s := SplitByCategory(rows);
    var all := multiset(s.fixed) + multiset(s.variable) + multiset(s.currency);
    WhereKeeps(rows, Recognized);
    var kept := multiset(Where(rows, Recognized));
    forall x
      ensures all[x] == kept[x]
    {
    }
    assert all == kept;
    assert |all| == |s.fixed| + |s.variable| + |s.currency|;
  }

  /** "Fixed", "fixed" and "FIXED" all select the Fixed subset; "crypto" and
      "Crypto" select none of the three. */
  lemma CaseVariantsAndUnknownLabels()
    ensures Lower("Fixed") == Fixed && Lower("fixed") == Fixed && Lower("FIXED") == Fixed
    ensures Lower("crypto") !in {Fixed, Variable, Currency}
    ensures Lower("Crypto") !in {Fixed, Variable, Currency}
  {
  }
}
