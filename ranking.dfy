/**
 * `sort_values(col, ascending=...)` followed by `head(n)` or `tail(n)`
 * on an aggregated table. NaN values sort last in both directions, as
 * pandas places them by default.
 */
module Ranking {
  import opened Wrappers
  import opened Grouping

  /** `a` may stand before `b` in the sorted column. */
  predicate Precedes(a: Option<real>, b: Option<real>, descending: bool) {
    if b.None? then true
    else if a.None? then false
    else if descending then a.value >= b.value
    else a.value <= b.value
  }

  predicate RowPrecedes(x: AggRow, y: AggRow, j: nat, descending: bool) {
    Precedes(Cell(x, j), Cell(y, j), descending)
  }

  /** The order is total and transitive, so sorting by it is well defined. */
  lemma PrecedesTotalPreorder(a: Option<real>, b: Option<real>, c: Option<real>, descending: bool)
    ensures Precedes(a, b, descending) || Precedes(b, a, descending)
    ensures Precedes(a, b, descending) && Precedes(b, c, descending) ==> Precedes(a, c, descending)
  {
  }

  predicate Sorted(s: seq<AggRow>, j: nat, descending: bool) {
    forall a, b :: 0 <= a < b < |s| ==> RowPrecedes(s[a], s[b], j, descending)
  }

  /** Insert `x` before the first row it may precede. */
  function Insert(x: AggRow, s: seq<AggRow>, j: nat, descending: bool): (r: seq<AggRow>)
    requires Sorted(s, j, descending)
    ensures Sorted(r, j, descending)
    ensures multiset(r) == multiset(s) + multiset{x}
    ensures forall y :: y in r ==> y in s || y == x
  {
    if s == [] || RowPrecedes(x, s[0], j, descending) then
      SortedCons(x, s, j, descending);
      [x] + s
    else
      var rest := Insert(x, s[1..], j, descending);
      assert RowPrecedes(s[0], x, j, descending) by {
        PrecedesTotalPreorder(Cell(x, j), Cell(s[0], j), Cell(s[0], j), descending);
      }
      HeadPrecedesRest(s, x, rest, j, descending);
      SortedCons(s[0], rest, j, descending);
      assert s == [s[0]] + s[1..];
      [s[0]] + rest
  }

  /** A row that may precede the first row of a sorted table may stand in front of it. */
  lemma SortedCons(x: AggRow, s: seq<AggRow>, j: nat, descending: bool)
    requires Sorted(s, j, descending)
    requires s == [] || RowPrecedes(x, s[0], j, descending)
    ensures Sorted([x] + s, j, descending)
  {
    forall b | 0 <= b < |s| ensures RowPrecedes(x, s[b], j, descending) {
      PrecedesTotalPreorder(Cell(x, j), Cell(s[0], j), Cell(s[b], j), descending);
    }
  }

  lemma HeadPrecedesRest(s: seq<AggRow>, x: AggRow, rest: seq<AggRow>, j: nat, descending: bool)
    requires Sorted(s, j, descending) && s != []
    requires RowPrecedes(s[0], x, j, descending)
    requires forall y :: y in rest ==> y in s[1..] || y == x
    ensures rest == [] || RowPrecedes(s[0], rest[0], j, descending)
  {
    if rest != [] && rest[0] in s[1..] {
      var b :| 0 <= b < |s[1..]| && s[1..][b] == rest[0];
      assert s[b + 1] == rest[0];
    }
  }

  /** Insertion sort of the table by column `j`. */
  function SortBy(s: seq<AggRow>, j: nat, descending: bool): (r: seq<AggRow>)
    ensures Sorted(r, j, descending)
    ensures multiset(r) == multiset(s)
    ensures |r| == |s|
  {
    if s == [] then []
    else
      assert s == [s[0]] + s[1..];
      var r := Insert(s[0], SortBy(s[1..], j, descending), j, descending);
      assert |r| == |multiset(r)|;
      r
  }

  function Min(a: nat, b: nat): nat {
    if a <= b then a else b
  }

  /** `head(n)`. */
  function Head(s: seq<AggRow>, n: nat): (h: seq<AggRow>)
    ensures |h| == Min(n, |s|) <= n
    ensures forall i :: 0 <= i < |h| ==> h[i] == s[i]
    ensures n >= |s| ==> h == s
  {
    s[..Min(n, |s|)]
  }

  /** `tail(n)`. */
  function Tail(s: seq<AggRow>, n: nat): (r: seq<AggRow>)
    ensures |r| == Min(n, |s|) <= n
    ensures forall i :: 0 <= i < |r| ==> r[i] == s[|s| - |r| + i]
    ensures n >= |s| ==> r == s
  {
    s[|s| - Min(n, |s|)..]
  }

  /** In a sorted table, every row of a prefix precedes every row after it. */
  lemma SplitSorted(q: seq<AggRow>, k: nat, j: nat, descending: bool)
    requires Sorted(q, j, descending) && k <= |q|
    ensures multiset(q) - multiset(q[..k]) == multiset(q[k..])
    ensures multiset(q[..k]) <= multiset(q) && multiset(q[k..]) <= multiset(q)
    ensures forall x, y :: x in q[..k] && y in multiset(q[k..]) ==> RowPrecedes(x, y, j, descending)
  {
    assert q == q[..k] + q[k..];
    forall x, y | x in q[..k] && y in multiset(q[k..]) ensures RowPrecedes(x, y, j, descending) {
      var a :| 0 <= a < k && q[..k][a] == x;
      assert y in q[k..];
      var b :| 0 <= b < |q[k..]| && q[k..][b] == y;
      assert q[k + b] == y && q[a] == x;
    }
  }

  /**
   * `sort_values(col, ascending=False).head(n)`: at most `n` rows, in
   * descending order, taken from the table, and no row left out beats a
   * row that was kept.
   */
  function Largest(s: seq<AggRow>, j: nat, n: nat): (r: seq<AggRow>)
    ensures |r| == Min(n, |s|)
    ensures Sorted(r, j, true)
    ensures multiset(r) <= multiset(s)
    ensures forall x, y :: x in r && y in multiset(s) - multiset(r) ==> RowPrecedes(x, y, j, true)
  {
    var q := SortBy(s, j, true);
    SplitSorted(q, Min(n, |q|), j, true);
    Head(q, n)
  }

  /**
   * `sort_values(col, ascending=True).head(n)`: the at most `n` smallest
   * rows, in ascending order.
   */
  function Smallest(s: seq<AggRow>, j: nat, n: nat): (r: seq<AggRow>)
    ensures |r| == Min(n, |s|)
    ensures Sorted(r, j, false)
    ensures multiset(r) <= multiset(s)
    ensures forall x, y :: x in r && y in multiset(s) - multiset(r) ==> RowPrecedes(x, y, j, false)
  {
    var q := SortBy(s, j, false);
    SplitSorted(q, Min(n, |q|), j, false);
    Head(q, n)
  }

  /**
   * `sort_values(col, ascending=True).tail(n)`: the at most `n` largest
   * rows, in ascending order, so every row left out precedes every row kept.
   */
  function LargestAscending(s: seq<AggRow>, j: nat, n: nat): (r: seq<AggRow>)
    ensures |r| == Min(n, |s|)
    ensures Sorted(r, j, false)
    ensures multiset(r) <= multiset(s)
    ensures forall x, y :: x in r && y in multiset(s) - multiset(r) ==> RowPrecedes(y, x, j, false)
  {
    var q := SortBy(s, j, false);
    SplitSortedSuffix(q, |q| - Min(n, |q|), j, false);
    Tail(q, n)
  }

  /** In a sorted table, a suffix is sorted and every row before it precedes every row in it. */
  lemma SplitSortedSuffix(q: seq<AggRow>, k: nat, j: nat, descending: bool)
    requires Sorted(q, j, descending) && k <= |q|
    ensures multiset(q[k..]) <= multiset(q)
    ensures multiset(q) - multiset(q[k..]) == multiset(q[..k])
    ensures Sorted(q[k..], j, descending)
    ensures forall x, y :: x in q[k..] && y in multiset(q) - multiset(q[k..]) ==> RowPrecedes(y, x, j, descending)
  {
    SplitSorted(q, k, j, descending);
    SuffixSorted(q, k, j, descending);
    assert q == q[..k] + q[k..];
    assert multiset(q) - multiset(q[k..]) == multiset(q[..k]);
    forall x, y | x in q[k..] && y in multiset(q) - multiset(q[k..]) ensures RowPrecedes(y, x, j, descending) {
      assert y in q[..k];
      assert x in multiset(q[k..]);
    }
  }

  lemma SuffixSorted(q: seq<AggRow>, k: nat, j: nat, descending: bool)
    requires Sorted(q, j, descending) && k <= |q|
    ensures Sorted(q[k..], j, descending)
  {
    forall a, b | 0 <= a < b < |q[k..]| ensures RowPrecedes(q[k..][a], q[k..][b], j, descending) {
      assert q[k..][a] == q[k + a] && q[k..][b] == q[k + b];
    }
  }

  /**
   * The first row of `sort_values(col, ascending=False).head(1)`, or none
   * for an empty table (the "N/A" case): a row of the table whose value in
   * column `j` is at least that of every row.
   */
  function Best(s: seq<AggRow>, j: nat): (b: Option<AggRow>)
    ensures b.None? <==> s == []
    ensures b.Some? ==> b.value in s && forall y :: y in s ==> RowPrecedes(b.value, y, j, true)
  {
    var r := Largest(s, j, 1);
    if r == [] then None
    else
      assert r[0] in multiset(s);
      assert forall y :: y in s ==> RowPrecedes(r[0], y, j, true) by {
        forall y | y in s ensures RowPrecedes(r[0], y, j, true) {
          if y !in multiset(s) - multiset(r) {
            assert y in multiset(r);
          }
        }
      }
      Some(r[0])
  }
}
