/** The sidebar filter: an inclusive order-date range and two selection sets. */
module Filtering {
  import opened Wrappers
  import opened Dates
  import opened Orders

  /** `date_range`, `regions` and `ship_modes` as the sidebar returns them. */
  datatype FilterSpec = FilterSpec(start: Date, end: Date, regions: set<Text>, shipModes: set<Text>)

  /** The boolean mask of one row; a row with no order date fails both date comparisons. */
  predicate Selected(spec: FilterSpec, r: Row): (b: bool)
    ensures b ==> r.order.orderDate.Some? && DateLeq(spec.start, spec.end)
    ensures b ==> spec.regions != {} && spec.shipModes != {}
  {
    && r.order.orderDate.Some?
    && DateLeq(spec.start, r.order.orderDate.value)
    && DateLeq(r.order.orderDate.value, spec.end)
    && r.order.region in spec.regions
    && r.order.shipMode in spec.shipModes
  }

  /** `df[mask]`. */
  function ApplyFilter(t: seq<Row>, spec: FilterSpec): (r: seq<Row>)
    ensures |r| <= |t|
    ensures forall x :: x in r <==> x in t && Selected(spec, x)
  {
    if t == [] then []
    else
      var last := t[|t| - 1];
      ApplyFilter(t[..|t| - 1], spec) + (if Selected(spec, last) then [last] else [])
  }

  /** `r` occurs in `t` in the same order, possibly with rows left out. */
  predicate IsSubsequence(r: seq<Row>, t: seq<Row>)
    decreases |t|
  {
    if r == [] then true
    else if t == [] then false
    else if r[|r| - 1] == t[|t| - 1] then IsSubsequence(r[..|r| - 1], t[..|t| - 1])
    else IsSubsequence(r, t[..|t| - 1])
  }

  /** The filtered table is an order-preserving subsequence of the input. */
  lemma {:induction false} FilterIsSubsequence(t: seq<Row>, spec: FilterSpec)
    ensures IsSubsequence(ApplyFilter(t, spec), t)
    decreases |t|
  {
    if t != [] {
      var init, last := t[..|t| - 1], t[|t| - 1];
      FilterIsSubsequence(init, spec);
      var r := ApplyFilter(t, spec);
      if Selected(spec, last) {
        assert r[..|r| - 1] == ApplyFilter(init, spec);
      } else {
        assert r == ApplyFilter(init, spec);
        if r != [] {
          FilterSkipsLast(init, last, spec);
        }
      }
    }
  }

  /** Skipping a non-selected last row keeps the subsequence relation. */
  lemma FilterSkipsLast(init: seq<Row>, last: Row, spec: FilterSpec)
    requires !Selected(spec, last)
    requires ApplyFilter(init, spec) != []
    requires IsSubsequence(ApplyFilter(init, spec), init)
    ensures IsSubsequence(ApplyFilter(init, spec), init + [last])
  {
    var r := ApplyFilter(init, spec);
    assert r[|r| - 1] in r;
    assert (init + [last])[..|init|] == init;
  }

  /** The mask is applied row by row: filtering a concatenation concatenates the results. */
  lemma {:induction false} FilterAppend(a: seq<Row>, b: seq<Row>, spec: FilterSpec)
    ensures ApplyFilter(a + b, spec) == ApplyFilter(a, spec) + ApplyFilter(b, spec)
    decreases |b|
  {
    if b == [] {
      assert a + b == a;
    } else {
      var init, last := b[..|b| - 1], b[|b| - 1];
      assert (a + b)[..|a + b| - 1] == a + init;
      FilterAppend(a, init, spec);
    }
  }

  /** Every selected row keeps its multiplicity; every other row is dropped. */
  lemma {:induction false} FilterCounts(t: seq<Row>, spec: FilterSpec, x: Row)
    ensures multiset(ApplyFilter(t, spec))[x] == if Selected(spec, x) then multiset(t)[x] else 0
    decreases |t|
  {
    if t != [] {
      var init, last := t[..|t| - 1], t[|t| - 1];
      FilterCounts(init, spec, x);
      assert t == init + [last];
    }
  }

  /** Filtering twice with the same selection is filtering once. */
  lemma {:induction false} FilterIdempotent(t: seq<Row>, spec: FilterSpec)
    ensures ApplyFilter(ApplyFilter(t, spec), spec) == ApplyFilter(t, spec)
    decreases |t|
  {
    if t != [] {
      var init, last := t[..|t| - 1], t[|t| - 1];
      var tail := if Selected(spec, last) then [last] else [];
      FilterIdempotent(init, spec);
      FilterAppend(ApplyFilter(init, spec), tail, spec);
      FilterKeepsSelected(tail, spec);
    }
  }

  lemma FilterKeepsSelected(t: seq<Row>, spec: FilterSpec)
    requires |t| <= 1 && forall x :: x in t ==> Selected(spec, x)
    ensures ApplyFilter(t, spec) == t
  {
    if t != [] {
      assert t[..0] == [];
    }
  }

  /** An empty region or ship-mode selection selects nothing, whatever the dates. */
  lemma EmptySelection(t: seq<Row>, spec: FilterSpec)
    requires spec.regions == {} || spec.shipModes == {}
    ensures ApplyFilter(t, spec) == []
  {
  }

  /** Every kept row has an order date whose day number lies in the range, inclusive. */
  lemma KeptRowsInRange(t: seq<Row>, spec: FilterSpec, x: Row)
    requires x in ApplyFilter(t, spec)
    ensures x.order.orderDate.Some?
    ensures Ordinal(spec.start) <= Ordinal(x.order.orderDate.value) <= Ordinal(spec.end)
    ensures x.order.region in spec.regions && x.order.shipMode in spec.shipModes
  {
    OrdinalOrder(spec.start, x.order.orderDate.value);
    OrdinalOrder(x.order.orderDate.value, spec.end);
  }

  /** A reversed date range selects nothing. */
  lemma ReversedRange(t: seq<Row>, spec: FilterSpec)
    requires !DateLeq(spec.start, spec.end)
    ensures ApplyFilter(t, spec) == []
  {
    if ApplyFilter(t, spec) != [] {
      var x := ApplyFilter(t, spec)[0];
      assert x in ApplyFilter(t, spec);
      KeptRowsInRange(t, spec, x);
      OrdinalOrder(spec.start, spec.end);
    }
  }
}
