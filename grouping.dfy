/**
 * `groupby(keys).agg(...)` over the filtered table: rows are partitioned
 * by the value of one or more key columns (a row with a missing key cell
 * is dropped, as pandas does by default), and each group is reduced by
 * sum, mean or distinct count.
 */
module Grouping {
  import opened Wrappers
  import opened Dates
  import opened Orders

  /** The columns the dashboard groups by. */
  datatype KeyColumn =
    | MonthKey | ShipModeKey | PriorityKey | CategoryKey | SubCategoryKey
    | ProductKey | CustomerNameKey | SegmentKey | RegionKey

  /** One cell of a grouping key. */
  datatype KeyValue = Str(s: string) | Month(d: Date)

  /** The numeric columns the dashboard reduces. */
  datatype Measure = ProcessingTime | Sales | Profit | Discount | ShippingCost | Quantity

  /** The identifier columns whose distinct values are counted. */
  datatype IdColumn = OrderIds | CustomerIds

  /** `sum`, `mean` and `nunique`. */
  datatype Reducer = SumOf(m: Measure) | MeanOf(m: Measure) | CountDistinct(c: IdColumn)

  /** A row of an aggregated table: its key and one value per reducer (`None` is NaN). */
  datatype AggRow = AggRow(key: seq<KeyValue>, values: seq<Option<real>>)

  /** A group: its key and its rows in table order. */
  datatype Group = Group(key: seq<KeyValue>, rows: seq<Row>)

  function TextKey(t: Text): Option<KeyValue> {
    if t.Some? then Some(Str(t.value)) else None
  }

  function ColumnValue(r: Row, c: KeyColumn): Option<KeyValue> {
    match c
    case MonthKey => if r.derived.orderMonth.Some? then Some(Month(r.derived.orderMonth.value)) else None
    case ShipModeKey => TextKey(r.order.shipMode)
    case PriorityKey => TextKey(r.order.orderPriority)
    case CategoryKey => TextKey(r.order.category)
    case SubCategoryKey => TextKey(r.order.subCategory)
    case ProductKey => TextKey(r.order.productName)
    case CustomerNameKey => TextKey(r.order.customerName)
    case SegmentKey => TextKey(r.order.segment)
    case RegionKey => TextKey(r.order.region)
  }

  /** The row's key over `cols`; missing as soon as one of its cells is. */
  function KeyOf(r: Row, cols: seq<KeyColumn>): (k: Option<seq<KeyValue>>)
    ensures k.Some? <==> forall i :: 0 <= i < |cols| ==> ColumnValue(r, cols[i]).Some?
    ensures k.Some? ==> (|k.value| == |cols| &&
      forall i :: 0 <= i < |cols| ==> k.value[i] == ColumnValue(r, cols[i]).value)
  {
    if cols == [] then Some([])
    else
      var head, rest := ColumnValue(r, cols[0]), KeyOf(r, cols[1..]);
      if head.Some? && rest.Some? then
        assert forall i :: 1 <= i < |cols| ==> cols[i] == cols[1..][i - 1];
        Some([head.value] + rest.value)
      else
        assert head.None? ==> !ColumnValue(r, cols[0]).Some?;
        assert rest.None? ==> exists i :: 0 <= i < |cols[1..]| && ColumnValue(r, cols[1..][i]).None?;
        None
  }

  /** The value of a measure in a row; a missing processing time is NaN. */
  function MeasureOf(r: Row, m: Measure): Option<real> {
    match m
    case ProcessingTime =>
      if r.derived.processingDays.Some? then Some(r.derived.processingDays.value as real) else None
    case Sales => Some(r.order.sales)
    case Profit => Some(r.order.profit)
    case Discount => Some(r.order.discount)
    case ShippingCost => Some(r.order.shippingCost)
    case Quantity => Some(r.order.quantity as real)
  }

  function IdOf(r: Row, c: IdColumn): Text {
    match c
    case OrderIds => r.order.orderId
    case CustomerIds => r.order.customerId
  }

  // ---------------------------------------------------------------------
  // Reducers over a sequence of rows

  /** `sum()`: NaN cells are skipped; the empty sum is 0. */
  function Sum(t: seq<Row>, m: Measure): (s: real)
    ensures (forall i :: 0 <= i < |t| ==> MeasureOf(t[i], m).None?) ==> s == 0.0
  {
    if t == [] then 0.0 else Sum(t[..|t| - 1], m) + MeasureOf(t[|t| - 1], m).GetOr(0.0)
  }

  /** `count()`: the number of non-NaN cells. */
  function Count(t: seq<Row>, m: Measure): (n: nat)
    ensures n == |set i | 0 <= i < |t| && MeasureOf(t[i], m).Some?|
    ensures n == 0 <==> forall i :: 0 <= i < |t| ==> MeasureOf(t[i], m).None?
    ensures n <= |t|
  {
    if t == [] then 0
    else
      var init, last := t[..|t| - 1], t[|t| - 1];
      assert (set i | 0 <= i < |t| && MeasureOf(t[i], m).Some?)
          == (set i | 0 <= i < |init| && MeasureOf(init[i], m).Some?)
             + (if MeasureOf(last, m).Some? then {|t| - 1} else {});
      Count(init, m) + (if MeasureOf(last, m).Some? then 1 else 0)
  }

  /** A measure read from an input column that is never NaN in the model is counted on every row. */
  lemma {:induction false} CountAlwaysPresent(t: seq<Row>, m: Measure)
    requires m != ProcessingTime
    ensures Count(t, m) == |t|
    decreases |t|
  {
    if t != [] {
      CountAlwaysPresent(t[..|t| - 1], m);
    }
  }

  /** `mean()`: NaN (`None`) when there is no non-NaN cell. */
  function Mean(t: seq<Row>, m: Measure): (r: Option<real>)
    ensures r.None? <==> Count(t, m) == 0
    ensures r.None? <==> forall i :: 0 <= i < |t| ==> MeasureOf(t[i], m).None?
  {
    if Count(t, m) == 0 then None else Some(Sum(t, m) / (Count(t, m) as real))
  }

  /** The mean times the number of known values is their sum. */
  lemma {:induction false} MeanTimesCount(t: seq<Row>, m: Measure)
    requires Mean(t, m).Some?
    ensures Mean(t, m).value * (Count(t, m) as real) == Sum(t, m)
  {
    QuotientTimes(Mean(t, m).value, Sum(t, m), Count(t, m) as real);
  }

  lemma QuotientTimes(q: real, a: real, b: real)
    requires b != 0.0 && q == a / b
    ensures q * b == a
  {
  }

  /** The distinct non-missing identifiers of a column (what `nunique()` counts). */
  function DistinctIds(t: seq<Row>, c: IdColumn): (s: set<string>)
    ensures |s| <= |t|
  {
    if t == [] then {}
    else
      var id := IdOf(t[|t| - 1], c);
      DistinctIds(t[..|t| - 1], c) + (if id.Some? then {id.value} else {})
  }

  function Reduce(t: seq<Row>, red: Reducer): Option<real> {
    match red
    case SumOf(m) => Some(Sum(t, m))
    case MeanOf(m) => Mean(t, m)
    case CountDistinct(c) => Some(|DistinctIds(t, c)| as real)
  }

  lemma SumSnoc(t: seq<Row>, x: Row, m: Measure)
    ensures Sum(t + [x], m) == Sum(t, m) + MeasureOf(x, m).GetOr(0.0)
  {
    assert (t + [x])[..|t|] == t;
  }

  /** Sums are additive over concatenation. */
  lemma {:induction false} SumAppend(a: seq<Row>, b: seq<Row>, m: Measure)
    ensures Sum(a + b, m) == Sum(a, m) + Sum(b, m)
    decreases |b|
  {
    if b == [] {
      assert a + b == a;
    } else {
      var init, last := b[..|b| - 1], b[|b| - 1];
      assert a + b == (a + init) + [last];
      SumAppend(a, init, m);
      SumSnoc(a + init, last, m);
    }
  }

  /** An identifier is counted iff some row carries it. */
  lemma {:induction false} DistinctIdsMembers(t: seq<Row>, c: IdColumn, x: string)
    ensures x in DistinctIds(t, c) <==> exists i :: 0 <= i < |t| && IdOf(t[i], c) == Some(x)
    decreases |t|
  {
    if t != [] {
      var init := t[..|t| - 1];
      DistinctIdsMembers(init, c, x);
      if x in DistinctIds(init, c) {
        var i :| 0 <= i < |init| && IdOf(init[i], c) == Some(x);
        assert t[i] == init[i];
      }
      if exists i :: 0 <= i < |t| && IdOf(t[i], c) == Some(x) {
        var i :| 0 <= i < |t| && IdOf(t[i], c) == Some(x);
        if i < |init| {
          assert init[i] == t[i];
        }
      }
    }
  }

  /** The `nunique()` set is the set of the rows' non-missing identifiers. */
  lemma DistinctIdsAsSet(t: seq<Row>, c: IdColumn)
    ensures DistinctIds(t, c) == set i | 0 <= i < |t| && IdOf(t[i], c).Some? :: IdOf(t[i], c).value
  {
    forall x
      ensures x in DistinctIds(t, c) <==> x in set i | 0 <= i < |t| && IdOf(t[i], c).Some? :: IdOf(t[i], c).value
    {
      DistinctIdsMembers(t, c, x);
    }
  }

  // ---------------------------------------------------------------------
  // Partitioning by key

  /** The rows whose key over `cols` is `k`, in table order. */
  function Select(t: seq<Row>, cols: seq<KeyColumn>, k: seq<KeyValue>): (r: seq<Row>)
    ensures |r| <= |t|
    ensures forall x :: x in r <==> x in t && KeyOf(x, cols) == Some(k)
  {
    if t == [] then []
    else Select(t[..|t| - 1], cols, k) + (if KeyOf(t[|t| - 1], cols) == Some(k) then [t[|t| - 1]] else [])
  }

  /** The rows whose key over `cols` has no missing cell. */
  function Keyed(t: seq<Row>, cols: seq<KeyColumn>): (r: seq<Row>)
    ensures |r| <= |t|
    ensures forall x :: x in r <==> x in t && KeyOf(x, cols).Some?
  {
    if t == [] then []
    else Keyed(t[..|t| - 1], cols) + (if KeyOf(t[|t| - 1], cols).Some? then [t[|t| - 1]] else [])
  }

  /** When every row has its key, the group-by drops no row. */
  lemma {:induction false} AllKeyed(t: seq<Row>, cols: seq<KeyColumn>)
    requires forall x :: x in t ==> KeyOf(x, cols).Some?
    ensures Keyed(t, cols) == t
    decreases |t|
  {
    if t != [] {
      var init, last := t[..|t| - 1], t[|t| - 1];
      assert last in t;
      forall x | x in init ensures KeyOf(x, cols).Some? {
        assert x in t;
      }
      AllKeyed(init, cols);
      assert t == init + [last];
    }
  }

  function Keys(gs: seq<Group>): set<seq<KeyValue>> {
    if gs == [] then {} else {gs[0].key} + Keys(gs[1..])
  }

  predicate DistinctKeys(gs: seq<Group>) {
    gs == [] || (gs[0].key !in Keys(gs[1..]) && DistinctKeys(gs[1..]))
  }

  predicate NonEmptyGroups(gs: seq<Group>) {
    forall i :: 0 <= i < |gs| ==> gs[i].rows != []
  }

  /** The rows of the group with key `k`, or none. */
  function LookupRows(gs: seq<Group>, k: seq<KeyValue>): seq<Row> {
    if gs == [] then [] else if gs[0].key == k then gs[0].rows else LookupRows(gs[1..], k)
  }

  /** Sum of a measure over all groups. */
  function TotalOver(gs: seq<Group>, m: Measure): real {
    if gs == [] then 0.0 else Sum(gs[0].rows, m) + TotalOver(gs[1..], m)
  }

  /** Append row `r` to the group with key `k`, opening a new group at the end if there is none. */
  function AddToGroup(gs: seq<Group>, k: seq<KeyValue>, r: Row): (res: seq<Group>)
    requires DistinctKeys(gs) && NonEmptyGroups(gs)
    ensures DistinctKeys(res) && NonEmptyGroups(res)
    ensures Keys(res) == Keys(gs) + {k}
    ensures |res| <= |gs| + 1
    ensures forall k' :: LookupRows(res, k') == LookupRows(gs, k') + (if k' == k then [r] else [])
    ensures forall m :: TotalOver(res, m) == TotalOver(gs, m) + MeasureOf(r, m).GetOr(0.0)
  {
    if gs == [] then
      assert forall m :: Sum([r], m) == MeasureOf(r, m).GetOr(0.0) by {
        forall m { SumSnoc([], r, m); }
      }
      [Group(k, [r])]
    else if gs[0].key == k then
      var g := Group(k, gs[0].rows + [r]);
      assert forall m :: Sum(g.rows, m) == Sum(gs[0].rows, m) + MeasureOf(r, m).GetOr(0.0) by {
        forall m { SumSnoc(gs[0].rows, r, m); }
      }
      assert forall k' :: k' != k ==> LookupRows(gs[1..], k') == LookupRows(gs, k');
      LookupAbsent(gs[1..], k);
      [g] + gs[1..]
    else
      var rest := AddToGroup(gs[1..], k, r);
      assert ([gs[0]] + rest)[1..] == rest;
      [gs[0]] + rest
  }

  lemma {:induction false} LookupAbsent(gs: seq<Group>, k: seq<KeyValue>)
    requires k !in Keys(gs)
    ensures LookupRows(gs, k) == []
    decreases |gs|
  {
    if gs != [] {
      LookupAbsent(gs[1..], k);
    }
  }

  /** The groups of a table, in order of each key's first row. */
  function GroupRows(t: seq<Row>, cols: seq<KeyColumn>): (gs: seq<Group>)
    ensures DistinctKeys(gs) && NonEmptyGroups(gs)
    ensures |gs| <= |t|
    ensures forall k :: LookupRows(gs, k) == Select(t, cols, k)
    ensures forall m :: TotalOver(gs, m) == Sum(Keyed(t, cols), m)
  {
    if t == [] then []
    else
      var init, last := t[..|t| - 1], t[|t| - 1];
      var prev := GroupRows(init, cols);
      match KeyOf(last, cols)
      case None =>
        assert Keyed(t, cols) == Keyed(init, cols);
        prev
      case Some(k) =>
        assert forall m :: Sum(Keyed(t, cols), m) == Sum(Keyed(init, cols), m) + MeasureOf(last, m).GetOr(0.0) by {
          forall m { SumSnoc(Keyed(init, cols), last, m); }
        }
        AddToGroup(prev, k, last)
  }

  lemma {:induction false} LookupOwnKey(gs: seq<Group>, i: nat)
    requires DistinctKeys(gs) && i < |gs|
    ensures LookupRows(gs, gs[i].key) == gs[i].rows
    decreases i
  {
    if i > 0 {
      assert gs[1..][i - 1] == gs[i];
      KeysMembers(gs[1..], i - 1);
      LookupOwnKey(gs[1..], i - 1);
    }
  }

  lemma {:induction false} KeysMembers(gs: seq<Group>, i: nat)
    requires i < |gs|
    ensures gs[i].key in Keys(gs)
    decreases i
  {
    if i > 0 {
      assert gs[1..][i - 1] == gs[i];
      KeysMembers(gs[1..], i - 1);
    }
  }

  /** The recursive distinctness is the pairwise one. */
  lemma {:induction false} DistinctKeysPairwise(gs: seq<Group>, i: nat, j: nat)
    requires DistinctKeys(gs) && i < j < |gs|
    ensures gs[i].key != gs[j].key
    decreases i
  {
    assert gs[1..][j - 1] == gs[j];
    if i == 0 {
      KeysMembers(gs[1..], j - 1);
    } else {
      assert gs[1..][i - 1] == gs[i];
      DistinctKeysPairwise(gs[1..], i - 1, j - 1);
    }
  }

  /** A key that finds rows is the key of one of the groups. */
  lemma {:induction false} LookupFound(gs: seq<Group>, k: seq<KeyValue>)
    requires NonEmptyGroups(gs)
    requires LookupRows(gs, k) != []
    ensures exists i :: 0 <= i < |gs| && gs[i].key == k
    decreases |gs|
  {
    if gs[0].key != k {
      assert NonEmptyGroups(gs[1..]) by {
        forall i | 0 <= i < |gs[1..]| ensures gs[1..][i].rows != [] { assert gs[1..][i] == gs[i + 1]; }
      }
      LookupFound(gs[1..], k);
      var i :| 0 <= i < |gs[1..]| && gs[1..][i].key == k;
      assert gs[i + 1].key == k;
    }
  }

  // ---------------------------------------------------------------------
  // Aggregated tables

  function ReduceAll(t: seq<Row>, reds: seq<Reducer>): (vs: seq<Option<real>>)
    ensures |vs| == |reds| && forall j :: 0 <= j < |reds| ==> vs[j] == Reduce(t, reds[j])
  {
    seq(|reds|, j requires 0 <= j < |reds| => Reduce(t, reds[j]))
  }

  function Summarize(gs: seq<Group>, reds: seq<Reducer>): (r: seq<AggRow>)
    ensures |r| == |gs|
    ensures forall i :: 0 <= i < |gs| ==> r[i] == AggRow(gs[i].key, ReduceAll(gs[i].rows, reds))
  {
    if gs == [] then [] else [AggRow(gs[0].key, ReduceAll(gs[0].rows, reds))] + Summarize(gs[1..], reds)
  }

  /**
   * `df.groupby(cols).agg(reds)`: one row per distinct complete key, and
   * each value is the reducer over exactly the rows with that key.
   */
  function GroupBy(t: seq<Row>, cols: seq<KeyColumn>, reds: seq<Reducer>): (r: seq<AggRow>)
    ensures |r| <= |t|
    ensures forall i, j :: 0 <= i < j < |r| ==> r[i].key != r[j].key
    ensures forall i :: 0 <= i < |r| ==>
      Select(t, cols, r[i].key) != [] && r[i].values == ReduceAll(Select(t, cols, r[i].key), reds)
    ensures forall x :: x in t && KeyOf(x, cols).Some? ==>
      exists i :: 0 <= i < |r| && r[i].key == KeyOf(x, cols).value
  {
    var gs := GroupRows(t, cols);
    GroupByFacts(t, cols, gs);
    Summarize(gs, reds)
  }

  /**
   * `r` lists every distinct complete key of `t` over `cols` exactly once,
   * and no key that no row carries.
   */
  predicate OneRowPerKey(r: seq<AggRow>, t: seq<Row>, cols: seq<KeyColumn>) {
    && (forall i, j :: 0 <= i < j < |r| ==> r[i].key != r[j].key)
    && (forall i :: 0 <= i < |r| ==> Select(t, cols, r[i].key) != [])
    && (forall x :: x in t && KeyOf(x, cols).Some? ==> exists i :: 0 <= i < |r| && r[i].key == KeyOf(x, cols).value)
  }

  /** Column `j` of `r` holds, on each row, the sum of `m` over the rows carrying that row's key. */
  predicate SumsPerKey(r: seq<AggRow>, t: seq<Row>, cols: seq<KeyColumn>, j: nat, m: Measure) {
    forall i :: 0 <= i < |r| ==> Cell(r[i], j) == Some(Sum(Select(t, cols, r[i].key), m))
  }

  lemma GroupByOneRowPerKey(t: seq<Row>, cols: seq<KeyColumn>, reds: seq<Reducer>)
    ensures OneRowPerKey(GroupBy(t, cols, reds), t, cols)
  {
  }

  /** Aggregation `j` of the group-by holds, on each row, reducer `j` over the rows with that row's key. */
  lemma GroupByCells(t: seq<Row>, cols: seq<KeyColumn>, reds: seq<Reducer>, j: nat)
    requires j < |reds|
    ensures var r := GroupBy(t, cols, reds);
      forall i :: 0 <= i < |r| ==> Cell(r[i], j) == Reduce(Select(t, cols, r[i].key), reds[j])
  {
    var r := GroupBy(t, cols, reds);
    forall i | 0 <= i < |r| ensures Cell(r[i], j) == Reduce(Select(t, cols, r[i].key), reds[j]) {
      assert r[i].values == ReduceAll(Select(t, cols, r[i].key), reds);
    }
  }

  /** A `sum` aggregation of the group-by holds each key's own sum. */
  lemma GroupBySums(t: seq<Row>, cols: seq<KeyColumn>, reds: seq<Reducer>, j: nat, m: Measure)
    requires j < |reds| && reds[j] == SumOf(m)
    ensures SumsPerKey(GroupBy(t, cols, reds), t, cols, j, m)
  {
    var r := GroupBy(t, cols, reds);
    forall i | 0 <= i < |r| ensures Cell(r[i], j) == Some(Sum(Select(t, cols, r[i].key), m)) {
      assert r[i].values == ReduceAll(Select(t, cols, r[i].key), reds);
    }
  }

  lemma GroupByFacts(t: seq<Row>, cols: seq<KeyColumn>, gs: seq<Group>)
    requires gs == GroupRows(t, cols)
    ensures forall i, j :: 0 <= i < j < |gs| ==> gs[i].key != gs[j].key
    ensures forall i :: 0 <= i < |gs| ==> gs[i].rows == Select(t, cols, gs[i].key) && gs[i].rows != []
    ensures forall x :: x in t && KeyOf(x, cols).Some? ==>
      exists i :: 0 <= i < |gs| && gs[i].key == KeyOf(x, cols).value
  {
    forall i, j | 0 <= i < j < |gs| ensures gs[i].key != gs[j].key {
      DistinctKeysPairwise(gs, i, j);
    }
    forall i | 0 <= i < |gs| ensures gs[i].rows == Select(t, cols, gs[i].key) {
      LookupOwnKey(gs, i);
    }
    forall x | x in t && KeyOf(x, cols).Some?
      ensures exists i :: 0 <= i < |gs| && gs[i].key == KeyOf(x, cols).value
    {
      LookupFound(gs, KeyOf(x, cols).value);
    }
  }

  /** Value `j` of an aggregated row, NaN when there is none. */
  function Cell(row: AggRow, j: nat): Option<real> {
    if j < |row.values| then row.values[j] else None
  }

  /** Sum of column `j` of an aggregated table, NaN cells skipped. */
  function ColumnTotal(rs: seq<AggRow>, j: nat): real {
    if rs == [] then 0.0 else Cell(rs[0], j).GetOr(0.0) + ColumnTotal(rs[1..], j)
  }

  lemma {:induction false} SummarizeTotal(gs: seq<Group>, reds: seq<Reducer>, j: nat, m: Measure)
    requires j < |reds| && reds[j] == SumOf(m)
    ensures ColumnTotal(Summarize(gs, reds), j) == TotalOver(gs, m)
    decreases |gs|
  {
    if gs != [] {
      var r := Summarize(gs, reds);
      assert r[1..] == Summarize(gs[1..], reds);
      SummarizeTotal(gs[1..], reds, j, m);
    }
  }

  /**
   * The group sums of a summed column add up to the column's sum over the
   * rows whose key is complete: no row is counted twice and none is lost.
   */
  lemma GroupSumsAddUp(t: seq<Row>, cols: seq<KeyColumn>, reds: seq<Reducer>, j: nat, m: Measure)
    requires j < |reds| && reds[j] == SumOf(m)
    ensures ColumnTotal(GroupBy(t, cols, reds), j) == Sum(Keyed(t, cols), m)
  {
    SummarizeTotal(GroupRows(t, cols), reds, j, m);
  }

  lemma {:induction false} SelectNone(t: seq<Row>, cols: seq<KeyColumn>, k: seq<KeyValue>)
    requires forall x :: x in t ==> KeyOf(x, cols).None?
    ensures Select(t, cols, k) == []
    decreases |t|
  {
    if t != [] {
      assert t[|t| - 1] in t;
      assert forall x :: x in t[..|t| - 1] ==> x in t;
      SelectNone(t[..|t| - 1], cols, k);
    }
  }

  /** An empty table has no groups; a table with no complete key has none either. */
  lemma NoKeysNoGroups(t: seq<Row>, cols: seq<KeyColumn>, reds: seq<Reducer>)
    requires forall x :: x in t ==> KeyOf(x, cols).None?
    ensures GroupBy(t, cols, reds) == []
  {
    forall k ensures Select(t, cols, k) == [] {
      SelectNone(t, cols, k);
    }
  }
}
