/**
 * `preprocess`: the five derived columns of an order row, first as pure
 * functions of the row's own input columns, then as the in-place update
 * of the table that assigns them column after column.
 */
module Enrichment {
  import opened Wrappers
  import opened Dates
  import opened Orders

  /** SLA of a ship mode the table does not know. */
  const NoSla: int := 999

  /** `sla_map` with `fillna(999)`: total over every cell, missing ones included. */
  function SlaDays(mode: Text): (n: int)
    ensures n == 1 <==> mode == Some("Same Day")
    ensures n == 2 <==> mode == Some("First Class")
    ensures n == 4 <==> mode == Some("Second Class")
    ensures n == 5 <==> mode == Some("Standard Class")
    ensures n == 1 || n == 2 || n == 4 || n == 5 || n == NoSla
  {
    if mode == Some("Same Day") then 1
    else if mode == Some("First Class") then 2
    else if mode == Some("Second Class") then 4
    else if mode == Some("Standard Class") then 5
    else NoSla
  }

  /** `(Ship Date - Order Date).dt.days`; NaT on either side gives NaN. */
  function ProcessingDays(orderDate: Option<Date>, shipDate: Option<Date>): (p: Option<int>)
    ensures p.Some? <==> orderDate.Some? && shipDate.Some?
    ensures p.Some? ==> p.value == DaysBetween(orderDate.value, shipDate.value)
  {
    if orderDate.Some? && shipDate.Some? then Some(DaysBetween(orderDate.value, shipDate.value))
    else None
  }

  /** `processing > sla`; a NaN processing time compares false. */
  predicate IsLate(processing: Option<int>, sla: int): (late: bool)
    ensures processing.None? ==> !late
    ensures processing.Some? ==> (late <==> processing.value >= sla + 1)
  {
    processing.Some? && processing.value > sla
  }

  /** `Profit / Sales.replace({0: nan})`: no division by zero. */
  function ProfitMargin(profit: real, sales: real): (m: Option<real>)
    ensures m.None? <==> sales == 0.0
    ensures m.Some? ==> m.value * sales == profit
  {
    if sales == 0.0 then None else Some(profit / sales)
  }

  /** Calendar-month truncation of the order date; NaT stays NaT. */
  function OrderMonth(orderDate: Option<Date>): (m: Option<Date>)
    ensures m.None? <==> orderDate.None?
    ensures m.Some? ==> m.value.day == 1 && m.value.year == orderDate.value.year
                        && m.value.month == orderDate.value.month
  {
    if orderDate.Some? then Some(MonthStart(orderDate.value)) else None
  }

  /** The derived columns of one order, from that order's own columns alone. */
  function Derive(o: Order): (d: Derived)
    ensures d.isLate <==> d.processingDays.Some? && d.processingDays.value > d.slaDays
    ensures d.slaDays >= 1
    ensures d.profitMargin.None? <==> o.sales == 0.0
    ensures d.orderMonth.None? <==> o.orderDate.None?
    ensures d.processingDays.None? ==> !d.isLate
  {
    var p := ProcessingDays(o.orderDate, o.shipDate);
    var sla := SlaDays(o.shipMode);
    Derived(p, sla, IsLate(p, sla), ProfitMargin(o.profit, o.sales), OrderMonth(o.orderDate))
  }

  /** One enriched row: input columns kept, derived columns consistent with them. */
  function EnrichRow(r: Row): (e: Row)
    ensures e.order == r.order && e.derived == Derive(e.order)
  {
    Row(r.order, Derive(r.order))
  }

  /** The enriched table: same rows, same order, input columns untouched. */
  function Enrich(t: seq<Row>): (e: seq<Row>)
    ensures |e| == |t|
    ensures forall i :: 0 <= i < |t| ==> e[i].order == t[i].order && e[i].derived == Derive(t[i].order)
  {
    seq(|t|, i requires 0 <= i < |t| => EnrichRow(t[i]))
  }

  // ---------------------------------------------------------------------
  // Properties of the derived columns

  /** With both dates present the processing time is known; it is non-negative exactly when shipping is not before ordering, and zero exactly on the same day. */
  lemma ProcessingDaysSign(o: Order)
    requires o.orderDate.Some? && o.shipDate.Some?
    ensures Derive(o).processingDays.Some?
    ensures Derive(o).processingDays.value >= 0 <==> DateLeq(o.orderDate.value, o.shipDate.value)
    ensures Derive(o).processingDays.value == 0 <==> o.orderDate == o.shipDate
  {
    DaysBetweenSign(o.orderDate.value, o.shipDate.value);
  }

  /** `Is Late` holds iff the processing time is known and strictly exceeds the SLA. */
  lemma LateIff(o: Order)
    ensures Derive(o).isLate <==>
      o.orderDate.Some? && o.shipDate.Some? &&
      DaysBetween(o.orderDate.value, o.shipDate.value) > SlaDays(o.shipMode)
  {
  }

  /**
   * An unmapped ship mode is not "never late": its SLA is 999, so only a
   * processing time above 999 days is late.
   */
  lemma UnmappedModeLateness(o: Order)
    requires o.shipMode !in {Some("Same Day"), Some("First Class"), Some("Second Class"), Some("Standard Class")}
    ensures Derive(o).slaDays == NoSla
    ensures Derive(o).isLate <==> Derive(o).processingDays.Some? && Derive(o).processingDays.value > NoSla
  {
  }

  /** A missing date gives no processing time, no lateness; a missing order date gives no month. */
  lemma MissingDates(o: Order)
    ensures o.orderDate.None? || o.shipDate.None? ==> Derive(o).processingDays.None? && !Derive(o).isLate
    ensures o.orderDate.None? <==> Derive(o).orderMonth.None?
  {
  }

  /** Five days on Standard Class is on time, six is late. */
  lemma StandardClassScenario(o: Order)
    requires o.shipMode == Some("Standard Class")
    requires o.orderDate == Some(YMD(2024, 3, 1))
    requires o.shipDate == Some(YMD(2024, 3, 6)) || o.shipDate == Some(YMD(2024, 3, 7))
    ensures Derive(o).slaDays == 5
    ensures o.shipDate == Some(YMD(2024, 3, 6)) ==> Derive(o).processingDays == Some(5) && !Derive(o).isLate
    ensures o.shipDate == Some(YMD(2024, 3, 7)) ==> Derive(o).processingDays == Some(6) && Derive(o).isLate
  {
  }

  /** Zero sales gives no margin whatever the profit. */
  lemma ZeroSalesScenario(o: Order)
    requires o.sales == 0.0
    ensures Derive(o).profitMargin.None?
  {
  }

  // ---------------------------------------------------------------------
  // Properties of the table transform

  /** Enriching an enriched table changes nothing: derived columns depend on the input columns only. */
  lemma EnrichIdempotent(t: seq<Row>)
    ensures Enrich(Enrich(t)) == Enrich(t)
  {
  }

  /** Two tables with the same input columns enrich to the same table, whatever their old derived columns. */
  lemma EnrichIgnoresDerived(t1: seq<Row>, t2: seq<Row>)
    requires |t1| == |t2|
    requires forall i :: 0 <= i < |t1| ==> t1[i].order == t2[i].order
    ensures Enrich(t1) == Enrich(t2)
  {
  }

  /** Enrichment works row by row: enriching a concatenation concatenates. */
  lemma EnrichAppend(a: seq<Row>, b: seq<Row>)
    ensures Enrich(a + b) == Enrich(a) + Enrich(b)
  {
  }

  // ---------------------------------------------------------------------
  // The in-place pipeline: one pass per assigned column, in source order

  method AddProcessingTime(a: array<Row>)
    modifies a
    ensures forall i :: 0 <= i < a.Length ==>
      a[i] == old(a[i]).(derived := old(a[i]).derived.(processingDays :=
        ProcessingDays(old(a[i]).order.orderDate, old(a[i]).order.shipDate)))
  {
    for i := 0 to a.Length
      invariant forall k :: 0 <= k < i ==>
        a[k] == old(a[k]).(derived := old(a[k]).derived.(processingDays :=
          ProcessingDays(old(a[k]).order.orderDate, old(a[k]).order.shipDate)))
      invariant forall k :: i <= k < a.Length ==> a[k] == old(a[k])
    {
      var r := a[i];
      a[i] := r.(derived := r.derived.(processingDays := ProcessingDays(r.order.orderDate, r.order.shipDate)));
    }
  }

  method AddSlaDays(a: array<Row>)
    modifies a
    ensures forall i :: 0 <= i < a.Length ==>
      a[i] == old(a[i]).(derived := old(a[i]).derived.(slaDays := SlaDays(old(a[i]).order.shipMode)))
  {
    for i := 0 to a.Length
      invariant forall k :: 0 <= k < i ==>
        a[k] == old(a[k]).(derived := old(a[k]).derived.(slaDays := SlaDays(old(a[k]).order.shipMode)))
      invariant forall k :: i <= k < a.Length ==> a[k] == old(a[k])
    {
      var r := a[i];
      a[i] := r.(derived := r.derived.(slaDays := SlaDays(r.order.shipMode)));
    }
  }

  /** Reads the two columns the earlier passes wrote. */
  method AddLateFlag(a: array<Row>)
    modifies a
    ensures forall i :: 0 <= i < a.Length ==>
      a[i] == old(a[i]).(derived := old(a[i]).derived.(isLate :=
        IsLate(old(a[i]).derived.processingDays, old(a[i]).derived.slaDays)))
  {
    for i := 0 to a.Length
      invariant forall k :: 0 <= k < i ==>
        a[k] == old(a[k]).(derived := old(a[k]).derived.(isLate :=
          IsLate(old(a[k]).derived.processingDays, old(a[k]).derived.slaDays)))
      invariant forall k :: i <= k < a.Length ==> a[k] == old(a[k])
    {
      var r := a[i];
      a[i] := r.(derived := r.derived.(isLate := IsLate(r.derived.processingDays, r.derived.slaDays)));
    }
  }

  method AddProfitMargin(a: array<Row>)
    modifies a
    ensures forall i :: 0 <= i < a.Length ==>
      a[i] == old(a[i]).(derived := old(a[i]).derived.(profitMargin :=
        ProfitMargin(old(a[i]).order.profit, old(a[i]).order.sales)))
  {
    for i := 0 to a.Length
      invariant forall k :: 0 <= k < i ==>
        a[k] == old(a[k]).(derived := old(a[k]).derived.(profitMargin :=
          ProfitMargin(old(a[k]).order.profit, old(a[k]).order.sales)))
      invariant forall k :: i <= k < a.Length ==> a[k] == old(a[k])
    {
      var r := a[i];
      a[i] := r.(derived := r.derived.(profitMargin := ProfitMargin(r.order.profit, r.order.sales)));
    }
  }

  method AddOrderMonth(a: array<Row>)
    modifies a
    ensures forall i :: 0 <= i < a.Length ==>
      a[i] == old(a[i]).(derived := old(a[i]).derived.(orderMonth := OrderMonth(old(a[i]).order.orderDate)))
  {
    for i := 0 to a.Length
      invariant forall k :: 0 <= k < i ==>
        a[k] == old(a[k]).(derived := old(a[k]).derived.(orderMonth := OrderMonth(old(a[k]).order.orderDate)))
      invariant forall k :: i <= k < a.Length ==> a[k] == old(a[k])
    {
      var r := a[i];
      a[i] := r.(derived := r.derived.(orderMonth := OrderMonth(r.order.orderDate)));
    }
  }

  /** `preprocess(df)`: the table afterwards is the enriched table of the table before. */
  method Preprocess(a: array<Row>)
    modifies a
    ensures a[..] == Enrich(old(a[..]))
  {
    AddProcessingTime(a);
    AddSlaDays(a);
    AddLateFlag(a);
    AddProfitMargin(a);
    AddOrderMonth(a);
    assert forall i :: 0 <= i < a.Length ==> a[i] == EnrichRow(old(a[i]));
  }
}
