/**
 * The scalar metrics and aggregated tables of the four dashboard tabs,
 * each computed from the filtered table, and the whole pipeline from the
 * loaded table to the tabs.
 */
module Dashboard {
  import opened Wrappers
  import opened Orders
  import opened Enrichment
  import opened Filtering
  import opened Grouping
  import opened Ranking

  /** `df['Is Late'].sum()`. */
  function LateCount(t: seq<Row>): (n: nat)
    ensures n == |set i | 0 <= i < |t| && t[i].derived.isLate|
    ensures n <= |t|
  {
    if t == [] then 0
    else
      var init, last := t[..|t| - 1], t[|t| - 1];
      assert (set i | 0 <= i < |t| && t[i].derived.isLate)
          == (set i | 0 <= i < |init| && init[i].derived.isLate)
             + (if last.derived.isLate then {|t| - 1} else {});
      LateCount(init) + (if last.derived.isLate then 1 else 0)
  }

  /** Each late row counts once: a table whose rows are all late counts every row. */
  lemma {:induction false} LateCountAll(t: seq<Row>)
    ensures LateCount(t) == |t| <==> forall x :: x in t ==> x.derived.isLate
    ensures LateCount(t) == 0 <==> forall x :: x in t ==> !x.derived.isLate
    decreases |t|
  {
    if t != [] {
      var init, last := t[..|t| - 1], t[|t| - 1];
      LateCountAll(init);
      assert t == init + [last];
      assert forall x :: x in t <==> x in init || x == last;
    }
  }

  /** Python's `max(1, x)`. */
  function AtLeastOne(x: real): (r: real)
    ensures r >= 1.0 && r >= x && (r == x || r == 1.0)
  {
    if x > 1.0 then x else 1.0
  }

  lemma RatioAtMostOne(a: real, b: real)
    requires 0.0 <= a <= b && b >= 1.0
    ensures 0.0 <= a / b <= 1.0
  {
    assert a / b * b == a;
  }

  /** `100 * late_orders / max(1, df_filtered.shape[0])`. */
  function LatePercent(t: seq<Row>): (p: real)
    ensures 0.0 <= p <= 100.0
    ensures t == [] ==> p == 0.0
    ensures p == 0.0 <==> LateCount(t) == 0
  {
    var d := AtLeastOne(|t| as real);
    RatioAtMostOne(LateCount(t) as real, d);
    100.0 * ((LateCount(t) as real) / d)
  }

  lemma RatioIsOne(a: real, b: real)
    requires b > 0.0
    ensures a / b * b == a
    ensures a / b == 1.0 <==> a == b
  {
  }

  /** The late share is the late count over the row count, the empty table dividing by one. */
  lemma LatePercentFormula(t: seq<Row>)
    ensures LatePercent(t) * AtLeastOne(|t| as real) == 100.0 * (LateCount(t) as real)
  {
    ScaledRatio(LatePercent(t), LateCount(t) as real, AtLeastOne(|t| as real));
  }

  lemma ScaledRatio(p: real, a: real, b: real)
    requires b > 0.0 && p == 100.0 * (a / b)
    ensures p * b == 100.0 * a
  {
    RatioIsOne(a, b);
    assert p * b == 100.0 * ((a / b) * b);
  }

  /** The share is 100% exactly when the table is not empty and every row is late. */
  lemma AllLate(t: seq<Row>)
    ensures LatePercent(t) == 100.0 <==> t != [] && forall x :: x in t ==> x.derived.isLate
  {
    var d := AtLeastOne(|t| as real);
    var l := LateCount(t) as real;
    RatioIsOne(l, d);
    LateCountAll(t);
    assert LatePercent(t) == 100.0 * (l / d);
  }

  /** `Profit.sum() / max(1, Sales.sum())`: never divides by zero. */
  function OverallMargin(t: seq<Row>): (m: real)
    ensures Sum(t, Sales) <= 1.0 ==> m == Sum(t, Profit)
  {
    Sum(t, Profit) / AtLeastOne(Sum(t, Sales))
  }

  /** The margin times the protected denominator is the profit; with sales of at least 1 it is profit over sales. */
  lemma MarginFormula(t: seq<Row>)
    ensures OverallMargin(t) * AtLeastOne(Sum(t, Sales)) == Sum(t, Profit)
    ensures Sum(t, Sales) >= 1.0 ==> OverallMargin(t) == Sum(t, Profit) / Sum(t, Sales)
  {
  }

  /** `Order ID.nunique()` and `Customer ID.nunique()`. */
  function TotalOrders(t: seq<Row>): (n: nat)
    ensures n == |set i | 0 <= i < |t| && t[i].order.orderId.Some? :: t[i].order.orderId.value|
    ensures n <= |t|
  {
    DistinctIdsAsSet(t, OrderIds);
    assert (set i | 0 <= i < |t| && IdOf(t[i], OrderIds).Some? :: IdOf(t[i], OrderIds).value)
        == (set i | 0 <= i < |t| && t[i].order.orderId.Some? :: t[i].order.orderId.value);
    |DistinctIds(t, OrderIds)|
  }

  function TotalCustomers(t: seq<Row>): (n: nat)
    ensures n == |set i | 0 <= i < |t| && t[i].order.customerId.Some? :: t[i].order.customerId.value|
    ensures n <= |t|
  {
    DistinctIdsAsSet(t, CustomerIds);
    assert (set i | 0 <= i < |t| && IdOf(t[i], CustomerIds).Some? :: IdOf(t[i], CustomerIds).value)
        == (set i | 0 <= i < |t| && t[i].order.customerId.Some? :: t[i].order.customerId.value);
    |DistinctIds(t, CustomerIds)|
  }

  // ---------------------------------------------------------------------
  // The datasets behind the charts, one per `groupby` of the source

  /** `groupby('order_month')['Order Processing Time'].mean()`. */
  function MonthlyProcessing(t: seq<Row>): (r: seq<AggRow>)
    ensures |r| <= |t|
    ensures forall i :: 0 <= i < |r| ==>
      Select(t, [MonthKey], r[i].key) != [] && r[i].values == [Mean(Select(t, [MonthKey], r[i].key), ProcessingTime)]
    ensures OneRowPerKey(r, t, [MonthKey])
  {
    GroupByOneRowPerKey(t, [MonthKey], [MeanOf(ProcessingTime)]);
    GroupBy(t, [MonthKey], [MeanOf(ProcessingTime)])
  }

  /** `groupby('Ship Mode')['Order Processing Time'].mean()`. */
  function ProcessingByMode(t: seq<Row>): (r: seq<AggRow>)
    ensures |r| <= |t|
    ensures forall i :: 0 <= i < |r| ==>
      Select(t, [ShipModeKey], r[i].key) != [] && r[i].values == [Mean(Select(t, [ShipModeKey], r[i].key), ProcessingTime)]
    ensures OneRowPerKey(r, t, [ShipModeKey])
  {
    GroupByOneRowPerKey(t, [ShipModeKey], [MeanOf(ProcessingTime)]);
    GroupBy(t, [ShipModeKey], [MeanOf(ProcessingTime)])
  }

  /** `groupby('Order Priority').agg(Order_Count=nunique Order ID, Avg_Time=mean processing time)`. */
  function PriorityTable(t: seq<Row>): (r: seq<AggRow>)
    ensures |r| <= |t|
    ensures OneRowPerKey(r, t, [PriorityKey])
    ensures forall i :: 0 <= i < |r| ==>
      Cell(r[i], 0) == Some(|DistinctIds(Select(t, [PriorityKey], r[i].key), OrderIds)| as real) &&
      Cell(r[i], 1) == Mean(Select(t, [PriorityKey], r[i].key), ProcessingTime)
  {
    var reds := [CountDistinct(OrderIds), MeanOf(ProcessingTime)];
    GroupByOneRowPerKey(t, [PriorityKey], reds);
    GroupByCells(t, [PriorityKey], reds, 0);
    GroupByCells(t, [PriorityKey], reds, 1);
    GroupBy(t, [PriorityKey], reds)
  }


  /** `groupby('order_month')[['Sales', 'Profit']].sum()`: the monthly sums add up to the totals over dated rows. */
  function MonthlySalesProfit(t: seq<Row>): (r: seq<AggRow>)
    ensures |r| <= |t|
    ensures ColumnTotal(r, 0) == Sum(Keyed(t, [MonthKey]), Sales)
    ensures ColumnTotal(r, 1) == Sum(Keyed(t, [MonthKey]), Profit)
    ensures OneRowPerKey(r, t, [MonthKey])
    ensures SumsPerKey(r, t, [MonthKey], 0, Sales)
    ensures SumsPerKey(r, t, [MonthKey], 1, Profit)
  {
    var reds := [SumOf(Sales), SumOf(Profit)];
    GroupByOneRowPerKey(t, [MonthKey], reds);
    GroupBySums(t, [MonthKey], reds, 0, Sales);
    GroupBySums(t, [MonthKey], reds, 1, Profit);
    GroupSumsAddUp(t, [MonthKey], reds, 0, Sales);
    GroupSumsAddUp(t, [MonthKey], reds, 1, Profit);
    GroupBy(t, [MonthKey], reds)
  }

  /** `groupby('Sub-Category').agg(avg_discount=mean Discount, total_profit=sum Profit)`. */
  function DiscountVsProfit(t: seq<Row>): (r: seq<AggRow>)
    ensures |r| <= |t|
    ensures ColumnTotal(r, 1) == Sum(Keyed(t, [SubCategoryKey]), Profit)
    ensures forall i :: 0 <= i < |r| ==> Cell(r[i], 0) == Mean(Select(t, [SubCategoryKey], r[i].key), Discount)
    ensures OneRowPerKey(r, t, [SubCategoryKey])
    ensures SumsPerKey(r, t, [SubCategoryKey], 1, Profit)
  {
    var reds := [MeanOf(Discount), SumOf(Profit)];
    GroupByOneRowPerKey(t, [SubCategoryKey], reds);
    GroupBySums(t, [SubCategoryKey], reds, 1, Profit);
    GroupSumsAddUp(t, [SubCategoryKey], reds, 1, Profit);
    GroupBy(t, [SubCategoryKey], reds)
  }

  /** `groupby('Ship Mode')['Shipping_Cost'].sum()`. */
  function ShippingByMode(t: seq<Row>): (r: seq<AggRow>)
    ensures |r| <= |t|
    ensures ColumnTotal(r, 0) == Sum(Keyed(t, [ShipModeKey]), ShippingCost)
    ensures OneRowPerKey(r, t, [ShipModeKey])
    ensures SumsPerKey(r, t, [ShipModeKey], 0, ShippingCost)
  {
    GroupByOneRowPerKey(t, [ShipModeKey], [SumOf(ShippingCost)]);
    GroupBySums(t, [ShipModeKey], [SumOf(ShippingCost)], 0, ShippingCost);
    GroupSumsAddUp(t, [ShipModeKey], [SumOf(ShippingCost)], 0, ShippingCost);
    GroupBy(t, [ShipModeKey], [SumOf(ShippingCost)])
  }

  /** `prod_agg`: sales, profit and quantity summed by product; each sum adds up to its column's total. */
  function ProductTable(t: seq<Row>): (r: seq<AggRow>)
    ensures |r| <= |t|
    ensures ColumnTotal(r, 0) == Sum(Keyed(t, [ProductKey]), Sales)
    ensures ColumnTotal(r, 1) == Sum(Keyed(t, [ProductKey]), Profit)
    ensures ColumnTotal(r, 2) == Sum(Keyed(t, [ProductKey]), Quantity)
    ensures OneRowPerKey(r, t, [ProductKey])
    ensures SumsPerKey(r, t, [ProductKey], 0, Sales)
    ensures SumsPerKey(r, t, [ProductKey], 1, Profit)
    ensures SumsPerKey(r, t, [ProductKey], 2, Quantity)
  {
    var reds := [SumOf(Sales), SumOf(Profit), SumOf(Quantity)];
    GroupByOneRowPerKey(t, [ProductKey], reds);
    GroupBySums(t, [ProductKey], reds, 0, Sales);
    GroupBySums(t, [ProductKey], reds, 1, Profit);
    GroupBySums(t, [ProductKey], reds, 2, Quantity);
    GroupSumsAddUp(t, [ProductKey], reds, 0, Sales);
    GroupSumsAddUp(t, [ProductKey], reds, 1, Profit);
    GroupSumsAddUp(t, [ProductKey], reds, 2, Quantity);
    GroupBy(t, [ProductKey], reds)
  }

  /** `cat_tree`: sales and profit by category and sub-category. */
  function CategoryTree(t: seq<Row>): (r: seq<AggRow>)
    ensures |r| <= |t|
    ensures forall i :: 0 <= i < |r| ==> |r[i].key| == 2
    ensures ColumnTotal(r, 0) == Sum(Keyed(t, [CategoryKey, SubCategoryKey]), Sales)
    ensures ColumnTotal(r, 1) == Sum(Keyed(t, [CategoryKey, SubCategoryKey]), Profit)
    ensures OneRowPerKey(r, t, [CategoryKey, SubCategoryKey])
    ensures SumsPerKey(r, t, [CategoryKey, SubCategoryKey], 0, Sales)
    ensures SumsPerKey(r, t, [CategoryKey, SubCategoryKey], 1, Profit)
  {
    var reds := [SumOf(Sales), SumOf(Profit)];
    GroupByOneRowPerKey(t, [CategoryKey, SubCategoryKey], reds);
    GroupBySums(t, [CategoryKey, SubCategoryKey], reds, 0, Sales);
    GroupBySums(t, [CategoryKey, SubCategoryKey], reds, 1, Profit);
    GroupSumsAddUp(t, [CategoryKey, SubCategoryKey], reds, 0, Sales);
    GroupSumsAddUp(t, [CategoryKey, SubCategoryKey], reds, 1, Profit);
    var r := GroupBy(t, [CategoryKey, SubCategoryKey], reds);
    assert forall i :: 0 <= i < |r| ==> |r[i].key| == 2 by {
      forall i | 0 <= i < |r| ensures |r[i].key| == 2 {
        var rows := Select(t, [CategoryKey, SubCategoryKey], r[i].key);
        assert rows[0] in rows;
      }
    }
    r
  }

  /** `groupby('Customer Name')['Sales'].sum()`. */
  function CustomerSales(t: seq<Row>): (r: seq<AggRow>)
    ensures |r| <= |t|
    ensures ColumnTotal(r, 0) == Sum(Keyed(t, [CustomerNameKey]), Sales)
    ensures OneRowPerKey(r, t, [CustomerNameKey])
    ensures SumsPerKey(r, t, [CustomerNameKey], 0, Sales)
  {
    GroupByOneRowPerKey(t, [CustomerNameKey], [SumOf(Sales)]);
    GroupBySums(t, [CustomerNameKey], [SumOf(Sales)], 0, Sales);
    GroupSumsAddUp(t, [CustomerNameKey], [SumOf(Sales)], 0, Sales);
    GroupBy(t, [CustomerNameKey], [SumOf(Sales)])
  }

  /** `groupby('Region')['Sales'].sum()`. */
  function RegionSales(t: seq<Row>): (r: seq<AggRow>)
    ensures |r| <= |t|
    ensures ColumnTotal(r, 0) == Sum(Keyed(t, [RegionKey]), Sales)
    ensures OneRowPerKey(r, t, [RegionKey])
    ensures SumsPerKey(r, t, [RegionKey], 0, Sales)
  {
    GroupByOneRowPerKey(t, [RegionKey], [SumOf(Sales)]);
    GroupBySums(t, [RegionKey], [SumOf(Sales)], 0, Sales);
    GroupSumsAddUp(t, [RegionKey], [SumOf(Sales)], 0, Sales);
    GroupBy(t, [RegionKey], [SumOf(Sales)])
  }

  /** `groupby('Segment')['Sales'].sum()`: the donut's slices add up to the segment-labelled sales. */
  function SegmentSales(t: seq<Row>): (r: seq<AggRow>)
    ensures |r| <= |t|
    ensures ColumnTotal(r, 0) == Sum(Keyed(t, [SegmentKey]), Sales)
    ensures OneRowPerKey(r, t, [SegmentKey])
    ensures SumsPerKey(r, t, [SegmentKey], 0, Sales)
  {
    GroupByOneRowPerKey(t, [SegmentKey], [SumOf(Sales)]);
    GroupBySums(t, [SegmentKey], [SumOf(Sales)], 0, Sales);
    GroupSumsAddUp(t, [SegmentKey], [SumOf(Sales)], 0, Sales);
    GroupBy(t, [SegmentKey], [SumOf(Sales)])
  }

  /** `groupby('Customer Name')['Profit'].sum()`. */
  function CustomerProfit(t: seq<Row>): (r: seq<AggRow>)
    ensures |r| <= |t|
    ensures ColumnTotal(r, 0) == Sum(Keyed(t, [CustomerNameKey]), Profit)
    ensures OneRowPerKey(r, t, [CustomerNameKey])
    ensures SumsPerKey(r, t, [CustomerNameKey], 0, Profit)
  {
    GroupByOneRowPerKey(t, [CustomerNameKey], [SumOf(Profit)]);
    GroupBySums(t, [CustomerNameKey], [SumOf(Profit)], 0, Profit);
    GroupSumsAddUp(t, [CustomerNameKey], [SumOf(Profit)], 0, Profit);
    GroupBy(t, [CustomerNameKey], [SumOf(Profit)])
  }

  /** `groupby(['Region', 'Segment'])['Sales'].sum()`. */
  function RegionSegmentSales(t: seq<Row>): (r: seq<AggRow>)
    ensures |r| <= |t|
    ensures ColumnTotal(r, 0) == Sum(Keyed(t, [RegionKey, SegmentKey]), Sales)
    ensures OneRowPerKey(r, t, [RegionKey, SegmentKey])
    ensures SumsPerKey(r, t, [RegionKey, SegmentKey], 0, Sales)
  {
    GroupByOneRowPerKey(t, [RegionKey, SegmentKey], [SumOf(Sales)]);
    GroupBySums(t, [RegionKey, SegmentKey], [SumOf(Sales)], 0, Sales);
    GroupSumsAddUp(t, [RegionKey, SegmentKey], [SumOf(Sales)], 0, Sales);
    GroupBy(t, [RegionKey, SegmentKey], [SumOf(Sales)])
  }

  // ---------------------------------------------------------------------
  // Rankings

  /** The key of the best row of a ranking, `None` for "N/A". */
  function BestKey(s: seq<AggRow>, j: nat): (k: Option<seq<KeyValue>>)
    ensures k.None? <==> s == []
    ensures k.Some? ==> exists x :: x in s && x.key == k.value && forall y :: y in s ==> RowPrecedes(x, y, j, true)
  {
    var b := Best(s, j);
    if b.Some? then Some(b.value.key) else None
  }

  /** "Top 10 Products by Sales": the ten best-selling products, shown in ascending order. */
  function Top10ProductsBySales(t: seq<Row>): (r: seq<AggRow>)
    ensures |r| == Min(10, |ProductTable(t)|)
    ensures Sorted(r, 0, false) && multiset(r) <= multiset(ProductTable(t))
    ensures forall x, y :: x in r && y in multiset(ProductTable(t)) - multiset(r) ==> RowPrecedes(y, x, 0, false)
  {
    LargestAscending(ProductTable(t), 0, 10)
  }

  /** "Bottom 10 Products by Profit". */
  function Bottom10ProductsByProfit(t: seq<Row>): (r: seq<AggRow>)
    ensures |r| == Min(10, |ProductTable(t)|)
    ensures Sorted(r, 1, false) && multiset(r) <= multiset(ProductTable(t))
    ensures forall x, y :: x in r && y in multiset(ProductTable(t)) - multiset(r) ==> RowPrecedes(x, y, 1, false)
  {
    Smallest(ProductTable(t), 1, 10)
  }

  /** "Top 10 Customers by Profit". */
  function Top10CustomersByProfit(t: seq<Row>): (r: seq<AggRow>)
    ensures |r| == Min(10, |CustomerProfit(t)|)
    ensures Sorted(r, 0, true) && multiset(r) <= multiset(CustomerProfit(t))
    ensures forall x, y :: x in r && y in multiset(CustomerProfit(t)) - multiset(r) ==> RowPrecedes(x, y, 0, true)
  {
    Largest(CustomerProfit(t), 0, 10)
  }

  // ---------------------------------------------------------------------
  // The four tabs

  datatype Fulfillment = Fulfillment(
    avgProcessing: Option<real>,
    totalOrders: nat,
    lateOrders: nat,
    latePercent: real,
    monthlyProcessing: seq<AggRow>,
    processingByMode: seq<AggRow>,
    byPriority: seq<AggRow>)

  datatype Financial = Financial(
    totalSales: real,
    totalProfit: real,
    margin: real,
    avgDiscount: Option<real>,
    monthlySalesProfit: seq<AggRow>,
    discountVsProfit: seq<AggRow>,
    shippingByMode: seq<AggRow>)

  datatype Products = Products(
    bestSelling: Option<seq<KeyValue>>,
    mostProfitable: Option<seq<KeyValue>>,
    totalQuantity: real,
    top10BySales: seq<AggRow>,
    bottom10ByProfit: seq<AggRow>,
    categoryTree: seq<AggRow>,
    byProduct: seq<AggRow>)

  datatype Customers = Customers(
    totalCustomers: nat,
    topCustomer: Option<AggRow>,
    topRegion: Option<AggRow>,
    salesBySegment: seq<AggRow>,
    top10ByProfit: seq<AggRow>,
    salesByRegionSegment: seq<AggRow>)

  /** "Supply Chain & Fulfillment": every metric is defined on an empty selection. */
  function FulfillmentTab(t: seq<Row>): (v: Fulfillment)
    ensures v.totalOrders <= |t| && v.lateOrders <= |t| && 0.0 <= v.latePercent <= 100.0
    ensures v.avgProcessing.None? <==> forall i :: 0 <= i < |t| ==> t[i].derived.processingDays.None?
    ensures t == [] ==> v == Fulfillment(None, 0, 0, 0.0, [], [], [])
  {
    Fulfillment(Mean(t, ProcessingTime), TotalOrders(t), LateCount(t), LatePercent(t),
      MonthlyProcessing(t), ProcessingByMode(t), PriorityTable(t))
  }

  /** "Financial Performance": sums are 0, the mean discount NaN and the margin 0 on an empty selection. */
  function FinancialTab(t: seq<Row>): (v: Financial)
    ensures v.totalSales <= 1.0 ==> v.margin == v.totalProfit
    ensures v.avgDiscount.None? <==> t == []
    ensures t == [] ==> v == Financial(0.0, 0.0, 0.0, None, [], [], [])
  {
    CountAlwaysPresent(t, Discount);
    Financial(Sum(t, Sales), Sum(t, Profit), OverallMargin(t), Mean(t, Discount),
      MonthlySalesProfit(t), DiscountVsProfit(t), ShippingByMode(t))
  }

  /** "Product & Inventory": the headline products are "N/A" exactly when no row names a product. */
  function ProductsTab(t: seq<Row>): (v: Products)
    ensures v.bestSelling.None? <==> v.byProduct == []
    ensures v.mostProfitable.None? <==> v.byProduct == []
    ensures v.totalQuantity == Sum(Keyed(t, [ProductKey]), Quantity)
    ensures |v.top10BySales| <= 10 && |v.bottom10ByProfit| <= 10
    ensures t == [] ==> v == Products(None, None, 0.0, [], [], [], [])
  {
    var table := ProductTable(t);
    Products(BestKey(table, 0), BestKey(table, 1), ColumnTotal(table, 2),
      Top10ProductsBySales(t), Bottom10ProductsByProfit(t), CategoryTree(t), table)
  }

  /** "Customer & Regional". */
  function CustomersTab(t: seq<Row>): (v: Customers)
    ensures v.totalCustomers <= |t| && |v.top10ByProfit| <= 10
    ensures v.topCustomer.None? <==> CustomerSales(t) == []
    ensures v.topRegion.None? <==> RegionSales(t) == []
    ensures t == [] ==> v == Customers(0, None, None, [], [], [])
  {
    Customers(TotalCustomers(t), Best(CustomerSales(t), 0), Best(RegionSales(t), 0),
      SegmentSales(t), Top10CustomersByProfit(t), RegionSegmentSales(t))
  }

  // ---------------------------------------------------------------------
  // The whole pipeline

  datatype Tabs = Tabs(fulfillment: Fulfillment, financial: Financial, products: Products, customers: Customers)

  /** Load, enrich, filter, then compute every tab from the filtered rows. */
  function Pipeline(raw: seq<Row>, spec: FilterSpec): (v: Tabs)
    ensures (spec.regions == {} || spec.shipModes == {}) ==>
      v.fulfillment == Fulfillment(None, 0, 0, 0.0, [], [], []) &&
      v.financial == Financial(0.0, 0.0, 0.0, None, [], [], []) &&
      v.products == Products(None, None, 0.0, [], [], [], []) &&
      v.customers == Customers(0, None, None, [], [], [])
  {
    var t := ApplyFilter(Enrich(raw), spec);
    assert (spec.regions == {} || spec.shipModes == {}) ==> t == [] by {
      if spec.regions == {} || spec.shipModes == {} {
        EmptySelection(Enrich(raw), spec);
      }
    }
    Tabs(FulfillmentTab(t), FinancialTab(t), ProductsTab(t), CustomersTab(t))
  }

  /** Every filtered row of an enriched table has an order month. */
  lemma FilteredRowsHaveMonth(raw: seq<Row>, spec: FilterSpec, x: Row)
    requires x in ApplyFilter(Enrich(raw), spec)
    ensures KeyOf(x, [MonthKey]).Some?
  {
    var i :| 0 <= i < |Enrich(raw)| && Enrich(raw)[i] == x;
    assert x.derived == Derive(x.order);
  }

  /**
   * After filtering, every row has an order date and so an order month:
   * the monthly sales and profit lines lose nothing, and add up to the
   * headline totals.
   */
  lemma MonthlyTotalsMatchHeadline(raw: seq<Row>, spec: FilterSpec)
    ensures var t := ApplyFilter(Enrich(raw), spec);
      ColumnTotal(MonthlySalesProfit(t), 0) == Sum(t, Sales) &&
      ColumnTotal(MonthlySalesProfit(t), 1) == Sum(t, Profit)
  {
    var t := ApplyFilter(Enrich(raw), spec);
    forall x | x in t ensures KeyOf(x, [MonthKey]).Some? {
      FilteredRowsHaveMonth(raw, spec, x);
    }
    AllKeyed(t, [MonthKey]);
  }
}
