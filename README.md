# Supply chain dashboard — a verified model

The dashboard loads a table of shipped order lines and enriches every row
with five derived columns (`preprocess`). It filters the table by an
order-date range, a set of regions and a set of ship modes. It then shows
four tabs of metrics and charts computed from the filtered rows:
supply chain & fulfillment, financial performance, product & inventory,
customer & regional.

This project models that core in Dafny:

- `dates.dfy` (`Dates`): proleptic Gregorian dates as `datetime.date`
  has them. A day number equal to `date.toordinal()`, on which day
  differences are taken, and the lexicographic date order, proved to agree
  with it. Truncation to the first day of the month.
- `orders.dfy` (`Orders`): the order record, the five derived columns,
  and a table row holding both. A missing (NaN/NaT) cell is `None`.
- `enrichment.dfy` (`Enrichment`): `preprocess`. Each derived column is a
  pure function of the row's own input columns. `Preprocess` is the
  in-place update of an `array` of rows, one pass per assigned column in
  source order. It is proved to leave the array equal to the pure
  enrichment of the old array.
- `filtering.dfy` (`Filtering`): the sidebar mask and `df[mask]`.
- `grouping.dfy` (`Grouping`): pandas `groupby(...)` with `sum`, `mean`
  and `nunique` reducers. Rows with a missing key cell are dropped. `sum`
  skips NaN and is 0 on no rows. `mean` is NaN on no known value.
- `ranking.dfy` (`Ranking`): `sort_values` (NaN last in both directions)
  followed by `head(n)` / `tail(n)`, and the "best row or N/A" lookup.
- `dashboard.dfy` (`Dashboard`): the headline metrics, one function per
  chart dataset, one per tab, and the pipeline from the loaded table to the
  four tabs.

Two points where the code behaves differently from what the 999 default
and the "Profit Margin" label suggest:

- A ship mode outside the SLA table gets an SLA of 999 days. That is not
  "never late": a processing time of 1000 days is late, and the model
  follows the code (`Enrichment.UnmappedModeLateness`).
- The overall profit margin divides by `max(1, total sales)`. That avoids a
  division by zero. It also means that when total sales lie below 1
  (fractional or negative) the margin is the total profit itself. The
  model keeps this as written (`Dashboard.OverallMargin`).

## Model

| member | source | states |
|---|---|---|
| Dates.DaysInMonth | app.py:22 | a month has 28 to 31 days, and 29 exactly in February of a leap year |
| Dates.MonthStart | app.py:40 | the period start has the date's year and month and day 1 |
| Dates.Ordinal | app.py:22 | the day number of `date.toordinal()`: days of January of year 1 are numbered from 1, consecutive days are one apart (`Dates.OrdinalNext`), and its order agrees with the calendar order (`Dates.OrdinalOrder`) |
| Dates.DaysBetween | app.py:22 | the `.dt.days` difference: 0 for equal dates, the difference of the day fields within one month; sign and zero follow the calendar (`Dates.DaysBetweenSign`) |
| Dates.OrdinalOrder | app.py:22 | comparing dates as (year, month, day) agrees with comparing day numbers, and equal day numbers mean equal dates |
| Dates.DaysBetweenSign | app.py:22 | a day difference is non-negative iff the second date is not earlier, and zero iff the dates are equal |
| Dates.MonthStartFacts | app.py:40 | the month start is no later than the date, `day - 1` days before it, unchanged by truncating again, and the latest first-of-month not after the date |
| Dates.SameMonth | app.py:40 | two dates truncate to the same month start iff they share year and month |
| Dates.NextDay | app.py:22 | the calendar day after a date is a later date: the next day of the month, or the 1st of the next month, or 1 January of the next year |
| Dates.OrdinalNext | app.py:22 | the day after a date has the next day number, across month and year ends too, and it is the only date one day later |
| Dates.LeapDayExample | app.py:22 | 28 Feb to 1 Mar 2024 is two days, and 31 Dec 2023 to 1 Jan 2024 is one |
| Enrichment.SlaDays | app.py:25-31 | Same Day gives 1, First Class 2, Second Class 4, Standard Class 5, each iff that mode; any other or missing mode gives 999 |
| Enrichment.ProcessingDays | app.py:22 | present iff both dates are present, and then equals ship date minus order date in days |
| Enrichment.ProfitMargin | app.py:37 | missing iff sales are zero; otherwise margin times sales is profit |
| Enrichment.OrderMonth | app.py:40 | missing iff the order date is missing; otherwise the first day of the order date's year and month |
| Enrichment.IsLate | app.py:34 | a NaN processing time is never late; a known one is late iff it is at least one day over the SLA (characterised per order by `Enrichment.LateIff`) |
| Enrichment.Derive | app.py:21-40 | the five derived columns of one order: the late flag agrees with the processing time and SLA beside it, the SLA is at least 1, the margin is missing iff sales are zero, the month is missing iff the order date is |
| Enrichment.EnrichRow | app.py:14-42 | one enriched row keeps its input columns and carries the derived columns of those input columns |
| Enrichment.Enrich | app.py:14-42 | same number of rows, same order, input columns unchanged, each row's derived columns computed from that row alone |
| Enrichment.ProcessingDaysSign | app.py:22 | with both dates present the processing time is known, non-negative iff shipping is not before ordering, zero iff same day |
| Enrichment.LateIff | app.py:34 | `Is Late` iff both dates are present and the day difference strictly exceeds the mode's SLA |
| Enrichment.UnmappedModeLateness | app.py:31-34 | an unmapped mode has SLA 999 and is late iff the processing time exceeds 999 days |
| Enrichment.MissingDates | app.py:22-40 | a missing date gives no processing time and not late; the month is missing iff the order date is |
| Enrichment.StandardClassScenario | app.py:29-34 | Standard Class from 2024-03-01: shipped 03-06 is 5 days and on time, shipped 03-07 is 6 days and late |
| Enrichment.ZeroSalesScenario | app.py:37 | zero sales give no margin whatever the profit |
| Enrichment.EnrichIdempotent | app.py:14-42 | preprocessing an already preprocessed table changes nothing |
| Enrichment.EnrichIgnoresDerived | app.py:14-42 | the result depends only on the input columns, not on any earlier derived columns |
| Enrichment.EnrichAppend | app.py:14-42 | the transform is row by row: preprocessing a concatenation concatenates the results |
| Enrichment.AddProcessingTime | app.py:22 | every row gets its processing time and nothing else in the array changes |
| Enrichment.AddSlaDays | app.py:31 | every row gets its mode's SLA and nothing else changes |
| Enrichment.AddLateFlag | app.py:34 | every row gets the late flag computed from the two columns written before it, nothing else changes |
| Enrichment.AddProfitMargin | app.py:37 | every row gets its profit margin and nothing else changes |
| Enrichment.AddOrderMonth | app.py:40 | every row gets its order month and nothing else changes |
| Enrichment.Preprocess | app.py:14-42 | the array afterwards is exactly the enrichment of the array before |
| Filtering.ApplyFilter | app.py:69-75 | never more rows than the input; a row is kept iff it is in the input, has an order date within the inclusive range, and its region and ship mode are selected |
| Filtering.FilterIsSubsequence | app.py:75 | the filtered table is an order-preserving subsequence of the input |
| Filtering.FilterCounts | app.py:75 | a selected row keeps its multiplicity, any other row occurs zero times |
| Filtering.FilterAppend | app.py:69-75 | the mask is row by row: filtering a concatenation concatenates |
| Filtering.FilterIdempotent | app.py:69-75 | filtering twice with the same selection equals filtering once |
| Filtering.EmptySelection | app.py:72-73 | an empty region or ship-mode selection gives an empty table |
| Filtering.KeptRowsInRange | app.py:70-73 | every kept row has an order date whose day number lies in the range, and a selected region and mode |
| Filtering.ReversedRange | app.py:70-71 | a start date after the end date selects nothing |
| Filtering.Selected | app.py:69-74 | the mask of one row: a selected row has an order date, the range it passes is not reversed, and both selections are non-empty (its use is pinned down by `Filtering.ApplyFilter` and `Filtering.FilterCounts`) |
| Grouping.KeyOf | app.py:98 | a row has a group key iff every key column is present, and the key lists those cells in order |
| Grouping.Count | app.py:90 | the number of rows whose value is known (NaN cells are not counted), so 0 iff every cell is NaN, and never more than the row count |
| Grouping.CountAlwaysPresent | app.py:126 | a numeric input column is known on every row, so it is counted on every row |
| Grouping.Mean | app.py:90 | the mean is NaN iff every cell is NaN; a known mean times the number of known values is their sum (`Grouping.MeanTimesCount`), so NaN cells are left out of the divisor |
| Grouping.MeanTimesCount | app.py:90 | a known mean times the number of known values is their sum |
| Grouping.DistinctIds | app.py:91 | a distinct count never exceeds the row count |
| Grouping.DistinctIdsMembers | app.py:91 | an id is counted iff some row carries it |
| Grouping.DistinctIdsAsSet | app.py:91 | the counted ids are exactly the set of the rows' non-missing ids |
| Grouping.Sum | app.py:123-129 | pandas `sum()`: a column with no known value (in particular an empty one) sums to 0; additivity is `Grouping.SumSnoc` and `Grouping.SumAppend` |
| Grouping.SumSnoc | app.py:123 | adding a row adds its value, or nothing when it is NaN |
| Grouping.SumAppend | app.py:123 | the sum over a concatenation is the sum of the sums |
| Grouping.AddToGroup | app.py:98 | adding a row to a partition keeps keys distinct and groups non-empty, adds its key, appends it to its own group only, and adds its value to every measure's total |
| Grouping.GroupRows | app.py:98 | the partition has distinct keys, at most one group per row, each key's group is exactly the rows with that key in table order, and measure totals equal the totals over keyed rows |
| Grouping.LookupAbsent | app.py:98 | a key not in the partition has no rows |
| Grouping.LookupOwnKey | app.py:98 | each group's own key finds that group |
| Grouping.LookupFound | app.py:98 | a key with rows has a group |
| Grouping.Select | app.py:98 | the rows of one group: never more than the input, and a row is in it iff it is an input row with exactly that key |
| Grouping.Keyed | app.py:98 | the rows the group-by keeps: never more than the input, and a row is in it iff it is an input row whose key cells are all present |
| Grouping.ReduceAll | app.py:110-113 | one value per reducer, each computed on the group's rows |
| Grouping.Summarize | app.py:110-113 | one output row per group, carrying the group's key and reduced values |
| Grouping.GroupBy | app.py:98 | at most one row per input row, keys pairwise distinct, each output row's values reduced from exactly the rows with its key (never none), and every keyed input row's key appears |
| Grouping.GroupByOneRowPerKey | app.py:98 | the group-by lists every distinct complete key exactly once and no key without rows |
| Grouping.GroupBySums | app.py:129 | a `sum` column of the group-by holds, on each row, the sum over the rows with that row's key |
| Grouping.SummarizeTotal | app.py:129 | a sum column of the summary adds up to the partition's total |
| Grouping.GroupSumsAddUp | app.py:129 | the group sums of a column add up to the column's sum over all rows whose key is present |
| Grouping.SelectNone | app.py:98 | with no keyed rows every selection is empty |
| Grouping.NoKeysNoGroups | app.py:98 | with no keyed rows the group-by has no rows |
| Ranking.PrecedesTotalPreorder | app.py:160 | the sort order (NaN last) is total and transitive |
| Ranking.Insert | app.py:160 | inserting into a sorted table keeps it sorted and adds exactly that row |
| Ranking.SortBy | app.py:160 | `sort_values` returns a sorted permutation of its input |
| Ranking.Head | app.py:160-174 | `head(n)`: the first min(n, size) rows in order, the whole table when n covers it (used by `Ranking.Largest` and `Ranking.Smallest`) |
| Ranking.Tail | app.py:169 | `tail(n)`: the last min(n, size) rows in order, the whole table when n covers it (used by `Ranking.LargestAscending`) |
| Ranking.SplitSorted | app.py:174 | the head of a sorted table precedes every row left out |
| Ranking.SplitSortedSuffix | app.py:169 | the tail of a sorted table is sorted and is preceded by every row left out |
| Ranking.Largest | app.py:212 | sort descending then `head(n)`: min(n, size) rows, sorted, drawn from the input, none beaten by a row left out |
| Ranking.Smallest | app.py:174 | sort ascending then `head(n)`: min(n, size) rows, sorted, drawn from the input, none above a row left out |
| Ranking.SuffixSorted | app.py:169 | a suffix of a sorted table is sorted |
| Ranking.LargestAscending | app.py:169 | sort ascending then `tail(n)`: min(n, size) rows, sorted ascending, drawn from the input, none below a row left out |
| Ranking.Best | app.py:200-204 | "N/A" iff the table is empty; otherwise a row of the table at least as large as every other |
| Dashboard.LateCount | app.py:92 | the number of rows flagged late, so never more than the row count |
| Dashboard.LateCountAll | app.py:92 | the count is the row count iff every row is late, and 0 iff none is |
| Dashboard.AtLeastOne | app.py:94 | `max(1, x)` is at least 1, at least x, and one of the two |
| Dashboard.LatePercent | app.py:94 | the late share lies in [0, 100], is 0 on an empty table, and is 0 iff no row is late |
| Dashboard.LatePercentFormula | app.py:94 | the share times `max(1, rows)` is 100 times the late count |
| Dashboard.AllLate | app.py:94 | the share is 100 iff the table is non-empty and every row is late |
| Dashboard.OverallMargin | app.py:125 | with total sales at most 1 the margin is the total profit |
| Dashboard.MarginFormula | app.py:125 | the margin times `max(1, sales)` is the profit, and with sales of at least 1 it is profit over sales |
| Dashboard.TotalOrders | app.py:91 | the order count is the number of distinct non-missing Order IDs of the rows, so never more than the row count |
| Dashboard.TotalCustomers | app.py:198 | the customer count is the number of distinct non-missing Customer IDs of the rows, so never more than the row count |
| Dashboard.MonthlyProcessing | app.py:98 | one row per month with a dated row, carrying the mean processing time of that month's rows |
| Dashboard.ProcessingByMode | app.py:104 | one row per ship mode present, carrying the mean processing time of that mode's rows |
| Dashboard.PriorityTable | app.py:110-113 | one row per priority present, carrying the distinct order count and the mean processing time of that priority's rows |
| Dashboard.MonthlySalesProfit | app.py:129 | one row per month, each holding that month's sales and profit sums, which add up to the totals over rows with an order month |
| Dashboard.DiscountVsProfit | app.py:135-138 | one row per sub-category, with the mean discount and the profit sum of its rows; the profit column adds up to the total over labelled rows |
| Dashboard.ShippingByMode | app.py:145 | one row per ship mode, each holding that mode's shipping-cost sum; they add up to the total over rows with a mode |
| Dashboard.ProductTable | app.py:154-158 | one row per distinct product, holding its sales, profit and quantity sums; each column adds up to its total over named rows |
| Dashboard.CategoryTree | app.py:180-183 | one row per (category, sub-category) pair present, holding its sales and profit sums, which add up |
| Dashboard.CustomerSales | app.py:200 | one row per customer name, holding that customer's sales sum; they add up to the total over named rows |
| Dashboard.RegionSales | app.py:201 | one row per region, holding its sales sum; they add up to the total over rows with a region |
| Dashboard.SegmentSales | app.py:207 | one slice per segment, holding its sales sum; the slices add up to the total over rows with a segment |
| Dashboard.CustomerProfit | app.py:212 | one row per customer name, holding its profit sum; they add up to the total over named rows |
| Dashboard.RegionSegmentSales | app.py:217 | one bar per (region, segment) pair present, holding its sales sum; the bars add up to the total over rows with both cells |
| Dashboard.BestKey | app.py:160-165 | "N/A" iff there is no product; otherwise the key of a row that beats every other |
| Dashboard.Top10ProductsBySales | app.py:169 | the ten (or fewer) products with the most sales, ascending, none outsold by a product left out |
| Dashboard.Bottom10ProductsByProfit | app.py:174 | the ten (or fewer) least profitable products, ascending, none more profitable than a product left out |
| Dashboard.Top10CustomersByProfit | app.py:212 | the ten (or fewer) most profitable customers, descending, none less profitable than a customer left out |
| Dashboard.FulfillmentTab | app.py:90-116 | counts bounded by the rows, late share in [0, 100], average NaN iff no row has a processing time, and on an empty selection zeros, NaN and empty charts |
| Dashboard.FinancialTab | app.py:122-148 | the margin is the profit when sales are at most 1, the mean discount is NaN iff the selection is empty, and an empty selection shows zeros and empty charts |
| Dashboard.ProductsTab | app.py:154-191 | best seller and most profitable are "N/A" iff there is no product, the quantity total is the sum over named rows, the rankings have at most ten rows, and an empty selection shows "N/A", 0 and empty charts |
| Dashboard.CustomersTab | app.py:197-219 | customer count bounded by the rows, top customer and region "N/A" iff there is none, at most ten ranked customers, and an empty selection shows 0, "N/A" and empty charts |
| Dashboard.Pipeline | app.py:55-75 | an empty region or ship-mode selection yields all four tabs in their empty state: zeros, NaN, "N/A" and empty charts |
| Dashboard.FilteredRowsHaveMonth | app.py:40-75 | every row that survives the filter has an order month |
| Grouping.AllKeyed | app.py:98 | when every row has its key, no row is dropped by the group-by |
| Dashboard.MonthlyTotalsMatchHeadline | app.py:123-129 | after filtering, the monthly sales and profit lines add up to the headline total sales and profit |

## Left out

- The Streamlit page, sidebar widgets, tabs and metric cards, and the
  Plotly charts: each chart is modelled by the table it plots.
- `read_csv`, the `FileNotFoundError` branch and `st.cache_data`: the model
  starts from an already loaded table.
- `to_datetime` string parsing (lines 17-18): dates arrive parsed, as
  `Option<Date>` with `None` for NaT. The calendar is proleptic Gregorian
  over all integer years. It does not model the bound of pandas
  timestamps, 1677-09-21 to 2262-04-11, outside which
  `to_datetime(errors='coerce')` yields NaT.
- The sidebar's defaults and bounds (lines 61-66): the filter takes any
  start date, end date and selection sets. The date input is assumed to
  return two dates.
- Formatting and rounding of the metric cards (`round`, `:.1f`, `:,.0f`,
  `:.2%`, `int(...)`).
- Floating point: sales, profit, discount and shipping cost are exact
  reals, assumed never NaN; quantity is an integer. Only processing time
  (through a missing date) can be NaN among the measures.
- Grouping.GroupBy: groups are listed in order of first appearance, where
  pandas sorts the keys; the contents of each group are the same.
- Ranking.SortBy: the order among rows with equal values is not stated,
  because pandas' default unstable sort does not fix it.
- Dashboard.Pipeline: states only the empty-selection case of the whole
  pipeline. The other facts about each tab are stated by the tab and chart
  functions it calls, and `Dashboard.MonthlyTotalsMatchHeadline` states
  one fact across the whole pipeline.
