/** The order record: one row of the CSV after its two date columns are parsed. */
module Orders {
  import opened Wrappers
  import opened Dates

  /** A text cell; `None` is a missing (NaN) cell. */
  type Text = Option<string>

  /** The input columns of one shipped line item. */
  datatype Order = Order(
    orderId: Text,
    orderDate: Option<Date>,
    shipDate: Option<Date>,
    shipMode: Text,
    region: Text,
    orderPriority: Text,
    sales: real,
    profit: real,
    discount: real,
    shippingCost: real,
    quantity: int,
    category: Text,
    subCategory: Text,
    productName: Text,
    customerId: Text,
    customerName: Text,
    segment: Text)

  /** The five columns `preprocess` adds. */
  datatype Derived = Derived(
    processingDays: Option<int>,   // 'Order Processing Time'
    slaDays: int,                  // 'Standard SLA Days'
    isLate: bool,                  // 'Is Late'
    profitMargin: Option<real>,    // 'Profit Margin'
    orderMonth: Option<Date>)      // 'order_month'

  /** A table row: the input columns and the derived ones. */
  datatype Row = Row(order: Order, derived: Derived)
}
