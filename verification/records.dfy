/** The shapes the dashboard client receives from its backend, and the
    notifications (toasts) its screens raise. Revenue, prices and profit are
    modelled as integers. */
module Records {

  /** `GET /api/dashboard/totals`: aggregate revenue and profit. */
  datatype Totals = Totals(totalRevenue: int, totalProfit: int)

  /** One entry of `GET /api/dashboard/top-products`: a product label and the
      number of units sold. */
  datatype TopProduct = TopProduct(product: string, totalSold: int)

  /** One entry of the sparse `GET /api/dashboard/daily-sales` series: the
      ISO calendar date (`_id`) and the revenue of that day. */
  datatype SalesRecord = SalesRecord(id: string, dailyRevenue: int)

  /** A product snapshot from `GET /api/products/low-stock`, identified by
      its backend `_id`. */
  datatype StockItem = StockItem(id: string, name: string, quantity: int)

  /** A transient notification shown to the user. */
  datatype Notice = Success(message: string) | Failure(message: string)
}
