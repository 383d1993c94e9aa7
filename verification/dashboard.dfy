/** The dashboard's view state and its refresh: four fetches joined with
    `Promise.all`, four JSON parses joined the same way, and the four pieces
    of state set together only when every one of them succeeded. */
module Dashboard {
  import opened Wrappers
  import opened Records
  import opened SalesWindow

  /** What the dashboard shows. `totals` is `None` for the initial empty
      object. */
  datatype DashboardState = DashboardState(
    totals: Option<Totals>,
    topProducts: seq<TopProduct>,
    dailySales: seq<SalesPoint>,
    lowStock: seq<StockItem>)

  /** Every fetch and every parse succeeded. */
  predicate AllOk(totals: Result<Totals>, top: Result<seq<TopProduct>>,
                  daily: Result<seq<SalesRecord>>, stock: Result<seq<StockItem>>) {
    totals.Ok? && top.Ok? && daily.Ok? && stock.Ok?
  }

  /** One refresh for a trailing window of `range` days ending at `today`.
      Each `Result` is the outcome of one request together with its JSON
      parse; a failure anywhere is caught and leaves the state as it was. */
  method Refresh(s: DashboardState, range: nat, today: int, iso: int -> string, display: int -> string,
                 totals: Result<Totals>, top: Result<seq<TopProduct>>,
                 daily: Result<seq<SalesRecord>>, stock: Result<seq<StockItem>>)
    returns (r: DashboardState)
    ensures !AllOk(totals, top, daily, stock) ==> r == s
    ensures AllOk(totals, top, daily, stock) ==>
      && r.totals == Some(totals.value)
      && r.topProducts == top.value
      && r.lowStock == stock.value
      && |r.dailySales| == range
      && forall j :: 0 <= j < range ==>
           r.dailySales[j] == SalesPoint(display(today - (range - 1) + j),
                                         SalesOn(daily.value, iso(today - (range - 1) + j)))
  {
    if !AllOk(totals, top, daily, stock) {
      return s;
    }
    var dates := PastNDates(range, today, iso, display);
    var points := FormatSales(dates, daily.value);
    r := DashboardState(Some(totals.value), top.value, points, stock.value);
  }
}
