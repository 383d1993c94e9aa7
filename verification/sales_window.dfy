/** The dashboard's daily-sales chart data: the server's sparse per-day
    revenue series projected onto a contiguous window of calendar days that
    ends today, with zero revenue for the days the server did not report.

    Days are consecutive integers; `iso` gives a day's ISO date key (the key
    the server uses as `_id`) and `display` its locale-formatted label. Both
    are parameters, so no calendar arithmetic is modelled. */
module SalesWindow {
  import opened Records

  /** One generated day of the window. */
  datatype DateSlot = DateSlot(day: int, iso: string, display: string)

  /** One bar of the chart: the day's label and its revenue. */
  datatype SalesPoint = SalesPoint(name: string, sales: int)

  function Slot(day: int, iso: int -> string, display: int -> string): DateSlot {
    DateSlot(day, iso(day), display(day))
  }

  /** `dates` is the window of `n` days ending at `today`, oldest first. */
  predicate IsWindow(dates: seq<DateSlot>, n: nat, today: int, iso: int -> string, display: int -> string) {
    && |dates| == n
    && forall j :: 0 <= j < n ==> dates[j] == Slot(today - (n - 1) + j, iso, display)
  }

  /** Generates the window the way the client does: counting `i` down from
      `n - 1` to `0` and appending the day `today - i`. */
  method PastNDates(n: nat, today: int, iso: int -> string, display: int -> string)
    returns (dates: seq<DateSlot>)
    ensures IsWindow(dates, n, today, iso, display)
    ensures forall j :: 0 <= j < |dates| - 1 ==> dates[j + 1].day == dates[j].day + 1
    ensures n > 0 ==> dates[0].day == today - (n - 1) && dates[n - 1].day == today
    ensures forall j :: 0 <= j < |dates| ==> dates[j].iso == iso(dates[j].day)
  {
    dates := [];
    var i: int := n - 1;
    while i >= 0
      invariant -1 <= i <= n - 1
      invariant |dates| == n - 1 - i
      invariant forall j :: 0 <= j < |dates| ==> dates[j] == Slot(today - (n - 1) + j, iso, display)
    {
      dates := dates + [Slot(today - i, iso, display)];
      i := i - 1;
    }
  }

  /** Index `i` holds the first record of `daily` whose `_id` is `key`. */
  predicate FirstWith(daily: seq<SalesRecord>, key: string, i: int) {
    && 0 <= i < |daily|
    && daily[i].id == key
    && forall j :: 0 <= j < i ==> daily[j].id != key
  }

  predicate DistinctIds(daily: seq<SalesRecord>) {
    forall i, j :: 0 <= i < j < |daily| ==> daily[i].id != daily[j].id
  }

  /** The revenue the chart shows for the day keyed `key`: that of the first
      server record with that `_id`, as `Array.prototype.find` returns it, and
      0 when no record has it. */
  function SalesOn(daily: seq<SalesRecord>, key: string): (v: int)
    ensures (forall i :: 0 <= i < |daily| ==> daily[i].id != key) ==> v == 0
    ensures forall i :: FirstWith(daily, key, i) ==> v == daily[i].dailyRevenue
  {
    if |daily| == 0 then 0
    else if daily[0].id == key then daily[0].dailyRevenue
    else
      var v := SalesOn(daily[1..], key);
      forall i | FirstWith(daily, key, i)
        ensures v == daily[i].dailyRevenue
      {
        assert daily[1..][i - 1] == daily[i];
        assert FirstWith(daily[1..], key, i - 1);
      }
      v
  }

  /** The chart series: one point per generated day, in window order. */
  function FormatSales(dates: seq<DateSlot>, daily: seq<SalesRecord>): (points: seq<SalesPoint>)
    ensures |points| == |dates|
    ensures forall j :: 0 <= j < |dates| ==> points[j].name == dates[j].display
    ensures forall j :: 0 <= j < |dates| ==> points[j].sales == SalesOn(daily, dates[j].iso)
  {
    seq(|dates|, j requires 0 <= j < |dates| => SalesPoint(dates[j].display, SalesOn(daily, dates[j].iso)))
  }

  /** With distinct `_id`s, a day's revenue is that of the one record that
      carries its key, wherever that record sits in the series. */
  lemma SalesOnDistinct(daily: seq<SalesRecord>, i: int)
    requires DistinctIds(daily)
    requires 0 <= i < |daily|
    ensures SalesOn(daily, daily[i].id) == daily[i].dailyRevenue
  {
    assert FirstWith(daily, daily[i].id, i);
  }

  /** A record whose `_id` differs from `key`, inserted anywhere, does not
      change the revenue found for `key`. */
  lemma {:induction false} SalesOnIgnoresOtherKey(a: seq<SalesRecord>, rec: SalesRecord, b: seq<SalesRecord>, key: string)
    requires rec.id != key
    ensures SalesOn(a + [rec] + b, key) == SalesOn(a + b, key)
  {
    if |a| == 0 {
      assert a + [rec] + b == [rec] + b;
      assert ([rec] + b)[1..] == b;
      assert a + b == b;
    } else {
      assert (a + [rec] + b)[0] == a[0] && (a + b)[0] == a[0];
      assert (a + [rec] + b)[1..] == a[1..] + [rec] + b;
      assert (a + b)[1..] == a[1..] + b;
      SalesOnIgnoresOtherKey(a[1..], rec, b, key);
    }
  }

  /** A server record for a day outside the window has no effect on the
      chart. */
  lemma OutsideWindowIgnored(dates: seq<DateSlot>, a: seq<SalesRecord>, rec: SalesRecord, b: seq<SalesRecord>)
    requires forall j :: 0 <= j < |dates| ==> dates[j].iso != rec.id
    ensures FormatSales(dates, a + [rec] + b) == FormatSales(dates, a + b)
  {
    forall j | 0 <= j < |dates|
      ensures SalesOn(a + [rec] + b, dates[j].iso) == SalesOn(a + b, dates[j].iso)
    {
      SalesOnIgnoresOtherKey(a, rec, b, dates[j].iso);
    }
  }

  /** When every record carrying `key` is the same record, the revenue is
      that record's, however many copies there are and wherever they sit. */
  lemma {:induction false} SalesOnUniform(daily: seq<SalesRecord>, key: string, rec: SalesRecord, i: int)
    requires 0 <= i < |daily| && daily[i].id == key
    requires forall j :: 0 <= j < |daily| && daily[j].id == key ==> daily[j] == rec
    ensures SalesOn(daily, key) == rec.dailyRevenue
  {
    if daily[0].id != key {
      assert daily[1..][i - 1] == daily[i];
      forall j | 0 <= j < |daily[1..]| && daily[1..][j].id == key
        ensures daily[1..][j] == rec
      {
        assert daily[1..][j] == daily[j + 1];
      }
      SalesOnUniform(daily[1..], key, rec, i - 1);
    }
  }

  /** The chart follows window order whatever order the server lists its
      (distinctly keyed) records in. */
  lemma ServerOrderIrrelevant(dates: seq<DateSlot>, d1: seq<SalesRecord>, d2: seq<SalesRecord>)
    requires DistinctIds(d1)
    requires multiset(d1) == multiset(d2)
    ensures FormatSales(dates, d1) == FormatSales(dates, d2)
  {
    forall j | 0 <= j < |dates|
      ensures SalesOn(d1, dates[j].iso) == SalesOn(d2, dates[j].iso)
    {
      var key := dates[j].iso;
      if i1 :| 0 <= i1 < |d1| && d1[i1].id == key {
        assert d1[i1] in multiset(d2);
        var i2 :| 0 <= i2 < |d2| && d2[i2] == d1[i1];
        forall i | 0 <= i < |d2| && d2[i].id == key
          ensures d2[i] == d1[i1]
        {
          assert d2[i] in multiset(d1);
          var k :| 0 <= k < |d1| && d1[k] == d2[i];
          assert k == i1;
        }
        SalesOnDistinct(d1, i1);
        SalesOnUniform(d2, key, d1[i1], i2);
      } else {
        forall i2 | 0 <= i2 < |d2|
          ensures d2[i2].id != key
        {
          assert d2[i2] in multiset(d1);
        }
      }
    }
  }

  /** The sparse series `[{_id: "2025-01-03", dailyRevenue: 500}]` over a
      seven-day window ending on 2025-01-03 gives six empty days and then
      one day of 500. */
  lemma SingleDayExample(dates: seq<DateSlot>, today: int, iso: int -> string, display: int -> string)
    requires IsWindow(dates, 7, today, iso, display)
    requires iso(today) == "2025-01-03"
    requires forall d1, d2 :: iso(d1) == iso(d2) ==> d1 == d2
    ensures |FormatSales(dates, [SalesRecord("2025-01-03", 500)])| == 7
    ensures FormatSales(dates, [SalesRecord("2025-01-03", 500)])[6].sales == 500
    ensures forall j :: 0 <= j < 6 ==> FormatSales(dates, [SalesRecord("2025-01-03", 500)])[j].sales == 0
  {
    var daily := [SalesRecord("2025-01-03", 500)];
    assert FirstWith(daily, dates[6].iso, 0);
    forall j | 0 <= j < 6
      ensures SalesOn(daily, dates[j].iso) == 0
    {
      assert dates[j].iso == iso(today - 6 + j);
      assert daily[0].id != dates[j].iso;
    }
  }
}
