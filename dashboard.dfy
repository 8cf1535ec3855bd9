/**
  The dashboard's reporting pipeline: the sidebar date filter, the four KPI
  cards, the per-product bar and pie data, and the two real-time
  leaderboards. The clock read becomes the parameter `now`.
 */
module Dashboard {
  import opened Wrappers
  import opened Sales
  import opened Grouping
  import opened Ranking
  import opened Calendar

  /** Entries on each real-time leaderboard (`.head(5)`). */
  const LEADERBOARD_SIZE: nat := 5

  /** The trailing window reaches back this many days (`pd.Timedelta(days=7)`). */
  const TRAILING_DAYS: int := 7

  /** `pd.to_datetime(d)` of a date picked in the sidebar: midnight of day `d`. */
  function Midnight(d: int): (t: int)
    ensures t % DAY == 0 && t / DAY == d
    ensures DateOf(t) == FromDayNumber(d)
  {
    d * DAY
  }

  /** The rows of the sidebar's date range, in input order. Both ends are
      compared as midnight timestamps, so on the end day only a sale stamped
      exactly at midnight is kept. */
  function FilterByDate(rows: seq<Sale>, startDay: int, endDay: int): (r: seq<Sale>)
    ensures forall s :: s in r <==>
      s in rows && startDay <= s.saleDate / DAY && (s.saleDate / DAY < endDay || s.saleDate == Midnight(endDay))
  {
    var lo, hi := Midnight(startDay), Midnight(endDay);
    assert forall s :: InInterval(s, lo, hi) <==>
      startDay <= s.saleDate / DAY && (s.saleDate / DAY < endDay || s.saleDate == hi) by {
      forall s ensures InInterval(s, lo, hi) <==>
        startDay <= s.saleDate / DAY && (s.saleDate / DAY < endDay || s.saleDate == hi) {
        DayBounds(s.saleDate);
      }
    }
    Between(rows, lo, hi)
  }

  lemma DayBounds(t: int)
    ensures (t / DAY) * DAY <= t < (t / DAY) * DAY + DAY
  {
  }

  /** `df_filtered["profit_margin"].mean()`. The mean of no rows is NaN in
      pandas, modelled by `None`. */
  function AverageMargin(rows: seq<Sale>): (r: Option<real>)
    ensures r.None? <==> rows == []
    ensures r.Some? ==> r.value * (|rows| as real) == Total(rows, ProfitMargin)
  {
    if rows == [] then None else Some(Total(rows, ProfitMargin) / (|rows| as real))
  }

  /** The summed revenue of product `p`. */
  function ProductRevenue(rows: seq<Sale>, p: int): real
  {
    GroupTotal(rows, ProductId, Revenue, p)
  }

  /** `groupby("product_id")["revenue"].sum().idxmax()`: the product with the
      largest summed revenue, the lowest id among equals (the first maximum of
      the key-ordered groups). pandas raises on no rows, modelled by `None`. */
  function TopProduct(rows: seq<Sale>): (r: Option<int>)
    ensures r.None? <==> rows == []
    ensures r.Some? ==> r.value in Keys(rows, ProductId)
    ensures r.Some? ==> forall p :: p in Keys(rows, ProductId) ==> ProductRevenue(rows, p) <= ProductRevenue(rows, r.value)
    ensures r.Some? ==> forall p :: p in Keys(rows, ProductId) && ProductRevenue(rows, p) == ProductRevenue(rows, r.value) ==> r.value <= p
  {
    var gs := GroupSum(rows, ProductId, Revenue);
    if gs == [] then None
    else
      var i := ArgMax(gs);
      ArgMaxIsTopProduct(rows, gs, i);
      Some(gs[i].key)
  }

  lemma ArgMaxIsTopProduct(rows: seq<Sale>, gs: seq<Group>, i: nat)
    requires StrictlyAscending(gs) && KeysOf(gs) == Keys(rows, ProductId)
    requires forall j :: 0 <= j < |gs| ==> gs[j].total == ProductRevenue(rows, gs[j].key)
    requires i < |gs|
    requires forall j :: 0 <= j < |gs| ==> gs[j].total <= gs[i].total
    requires forall j :: 0 <= j < i ==> gs[j].total < gs[i].total
    ensures gs[i].key in Keys(rows, ProductId)
    ensures forall p :: p in Keys(rows, ProductId) ==> ProductRevenue(rows, p) <= ProductRevenue(rows, gs[i].key)
    ensures forall p :: p in Keys(rows, ProductId) && ProductRevenue(rows, p) == ProductRevenue(rows, gs[i].key) ==> gs[i].key <= p
  {
    KeysOfMember(gs);
    forall p | p in Keys(rows, ProductId)
      ensures ProductRevenue(rows, p) <= ProductRevenue(rows, gs[i].key)
      ensures ProductRevenue(rows, p) == ProductRevenue(rows, gs[i].key) ==> gs[i].key <= p
    {
      KeysOfIndex(gs, p);
      var j :| 0 <= j < |gs| && gs[j].key == p;
      if j < i {
        assert gs[j].total < gs[i].total;
      } else if i < j {
        assert gs[i].key < gs[j].key;
      }
    }
  }

  /** The four KPI cards. */
  datatype Kpis = Kpis(totalRevenue: real, totalProfit: real, averageMargin: real, topProduct: int)

  /** The script stops at `idxmax` when the date range holds no rows. */
  datatype ReportError = EmptyDataset

  /** The KPIs of the filtered rows. */
  function ComputeKpis(rows: seq<Sale>): (r: Result<Kpis, ReportError>)
    ensures r.Failure? <==> rows == []
    ensures r.Success? ==> Some(r.value.averageMargin) == AverageMargin(rows)
    ensures r.Success? ==> Some(r.value.topProduct) == TopProduct(rows)
    ensures r.Success? ==> r.value.totalRevenue == Total(rows, Revenue) && r.value.totalProfit == Total(rows, ProfitMargin)
  {
    match (AverageMargin(rows), TopProduct(rows))
    case (Some(avg), Some(top)) =>
      Success(Kpis(Total(rows, Revenue), Total(rows, ProfitMargin), avg, top))
    case _ => Failure(EmptyDataset)
  }

  /** A closed interval of timestamps. */
  datatype Window = Window(lo: int, hi: int)

  /** `[today - 7 days, today]` with `today` the clock's instant normalised to midnight. */
  function TrailingWeek(now: int): (w: Window)
    ensures w.hi % DAY == 0 && w.hi <= now < w.hi + DAY
    ensures w.lo == w.hi - TRAILING_DAYS * DAY
  {
    var today := Normalize(now);
    Window(today - TRAILING_DAYS * DAY, today)
  }

  /** `[start of now's month, now]`. */
  function MonthToDate(now: int): (w: Window)
    ensures w.hi == now && w.lo <= now && w.lo % DAY == 0
    ensures DateOf(w.lo) == Date(DateOf(now).year, DateOf(now).month, 1)
  {
    Window(MonthStart(now), now)
  }

  /** Group-sum, rank and keep the first five (`.sort_values(ascending=False).head(5)` on a grouped sum). */
  function Shortlist(win: seq<Sale>, key: KeyColumn, col: ValueColumn): seq<Group>
  {
    Top(GroupSum(win, key, col), LEADERBOARD_SIZE)
  }

  /** Restrict to a window, then shortlist. */
  function Leaderboard(rows: seq<Sale>, w: Window, key: KeyColumn, col: ValueColumn): seq<Group>
  {
    Shortlist(Between(rows, w.lo, w.hi), key, col)
  }

  /** A leaderboard lists at most five entries, largest totals first, equal
      totals by ascending key. */
  lemma ShortlistRanked(win: seq<Sale>, key: KeyColumn, col: ValueColumn)
    ensures |Shortlist(win, key, col)| == (if LEADERBOARD_SIZE < |Keys(win, key)| then LEADERBOARD_SIZE else |Keys(win, key)|)
    ensures var r := Shortlist(win, key, col);
      forall i, j :: 0 <= i < j < |r| ==> r[i].total >= r[j].total
    ensures var r := Shortlist(win, key, col);
      forall i, j :: 0 <= i < j < |r| && r[i].total == r[j].total ==> r[i].key < r[j].key
  {
    var gs := GroupSum(win, key, col);
    AscendingDistinct(gs);
    TopProperties(gs, LEADERBOARD_SIZE);
  }

  /** Each leaderboard entry is a group of the ranked rows with its true
      total, and no group left out ranks above the fifth entry. */
  lemma ShortlistGroups(win: seq<Sale>, key: KeyColumn, col: ValueColumn)
    ensures var r := Shortlist(win, key, col);
      forall i :: 0 <= i < |r| ==> r[i].key in Keys(win, key) && r[i].total == GroupTotal(win, key, col, r[i].key)
    ensures var r := Shortlist(win, key, col);
      forall k :: k in Keys(win, key) && k !in KeysOf(r) ==>
        |r| == LEADERBOARD_SIZE && Outranks(r[LEADERBOARD_SIZE - 1], Group(k, GroupTotal(win, key, col, k)))
  {
    var gs := GroupSum(win, key, col);
    AscendingDistinct(gs);
    TopProperties(gs, LEADERBOARD_SIZE);
    TopOfGroups(win, key, col, gs, Top(gs, LEADERBOARD_SIZE), LEADERBOARD_SIZE);
  }

  lemma AscendingDistinct(gs: seq<Group>)
    requires StrictlyAscending(gs)
    ensures DistinctKeys(gs)
  {
    forall i, j | 0 <= i < j < |gs| ensures gs[i].key != gs[j].key {
      assert gs[i].key < gs[j].key;
    }
  }

  /** The shortlist of a grouped sum, read back in terms of the rows grouped. */
  lemma TopOfGroups(win: seq<Sale>, key: KeyColumn, col: ValueColumn, gs: seq<Group>, r: seq<Group>, n: nat)
    requires KeysOf(gs) == Keys(win, key)
    requires forall i :: 0 <= i < |gs| ==> gs[i].total == GroupTotal(win, key, col, gs[i].key)
    requires forall i :: 0 <= i < |r| ==> r[i] in gs
    requires forall j :: 0 <= j < |gs| && gs[j] !in r ==> |r| == n && (0 < n ==> Outranks(r[n - 1], gs[j]))
    ensures forall i :: 0 <= i < |r| ==> r[i].key in Keys(win, key) && r[i].total == GroupTotal(win, key, col, r[i].key)
    ensures forall k :: k in Keys(win, key) && k !in KeysOf(r) ==>
      |r| == n && (0 < n ==> Outranks(r[n - 1], Group(k, GroupTotal(win, key, col, k))))
  {
    KeysOfMember(gs);
    KeysOfMember(r);
    forall i | 0 <= i < |r|
      ensures r[i].key in Keys(win, key) && r[i].total == GroupTotal(win, key, col, r[i].key)
    {
      var j :| 0 <= j < |gs| && gs[j] == r[i];
    }
    forall k | k in Keys(win, key) && k !in KeysOf(r)
      ensures |r| == n && (0 < n ==> Outranks(r[n - 1], Group(k, GroupTotal(win, key, col, k))))
    {
      KeysOfIndex(gs, k);
      var j :| 0 <= j < |gs| && gs[j].key == k;
      assert forall i :: 0 <= i < |r| ==> r[i] != gs[j];
      assert gs[j] !in r;
      assert gs[j] == Group(k, GroupTotal(win, key, col, k));
    }
  }

  /** Top 5 products by quantity over the trailing week (chart "Top 5 produits"). */
  function TopProductsLastWeek(filtered: seq<Sale>, now: int): seq<Group>
  {
    Leaderboard(filtered, TrailingWeek(now), ProductId, Quantity)
  }

  /** Top 5 customers by revenue over the month to date (chart "Top 5 clients"). */
  function TopCustomersThisMonth(filtered: seq<Sale>, now: int): seq<Group>
  {
    Leaderboard(filtered, MonthToDate(now), CustomerId, Revenue)
  }

  /** A window applied to the date-filtered rows keeps exactly the rows of the
      whole table that lie in both the date range and the window: a subset of
      the filtered rows, in the same order. */
  lemma WindowOfFiltered(rows: seq<Sale>, startDay: int, endDay: int, w: Window)
    ensures var lo, hi := Midnight(startDay), Midnight(endDay);
      Between(FilterByDate(rows, startDay, endDay), w.lo, w.hi)
      == Between(rows, if lo < w.lo then w.lo else lo, if hi < w.hi then hi else w.hi)
    ensures forall s :: s in Between(FilterByDate(rows, startDay, endDay), w.lo, w.hi) ==>
      s in FilterByDate(rows, startDay, endDay) && w.lo <= s.saleDate <= w.hi
  {
    BetweenTwice(rows, Midnight(startDay), Midnight(endDay), w.lo, w.hi);
  }

  /** Every row counted on the weekly leaderboard is a filtered row sold
      between midnight seven days before the clock's day and midnight of that day. */
  lemma TrailingWeekRows(filtered: seq<Sale>, now: int)
    ensures forall s :: s in Between(filtered, TrailingWeek(now).lo, TrailingWeek(now).hi) ==>
      s in filtered && Normalize(now) - TRAILING_DAYS * DAY <= s.saleDate <= Normalize(now)
  {
  }

  /** Every row counted on the monthly leaderboard was sold in the month of
      `now`, no later than `now`. */
  lemma MonthToDateRowsInMonth(filtered: seq<Sale>, now: int)
    ensures forall s :: s in Between(filtered, MonthToDate(now).lo, MonthToDate(now).hi) ==>
      s in filtered && s.saleDate <= now
      && DateOf(s.saleDate).year == DateOf(now).year && DateOf(s.saleDate).month == DateOf(now).month
  {
    var w := MonthToDate(now);
    forall s | s in Between(filtered, w.lo, w.hi)
      ensures DateOf(s.saleDate).year == DateOf(now).year && DateOf(s.saleDate).month == DateOf(now).month
    {
      MonthToDateSameMonth(now, s.saleDate);
    }
  }

  /** Everything the dashboard shows, derived from the rows of the date range. */
  datatype Report = Report(
    kpis: Kpis,
    productProfit: seq<Group>,
    revenueByProduct: seq<Group>,
    topProductsLastWeek: seq<Group>,
    topCustomersThisMonth: seq<Group>)

  /** The whole pipeline of the page for the picked date range. The clock is
      read twice: `weekClock`, the raw reading that the weekly leaderboard
      normalises to midnight, and `now` for the monthly one.
      It fails exactly when the date range holds no rows. */
  function BuildReport(rows: seq<Sale>, startDay: int, endDay: int, weekClock: int, now: int): (r: Result<Report, ReportError>)
    ensures r.Failure? <==> FilterByDate(rows, startDay, endDay) == []
    ensures r.Success? ==> SumTotals(r.value.revenueByProduct) == r.value.kpis.totalRevenue
    ensures r.Success? ==> SumTotals(r.value.productProfit) == r.value.kpis.totalProfit
    ensures r.Success? ==> |r.value.topProductsLastWeek| <= LEADERBOARD_SIZE
    ensures r.Success? ==> |r.value.topCustomersThisMonth| <= LEADERBOARD_SIZE
  {
    var filtered := FilterByDate(rows, startDay, endDay);
    match ComputeKpis(filtered)
    case Failure(e) => Failure(e)
    case Success(kpis) =>
      GroupSumsAddUp(filtered, ProductId, Revenue);
      GroupSumsAddUp(filtered, ProductId, ProfitMargin);
      ShortlistRanked(Between(filtered, TrailingWeek(weekClock).lo, TrailingWeek(weekClock).hi), ProductId, Quantity);
      ShortlistRanked(Between(filtered, MonthToDate(now).lo, MonthToDate(now).hi), CustomerId, Revenue);
      Success(Report(
        kpis,
        GroupSum(filtered, ProductId, ProfitMargin),
        GroupSum(filtered, ProductId, Revenue),
        TopProductsLastWeek(filtered, weekClock),
        TopCustomersThisMonth(filtered, now)))
  }

  /** The KPIs of one row are that row's own figures. */
  lemma {:induction false} SingleRowKpis(s: Sale)
    ensures ComputeKpis([s]) == Success(Kpis(s.revenue, s.profitMargin, s.profitMargin, s.productId))
  {
    var rows := [s];
    assert rows[1..] == [];
    assert Total(rows, Revenue) == s.revenue;
    assert Total(rows, ProfitMargin) == s.profitMargin;
    assert AverageMargin(rows) == Some(s.profitMargin);
    assert Keys(rows, ProductId) == {s.productId};
    assert TopProduct(rows) == Some(s.productId);
  }

  /** Two sales on 2024-01-01 (day 19723) and 2024-01-02. */
  function TwoDays(): seq<Sale>
  {
    [Sale(19723 * DAY, 1, 1, 2, 100.0, 10.0), Sale(19724 * DAY, 2, 1, 1, 50.0, 5.0)]
  }

  /** A date range covering both days keeps both sales: the second, stamped
      at midnight of the end day, is on the boundary. */
  lemma {:induction false} TwoDaysFilter()
    ensures FilterByDate(TwoDays(), 19723, 19724) == TwoDays()
  {
    var rows := TwoDays();
    assert rows[1..][1..] == [];
    assert Between(rows[1..], Midnight(19723), Midnight(19724)) == rows[1..];
  }

  /** The KPIs of the two sales: revenue 150, profit 15, average margin 7.5,
      top product 1. */
  lemma {:induction false} TwoDaysKpis()
    ensures ComputeKpis(TwoDays()) == Success(Kpis(150.0, 15.0, 7.5, 1))
  {
    var rows := TwoDays();
    assert rows[1..][1..] == [];
    assert Total(rows, Revenue) == 150.0;
    assert Total(rows, ProfitMargin) == 15.0;
    assert AverageMargin(rows) == Some(7.5);
    assert Keys(rows, ProductId) == {1, 2} by {
      assert Keys(rows[1..], ProductId) == {2};
    }
    assert ProductRevenue(rows, 1) == 100.0 by {
      assert Select(rows[1..], ProductId, 1) == [];
    }
    assert ProductRevenue(rows, 2) == 50.0 by {
      assert Select(rows[1..], ProductId, 2) == [rows[1]];
    }
    assert TopProduct(rows) == Some(1);
  }

  /** Two products that both sold a quantity of 3 in the window: the tie is
      broken by ascending product id. */
  lemma {:induction false} TieScenario()
    ensures var win := [Sale(0, 2, 1, 3, 1.0, 1.0), Sale(0, 1, 1, 3, 1.0, 1.0)];
      Shortlist(win, ProductId, Quantity) == [Group(1, 3.0), Group(2, 3.0)]
  {
    var win := [Sale(0, 2, 1, 3, 1.0, 1.0), Sale(0, 1, 1, 3, 1.0, 1.0)];
    var r := Shortlist(win, ProductId, Quantity);
    ShortlistRanked(win, ProductId, Quantity);
    ShortlistGroups(win, ProductId, Quantity);
    assert win[1..][1..] == [];
    assert Keys(win, ProductId) == {1, 2} by {
      assert Keys(win[1..], ProductId) == {1};
    }
    assert GroupTotal(win, ProductId, Quantity, 1) == 3.0 by {
      assert Select(win, ProductId, 1) == [win[1]];
    }
    assert GroupTotal(win, ProductId, Quantity, 2) == 3.0 by {
      assert Select(win, ProductId, 2) == [win[0]];
    }
    assert |r| == 2;
    assert r[0].key in {1, 2} && r[1].key in {1, 2};
    assert r[0].key < r[1].key;
  }
}
