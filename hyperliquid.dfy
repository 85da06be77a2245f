/** The leaderboard side of the Hyperliquid client: converting a leaderboard row to
    trader metrics for a time period, and the top traders by PnL once the
    leaderboard has been fetched. The fetch itself is an input: a response with
    its data or its error. Text fields reach the code through `parseFloat`; the
    model holds the parsed number, with None for text that parses to NaN. */
module Hyperliquid {
  import opened Wrappers
  import opened WhaleTypes
  import opened StableSort
  import Js

  /** One window of a row, with `pnl`, `roi` and `vlm` parsed. */
  datatype WindowPerformance = WindowPerformance(pnl: Option<real>, roi: Option<real>, vlm: Option<real>)

  /** A leaderboard row; a window is None where the response holds null. */
  datatype LeaderboardRow = LeaderboardRow(
    ethAddress: string,
    accountValue: Option<real>,
    windowPerformances: seq<Option<WindowPerformance>>)

  /** `{ data, error }` as the client functions return it. */
  datatype ApiResponse<T> = ApiResponse(data: Option<T>, error: Option<string>)

  /** The window index table, keyed by the names the leaderboard API uses for its
      windows: "1d", "7d", "30d" and "allTime". */
  const TimeWindowIndex: map<string, nat> := map["1d" := 0, "7d" := 1, "30d" := 2, "allTime" := 3]

  /** The window of a row for a period: the performance at the index, None when the
      index is missing from the table, past the end of the array, or holds null. */
  function Window(row: LeaderboardRow, index: Option<nat>): Option<WindowPerformance> {
    if index.None? || index.value >= |row.windowPerformances| then None
    else row.windowPerformances[index.value]
  }

  /** `parseFloat(x) || 0`: NaN and 0 both become 0. */
  function OrZero(x: Option<real>): (r: real)
    ensures x.Some? ==> r == x.value
    ensures x.None? ==> r == 0.0
  {
    if x.None? || x.value == 0.0 then 0.0 else x.value
  }

  /** The metrics built from a row's window: the address copied, the parsed numbers
      with 0 for NaN, and the ROI, a fraction, as a percentage. The leaderboard
      carries no Sharpe ratio, trade count or label. */
  function MetricsOf(row: LeaderboardRow, performance: WindowPerformance, now: int): (m: TraderMetrics)
    ensures m.address == row.ethAddress
    ensures m.pnl == OrZero(performance.pnl) && m.volume == OrZero(performance.vlm)
    ensures m.winRate == OrZero(performance.roi) * 100.0
    ensures m.accountValue == OrZero(row.accountValue) && m.lastUpdated == now
    ensures m.sharpe == None && m.trades == None && m.whaleLabel == None
  {
    TraderMetrics(
      address := row.ethAddress,
      whaleLabel := None,
      pnl := OrZero(performance.pnl),
      winRate := OrZero(performance.roi) * 100.0,
      sharpe := None,
      trades := None,
      volume := OrZero(performance.vlm),
      accountValue := OrZero(row.accountValue),
      lastUpdated := now)
  }

  /** `rowToMetrics` as written: the period's key is looked up in the window index
      table, whose keys are the API's window names. */
  function RowToMetricsAsWritten(row: LeaderboardRow, period: TimePeriod, now: int): (r: Option<TraderMetrics>)
    ensures r.Some? <==> PeriodKey(period) in TimeWindowIndex && Window(row, Some(TimeWindowIndex[PeriodKey(period)])).Some?
  {
    var key := PeriodKey(period);
    var index := if key in TimeWindowIndex then Some(TimeWindowIndex[key]) else None;
    match Window(row, index)
    case None => None
    case Some(performance) => Some(MetricsOf(row, performance, now))
  }

  /** The keys of the day and all-time periods are not keys of the window index
      table, so for those periods every row is skipped, whatever it holds. */
  lemma DayAndAllTimeAlwaysSkipped(row: LeaderboardRow, now: int)
    ensures RowToMetricsAsWritten(row, Day, now) == None
    ensures RowToMetricsAsWritten(row, AllTime, now) == None
  {
    assert PeriodKey(Day) !in TimeWindowIndex;
    assert PeriodKey(AllTime) !in TimeWindowIndex;
  }

  /** The window of a period: day, week, month and all time in that order. */
  function WindowIndex(period: TimePeriod): (i: nat)
    ensures i < 4
    ensures period == Week ==> i == TimeWindowIndex["7d"]
    ensures period == Month ==> i == TimeWindowIndex["30d"]
    ensures period == Day ==> i == TimeWindowIndex["1d"]
    ensures period == AllTime ==> i == TimeWindowIndex["allTime"]
  {
    match period
    case Day => 0
    case Week => 1
    case Month => 2
    case AllTime => 3
  }

  /** `rowToMetrics` with every period mapped to its window: null exactly when the
      window is missing; otherwise the window's metrics. */
  function RowToMetrics(row: LeaderboardRow, period: TimePeriod, now: int): (r: Option<TraderMetrics>)
    ensures r.None? <==> Window(row, Some(WindowIndex(period))).None?
    ensures r.Some? ==> r.value == MetricsOf(row, Window(row, Some(WindowIndex(period))).value, now)
  {
    match Window(row, Some(WindowIndex(period)))
    case None => None
    case Some(performance) => Some(MetricsOf(row, performance, now))
  }

  /** The two agree on the periods whose key is in the table. */
  lemma {:induction false} RowToMetricsAgrees(row: LeaderboardRow, period: TimePeriod, now: int)
    requires period == Week || period == Month
    ensures RowToMetricsAsWritten(row, period, now) == RowToMetrics(row, period, now)
  {
    assert PeriodKey(period) in TimeWindowIndex;
    assert TimeWindowIndex[PeriodKey(period)] == WindowIndex(period);
  }

  /** The metrics of the rows that have them, in row order. */
  function Converted(rows: seq<LeaderboardRow>, period: TimePeriod, now: int): (ts: seq<TraderMetrics>)
    ensures |ts| <= |rows|
  {
    if rows == [] then []
    else
      var init := Converted(rows[..|rows| - 1], period, now);
      match RowToMetrics(rows[|rows| - 1], period, now)
      case None => init
      case Some(m) => init + [m]
  }

  /** Every converted trader comes from a row with a window for the period, and
      every such row is converted. */
  lemma {:induction false} ConvertedMembers(rows: seq<LeaderboardRow>, period: TimePeriod, now: int)
    ensures forall t :: t in Converted(rows, period, now) ==>
              exists row :: row in rows && RowToMetrics(row, period, now) == Some(t)
    ensures forall row :: row in rows && RowToMetrics(row, period, now).Some? ==>
              RowToMetrics(row, period, now).value in Converted(rows, period, now)
  {
    if rows != [] {
      var init := rows[..|rows| - 1];
      var last := rows[|rows| - 1];
      ConvertedMembers(init, period, now);
      assert rows == init + [last];
      forall row | row in rows && RowToMetrics(row, period, now).Some?
        ensures RowToMetrics(row, period, now).value in Converted(rows, period, now)
      {
        if row != last {
          assert row in init;
        }
      }
    }
  }

  /** The comparator of the sort: `b.pnl - a.pnl`, which puts larger PnL first. */
  function ByPnlDesc(a: TraderMetrics, b: TraderMetrics): real {
    b.pnl - a.pnl
  }

  /** The `limit` a call to `getTopTraders` without it gets. */
  const DefaultTopTradersLimit: int := 50

  /** The top traders of a response, as the non-error branch returns them. */
  function TopTraders(rows: seq<LeaderboardRow>, period: TimePeriod, limit: int, now: int): seq<TraderMetrics> {
    Js.Slice(SortBy(Converted(rows, period, now), ByPnlDesc), 0, limit)
  }

  /** `getTopTraders` after the fetch: an error, or a response without data, is
      passed on with no data; otherwise the rows with metrics for the period,
      sorted by PnL from the largest, cut to `limit`. */
  method GetTopTraders(response: ApiResponse<seq<LeaderboardRow>>, period: TimePeriod, limit: int, now: int)
    returns (r: ApiResponse<seq<TraderMetrics>>)
    ensures (response.error.Some? && response.error.value != "") || response.data.None? ==>
              r == ApiResponse(None, response.error)
    ensures !((response.error.Some? && response.error.value != "") || response.data.None?) ==>
              r == ApiResponse(Some(TopTraders(response.data.value, period, limit, now)), None)
  {
    if (response.error.Some? && response.error.value != "") || response.data.None? {
      return ApiResponse(None, response.error);
    }
    var rows := response.data.value;
    var traders: seq<TraderMetrics> := [];
    var i := 0;
    while i < |rows|
      invariant 0 <= i <= |rows|
      invariant traders == Converted(rows[..i], period, now)
    {
      assert rows[..i + 1][..i] == rows[..i];
      var metrics := RowToMetrics(rows[i], period, now);
      if metrics.Some? {
        traders := traders + [metrics.value];
      }
      i := i + 1;
    }
    assert rows[..|rows|] == rows;
    traders := SortBy(traders, ByPnlDesc);
    return ApiResponse(Some(Js.Slice(traders, 0, limit)), None);
  }

  /** The top traders are in non-increasing PnL order, there are
      min(limit, rows with metrics) of them, they are the first of the whole sorted
      list, and none outside them has a larger PnL. */
  lemma {:induction false} TopTradersProperties(rows: seq<LeaderboardRow>, period: TimePeriod, limit: int, now: int)
    requires limit >= 0
    ensures var top := TopTraders(rows, period, limit, now);
            forall i, j :: 0 <= i < j < |top| ==> top[i].pnl >= top[j].pnl
    ensures var n := |Converted(rows, period, now)|;
            |TopTraders(rows, period, limit, now)| == if limit < n then limit else n
    ensures var all := SortBy(Converted(rows, period, now), ByPnlDesc);
            TopTraders(rows, period, limit, now) == all[..|TopTraders(rows, period, limit, now)|]
    ensures var all := SortBy(Converted(rows, period, now), ByPnlDesc);
            var top := TopTraders(rows, period, limit, now);
            forall t :: t in all[|top|..] ==> forall i :: 0 <= i < |top| ==> top[i].pnl >= t.pnl
  {
    var ts := Converted(rows, period, now);
    var rank := (t: TraderMetrics) => -t.pnl;
    assert RankComparatorOn(ByPnlDesc, rank, ts);
    SortBySorted(ts, ByPnlDesc, rank);
    var all := SortBy(ts, ByPnlDesc);
    SortByPermutes(ts, ByPnlDesc);
    Js.SlicePrefix(all, limit);
    var n := if limit < |all| then limit else |all|;
    PrefixRanksFirst(all, n, rank);
    SuffixRanksAfterPrefix(all, n, rank);
  }

  /** Each top trader is the metrics of some row with a window for the period. */
  lemma TopTradersFromRows(rows: seq<LeaderboardRow>, period: TimePeriod, limit: int, now: int)
    ensures forall t :: t in TopTraders(rows, period, limit, now) ==>
              exists row :: row in rows && RowToMetrics(row, period, now) == Some(t)
  {
    var ts := Converted(rows, period, now);
    var all := SortBy(ts, ByPnlDesc);
    SortByPermutes(ts, ByPnlDesc);
    ConvertedMembers(rows, period, now);
    var top := TopTraders(rows, period, limit, now);
    forall t | t in top ensures t in ts {
      SliceMembers(all, limit, t);
    }
  }

  lemma SliceMembers<T>(s: seq<T>, end: int, x: T)
    requires x in Js.Slice(s, 0, end)
    ensures x in s
  {
    if end >= 0 {
      Js.SlicePrefix(s, end);
      var n := if end < |s| then end else |s|;
      assert x in s[..n];
    } else {
      var r := Js.Slice(s, 0, end);
      var k :| 0 <= k < |r| && r[k] == x;
      assert r == s[0..Js.RelativeIndex(end, |s|)];
      assert s[k] == x;
    }
  }
}
