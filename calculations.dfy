/** Trader metrics computed from fills: PnL, volume, the grouping of fills into
    round-trip trades and the win rate over them, the zero guards of the Sharpe
    ratio, and the assembly of a `TraderMetrics` record. */
module Calculations {
  import opened Wrappers
  import opened StableSort
  import opened Grouping
  import opened WhaleTypes

  /** `parseFloat(fill.closedPnl || "0")`: a missing closed PnL counts as 0. */
  function ClosedPnl(f: Fill): real {
    f.closedPnl.GetOr(0.0)
  }

  /** size × price. */
  function Notional(f: Fill): real {
    f.sz * f.px
  }

  /** The fill's effect on the position: + size for a buy ("B"), − size otherwise. */
  function SignedSize(f: Fill): real {
    if f.side == "B" then f.sz else -f.sz
  }

  /** `calculatePnL`: the closed PnL summed over the fills in order. */
  function PnL(fills: seq<Fill>): real {
    if fills == [] then 0.0 else PnL(fills[..|fills| - 1]) + ClosedPnl(fills[|fills| - 1])
  }

  /** `calculateVolume`: size × price summed over the fills in order. */
  function Volume(fills: seq<Fill>): real {
    if fills == [] then 0.0 else Volume(fills[..|fills| - 1]) + Notional(fills[|fills| - 1])
  }

  /** The signed sizes summed: the position the fills leave behind. */
  function NetPosition(fills: seq<Fill>): real {
    if fills == [] then 0.0 else NetPosition(fills[..|fills| - 1]) + SignedSize(fills[|fills| - 1])
  }

  /** The three sums split over a concatenation. */
  lemma {:induction false} SumsAppend(a: seq<Fill>, b: seq<Fill>)
    ensures PnL(a + b) == PnL(a) + PnL(b)
    ensures Volume(a + b) == Volume(a) + Volume(b)
    ensures NetPosition(a + b) == NetPosition(a) + NetPosition(b)
    decreases |b|
  {
    if b == [] {
      assert a + b == a;
    } else {
      var b' := b[..|b| - 1];
      assert (a + b)[..|a + b| - 1] == a + b';
      SumsAppend(a, b');
    }
  }

  /** A fill without a closed PnL adds nothing to the PnL, wherever it stands. */
  lemma PnLIgnoresMissing(a: seq<Fill>, f: Fill, b: seq<Fill>)
    requires f.closedPnl == None
    ensures PnL(a + [f] + b) == PnL(a + b)
  {
    SumsAppend(a + [f], b);
    SumsAppend(a, [f]);
    SumsAppend(a, b);
    assert [f][..0] == [];
  }

  // ---------------------------------------------------------------------------
  // Round-trip trades

  datatype TradeResult = TradeResult(pnl: real, isWin: bool, volume: real)

  /** The loop state while one coin's fills are scanned: the running position,
      the PnL and volume since the last recorded trade, and the trades so far. */
  datatype Run = Run(position: real, tradePnl: real, tradeVolume: real, trades: seq<TradeResult>)

  /** The position went from long to flat or short, or from short to flat or long. */
  predicate Crossed(prev: real, next: real) {
    (prev > 0.0 && next <= 0.0) || (prev < 0.0 && next >= 0.0)
  }

  /** One iteration of the per-coin loop. */
  function Step(r: Run, f: Fill): Run {
    var position := r.position + SignedSize(f);
    var tradeVolume := r.tradeVolume + Notional(f);
    var tradePnl := r.tradePnl + ClosedPnl(f);
    if Crossed(r.position, position) then
      Run(position, 0.0, 0.0, r.trades + [TradeResult(tradePnl, tradePnl > 0.0, tradeVolume)])
    else
      Run(position, tradePnl, tradeVolume, r.trades)
  }

  /** The loop over a whole sequence of fills. */
  function RunOver(r: Run, fills: seq<Fill>): Run {
    if fills == [] then r else Step(RunOver(r, fills[..|fills| - 1]), fills[|fills| - 1])
  }

  /** The per-coin sort comparator `a.time - b.time`. */
  function ByTime(a: Fill, b: Fill): real {
    (a.time - b.time) as real
  }

  function TimeRank(f: Fill): real {
    f.time as real
  }

  function CoinOf(f: Fill): string {
    f.coin
  }

  /** The trades of the coins `coins`, one coin after the other, each coin's fills
      in time order from a flat position, appended to one list. */
  function TradesOf(coins: seq<string>, fills: seq<Fill>): seq<TradeResult> {
    if coins == [] then []
    else
      var before := TradesOf(coins[..|coins| - 1], fills);
      RunOver(Run(0.0, 0.0, 0.0, before), SortBy(Group(fills, CoinOf, coins[|coins| - 1]), ByTime)).trades
  }

  lemma TradesOfNext(coins: seq<string>, j: nat, fills: seq<Fill>)
    requires j < |coins|
    ensures TradesOf(coins[..j + 1], fills)
         == RunOver(Run(0.0, 0.0, 0.0, TradesOf(coins[..j], fills)), SortBy(Group(fills, CoinOf, coins[j]), ByTime)).trades
  {
    assert coins[..j + 1][..j] == coins[..j];
  }

  /** The trades of all coins, coins in order of first appearance. */
  function GroupedTrades(fills: seq<Fill>): seq<TradeResult> {
    TradesOf(KeysInOrder(fills, CoinOf), fills)
  }

  /** The first loop of `groupFillsIntoTrades`: the per-coin map, filled in one
      pass, with its keys in insertion order. */
  method GroupByCoin(fills: seq<Fill>) returns (byCoin: map<string, seq<Fill>>, coins: seq<string>)
    ensures coins == KeysInOrder(fills, CoinOf)
    ensures forall k :: k in byCoin <==> k in coins
    ensures forall k :: k in byCoin ==> byCoin[k] == Group(fills, CoinOf, k)
  {
    byCoin, coins := map[], [];
    for i := 0 to |fills|
      invariant GroupedInto(byCoin, coins, fills[..i], CoinOf)
    {
      var fill := fills[i];
      assert fills[..i + 1] == fills[..i] + [fill];
      GroupedIntoStep(byCoin, coins, fills[..i], fill, CoinOf);
      var coinFills := if fill.coin in byCoin then byCoin[fill.coin] else [];
      if fill.coin !in byCoin {
        coins := coins + [fill.coin];
      }
      coinFills := coinFills + [fill];
      byCoin := byCoin[fill.coin := coinFills];
    }
    assert fills[..|fills|] == fills;
  }

  lemma RunOverNext(r: Run, fills: seq<Fill>, k: nat)
    requires k < |fills|
    ensures RunOver(r, fills[..k + 1]) == Step(RunOver(r, fills[..k]), fills[k])
  {
    assert fills[..k + 1][..k] == fills[..k];
  }

  /** The inner loop of `groupFillsIntoTrades`: one coin's sorted fills scanned
      from a flat position, recorded trades appended to `trades0`. */
  method ScanCoin(sorted: seq<Fill>, trades0: seq<TradeResult>) returns (trades: seq<TradeResult>)
    ensures trades == RunOver(Run(0.0, 0.0, 0.0, trades0), sorted).trades
  {
    trades := trades0;
    var position, tradePnl, tradeVolume := 0.0, 0.0, 0.0;
    for k := 0 to |sorted|
      invariant Run(position, tradePnl, tradeVolume, trades) == RunOver(Run(0.0, 0.0, 0.0, trades0), sorted[..k])
    {
      ghost var before := Run(position, tradePnl, tradeVolume, trades);
      RunOverNext(Run(0.0, 0.0, 0.0, trades0), sorted, k);
      var fill := sorted[k];
      var value := fill.sz * fill.px;
      var signedSize := if fill.side == "B" then fill.sz else -fill.sz;
      var prevPosition := position;
      position := position + signedSize;
      tradeVolume := tradeVolume + value;
      tradePnl := tradePnl + ClosedPnl(fill);
      if (prevPosition > 0.0 && position <= 0.0) || (prevPosition < 0.0 && position >= 0.0) {
        trades := trades + [TradeResult(tradePnl, tradePnl > 0.0, tradeVolume)];
        tradePnl := 0.0;
        tradeVolume := 0.0;
      }
      assert signedSize == SignedSize(fill);
      assert Run(position, tradePnl, tradeVolume, trades) == Step(before, fill);
    }
    assert sorted[..|sorted|] == sorted;
  }

  /** `groupFillsIntoTrades`: group by coin, then run each coin's time-sorted fills
      through the position state machine. */
  method GroupFillsIntoTrades(fills: seq<Fill>) returns (trades: seq<TradeResult>)
    ensures trades == GroupedTrades(fills)
  {
    var byCoin, coins := GroupByCoin(fills);
    trades := [];
    for j := 0 to |coins|
      invariant trades == TradesOf(coins[..j], fills)
    {
      TradesOfNext(coins, j, fills);
      var sorted := SortBy(byCoin[coins[j]], ByTime);
      trades := ScanCoin(sorted, trades);
    }
    assert coins[..|coins|] == coins;
  }

  /** No fill moves the running position, which starts at p, from a side onto or
      across zero. */
  predicate Quiet(p: real, fills: seq<Fill>) {
    fills == [] ||
    var init := fills[..|fills| - 1];
    Quiet(p, init) && !Crossed(p + NetPosition(init), p + NetPosition(fills))
  }

  /** A stretch of fills that never crosses records nothing: the position, PnL and
      volume just accumulate. In particular a trailing stretch is never recorded. */
  lemma {:induction false} QuietRun(r: Run, fills: seq<Fill>)
    requires Quiet(r.position, fills)
    ensures RunOver(r, fills)
         == Run(r.position + NetPosition(fills), r.tradePnl + PnL(fills), r.tradeVolume + Volume(fills), r.trades)
  {
    if fills != [] {
      QuietRun(r, fills[..|fills| - 1]);
    }
  }

  /** A stretch that crosses only at its last fill is recorded as one trade whose
      PnL and volume are the pending amounts plus the stretch's sums; both
      accumulators then restart from 0. */
  lemma SegmentRecorded(r: Run, fills: seq<Fill>)
    requires fills != []
    requires Quiet(r.position, fills[..|fills| - 1])
    requires Crossed(r.position + NetPosition(fills[..|fills| - 1]), r.position + NetPosition(fills))
    ensures RunOver(r, fills)
         == Run(r.position + NetPosition(fills), 0.0, 0.0,
                r.trades + [TradeResult(r.tradePnl + PnL(fills), r.tradePnl + PnL(fills) > 0.0,
                                        r.tradeVolume + Volume(fills))])
  {
    QuietRun(r, fills[..|fills| - 1]);
  }

  function TotalPnl(trades: seq<TradeResult>): real {
    if trades == [] then 0.0 else TotalPnl(trades[..|trades| - 1]) + trades[|trades| - 1].pnl
  }

  function TotalVolume(trades: seq<TradeResult>): real {
    if trades == [] then 0.0 else TotalVolume(trades[..|trades| - 1]) + trades[|trades| - 1].volume
  }

  /** Nothing is lost: recorded plus pending PnL and volume grow by exactly the
      fills' PnL and volume; earlier trades are kept; at most one trade per fill;
      every trade is a win exactly when its PnL is positive. */
  lemma {:induction false} RunConserves(r: Run, fills: seq<Fill>)
    ensures var R := RunOver(r, fills);
      && R.position == r.position + NetPosition(fills)
      && TotalPnl(R.trades) + R.tradePnl == TotalPnl(r.trades) + r.tradePnl + PnL(fills)
      && TotalVolume(R.trades) + R.tradeVolume == TotalVolume(r.trades) + r.tradeVolume + Volume(fills)
      && |r.trades| <= |R.trades| <= |r.trades| + |fills|
      && R.trades[..|r.trades|] == r.trades
      && ((forall t :: t in r.trades ==> t.isWin == (t.pnl > 0.0)) ==> (forall t :: t in R.trades ==> t.isWin == (t.pnl > 0.0)))
  {
    if fills != [] {
      var init := fills[..|fills| - 1];
      RunConserves(r, init);
      var P := RunOver(r, init);
      var R := Step(P, fills[|fills| - 1]);
      if |R.trades| > |P.trades| {
        assert R.trades[..|R.trades| - 1] == P.trades;
        assert R.trades[..|r.trades|] == P.trades[..|r.trades|];
      }
    }
  }

  /** A run records at most one trade per fill. */
  lemma RunTradeCount(r: Run, fills: seq<Fill>)
    ensures |RunOver(r, fills).trades| <= |r.trades| + |fills|
  {
    RunConserves(r, fills);
  }

  /** One coin's trades never outnumber its fills. */
  lemma {:induction false} TradesOfBound(coins: seq<string>, fills: seq<Fill>)
    ensures |TradesOf(coins, fills)| <= SumGroupSizes(coins, fills, CoinOf)
  {
    if coins != [] {
      var n := |coins| - 1;
      var before := TradesOf(coins[..n], fills);
      var g := Group(fills, CoinOf, coins[n]);
      var sorted := SortBy(g, ByTime);
      assert TradesOf(coins, fills) == RunOver(Run(0.0, 0.0, 0.0, before), sorted).trades;
      TradesOfBound(coins[..n], fills);
      RunTradeCount(Run(0.0, 0.0, 0.0, before), sorted);
      SortByLength(g, ByTime);
      SumGroupSizesLast(coins, fills, CoinOf);
    }
  }

  /** There are at most as many trades as fills. */
  lemma TradeCountAtMostFills(fills: seq<Fill>)
    ensures |GroupedTrades(fills)| <= |fills|
  {
    TradesOfBound(KeysInOrder(fills, CoinOf), fills);
    GroupSizesAddUp(fills, CoinOf);
  }

  /** Every trade is a win exactly when its PnL is positive. */
  lemma {:induction false} TradesWinIffPositive(coins: seq<string>, fills: seq<Fill>)
    ensures forall t :: t in TradesOf(coins, fills) ==> (t.isWin <==> t.pnl > 0.0)
  {
    if coins != [] {
      var n := |coins| - 1;
      TradesWinIffPositive(coins[..n], fills);
      RunConserves(Run(0.0, 0.0, 0.0, TradesOf(coins[..n], fills)), SortBy(Group(fills, CoinOf, coins[n]), ByTime));
    }
  }

  /** Within a coin, the fills are scanned in non-decreasing time order. */
  lemma CoinFillsInTimeOrder(fills: seq<Fill>, coin: string)
    ensures SortedBy(SortBy(Group(fills, CoinOf, coin), ByTime), TimeRank)
    ensures forall f :: f in SortBy(Group(fills, CoinOf, coin), ByTime) <==> f in fills && f.coin == coin
  {
    SortBySorted(Group(fills, CoinOf, coin), ByTime, TimeRank);
    SortByPermutes(Group(fills, CoinOf, coin), ByTime);
    GroupMembers(fills, CoinOf, coin);
  }

  // ---------------------------------------------------------------------------
  // Win rate

  /** The number of trades with positive PnL. */
  function Wins(trades: seq<TradeResult>): (n: nat)
    ensures n <= |trades|
  {
    if trades == [] then 0
    else Wins(trades[..|trades| - 1]) + (if trades[|trades| - 1].pnl > 0.0 then 1 else 0)
  }

  /** The share of winning trades as a percentage, 0 for no trades. */
  function WinPercentage(trades: seq<TradeResult>): (r: real)
    ensures 0.0 <= r <= 100.0
    ensures trades == [] ==> r == 0.0
    ensures trades != [] ==> r * (|trades| as real) == 100.0 * (Wins(trades) as real)
  {
    if |trades| == 0 then 0.0
    else
      var w, n := Wins(trades) as real, |trades| as real;
      ShareOf(w, n);
      (w / n) * 100.0
  }

  /** w out of n, as a percentage, lies between 0 and 100. */
  lemma ShareOf(w: real, n: real)
    requires 0.0 <= w <= n && n > 0.0
    ensures 0.0 <= (w / n) * 100.0 <= 100.0
    ensures (w / n) * 100.0 * n == 100.0 * w
  {
    var q := w / n;
    assert q * n == w;
    assert q >= 0.0;
    assert (1.0 - q) * n == n - w;
    assert q <= 1.0;
  }

  /** `calculateWinRate`: 0 without fills or without completed trades, otherwise
      100 × wins / trades. */
  function WinRate(fills: seq<Fill>): (r: real)
    ensures 0.0 <= r <= 100.0
  {
    if |fills| == 0 then 0.0 else WinPercentage(GroupedTrades(fills))
  }

  /** Fewer than one fill, and no trades at all. */
  lemma NoFillsNoTrades(fills: seq<Fill>)
    requires |fills| == 0
    ensures GroupedTrades(fills) == [] && WinRate(fills) == 0.0
  {
    TradeCountAtMostFills(fills);
  }

  // ---------------------------------------------------------------------------
  // Sharpe ratio guards

  /** `Math.sqrt`, of which the model needs only that √0 is 0 and √365 is
      positive. */
  type SquareRoot = f: real -> real | f(0.0) == 0.0 && f(365.0) > 0.0 witness (x: real) => x

  /** The key of the daily map: the UTC calendar date of the fill's time
      (`new Date(t).toISOString().split("T")[0]`, a host conversion passed in). */
  function DayKey(dayOf: int -> string): Fill -> string {
    (f: Fill) => dayOf(f.time)
  }

  /** The daily PnL totals, days in order of first appearance. */
  function DailyReturns(fills: seq<Fill>, dayOf: int -> string): (rs: seq<real>)
    ensures |rs| == |KeysInOrder(fills, DayKey(dayOf))|
  {
    var days := KeysInOrder(fills, DayKey(dayOf));
    seq(|days|, i requires 0 <= i < |days| => PnL(Group(fills, DayKey(dayOf), days[i])))
  }

  /** The daily-totals map after the fills s: its keys are the days seen so far,
      listed in `days` in order of first appearance, and each holds its day's PnL. */
  ghost predicate TotalledInto(totals: map<string, real>, days: seq<string>, s: seq<Fill>, dayOf: int -> string) {
    && days == KeysInOrder(s, DayKey(dayOf))
    && (forall d :: d in totals <==> d in days)
    && (forall d :: d in totals ==> totals[d] == PnL(Group(s, DayKey(dayOf), d)))
  }

  lemma PnLSnoc(s: seq<Fill>, f: Fill)
    ensures PnL(s + [f]) == PnL(s) + ClosedPnl(f)
  {
    assert (s + [f])[..|s|] == s;
  }

  /** Adding one fill's closed PnL to its day keeps the totals right. */
  lemma TotalledIntoNext(totals: map<string, real>, days: seq<string>, fills: seq<Fill>, i: nat, dayOf: int -> string)
    requires i < |fills| && TotalledInto(totals, days, fills[..i], dayOf)
    ensures var date := dayOf(fills[i].time);
            TotalledInto(totals[date := (if date in totals then totals[date] else 0.0) + ClosedPnl(fills[i])],
                         if date in totals then days else days + [date], fills[..i + 1], dayOf)
  {
    var s, f := fills[..i], fills[i];
    var date := dayOf(f.time);
    var totals' := totals[date := (if date in totals then totals[date] else 0.0) + ClosedPnl(f)];
    var days' := if date in totals then days else days + [date];
    PrefixSnoc(fills, i);
    TotalledDaysNext(totals, days, s, f, dayOf, days');
    TotalledValuesNext(totals, days, s, f, dayOf, totals');
  }

  /** The list of days after one more fill. */
  lemma TotalledDaysNext(totals: map<string, real>, days: seq<string>, s: seq<Fill>, f: Fill, dayOf: int -> string,
                         days': seq<string>)
    requires TotalledInto(totals, days, s, dayOf)
    requires days' == if dayOf(f.time) in totals then days else days + [dayOf(f.time)]
    ensures days' == KeysInOrder(s + [f], DayKey(dayOf))
  {
    var key := DayKey(dayOf);
    assert key(f) == dayOf(f.time);
    KeysInOrderSnoc(s, f, key);
  }

  /** The map's entries after one more fill. */
  lemma TotalledValuesNext(totals: map<string, real>, days: seq<string>, s: seq<Fill>, f: Fill, dayOf: int -> string,
                           totals': map<string, real>)
    requires TotalledInto(totals, days, s, dayOf)
    requires var date := dayOf(f.time);
             totals' == totals[date := (if date in totals then totals[date] else 0.0) + ClosedPnl(f)]
    ensures forall d :: d in totals' ==> totals'[d] == PnL(Group(s + [f], DayKey(dayOf), d))
  {
    var key := DayKey(dayOf);
    var date := dayOf(f.time);
    assert key(f) == date;
    forall d | d in totals' ensures totals'[d] == PnL(Group(s + [f], key, d)) {
      GroupSnoc(s, f, key, d);
      if d == date {
        PnLSnoc(Group(s, key, d), f);
        if date !in totals {
          GroupOfAbsentKey(s, key, date);
        }
      }
    }
  }

  /** The totals listed in key order are the daily returns. */
  lemma TotalsInKeyOrder(totals: map<string, real>, days: seq<string>, fills: seq<Fill>, dayOf: int -> string)
    requires TotalledInto(totals, days, fills, dayOf)
    ensures seq(|days|, i requires 0 <= i < |days| => totals[days[i]]) == DailyReturns(fills, dayOf)
  {
  }

  /** The daily-totals map, filled in one pass, then its values in key order. */
  method DailyPnL(fills: seq<Fill>, dayOf: int -> string) returns (dailyReturns: seq<real>)
    ensures dailyReturns == DailyReturns(fills, dayOf)
  {
    var totals: map<string, real> := map[];
    var days: seq<string> := [];
    for i := 0 to |fills|
      invariant TotalledInto(totals, days, fills[..i], dayOf)
    {
      TotalledIntoNext(totals, days, fills, i, dayOf);
      var date := dayOf(fills[i].time);
      var pnl := ClosedPnl(fills[i]);
      var sofar := if date in totals then totals[date] else 0.0;
      if date !in totals {
        days := days + [date];
      }
      totals := totals[date := sofar + pnl];
    }
    assert fills[..|fills|] == fills;
    TotalsInKeyOrder(totals, days, fills, dayOf);
    dailyReturns := seq(|days|, i requires 0 <= i < |days| => totals[days[i]]);
  }

  function Sum(rs: seq<real>): real {
    if rs == [] then 0.0 else Sum(rs[..|rs| - 1]) + rs[|rs| - 1]
  }

  /** The sum of `Math.pow(r - mean, 2)` over the daily returns. */
  function SumSquaredDeviations(rs: seq<real>, mean: real): real {
    if rs == [] then 0.0
    else SumSquaredDeviations(rs[..|rs| - 1], mean) + (rs[|rs| - 1] - mean) * (rs[|rs| - 1] - mean)
  }

  /** `calculateSharpe`: 0 for fewer than two fills, a period under one day, fewer
      than two distinct days, or no spread; otherwise the annualised mean over the
      annualised standard deviation of the daily PnL. */
  function SharpeRatio(fills: seq<Fill>, periodDays: real, dayOf: int -> string, sqrt: SquareRoot): real {
    if |fills| < 2 || periodDays < 1.0 then 0.0
    else
      var dailyReturns := DailyReturns(fills, dayOf);
      if |dailyReturns| < 2 then 0.0
      else
        var n := |dailyReturns| as real;
        var mean := Sum(dailyReturns) / n;
        var variance := SumSquaredDeviations(dailyReturns, mean) / (n - 1.0);
        var stdDev := sqrt(variance);
        if stdDev == 0.0 then 0.0
        else (mean * 365.0) / (stdDev * sqrt(365.0))
  }

  method CalculateSharpe(fills: seq<Fill>, periodDays: real, dayOf: int -> string, sqrt: SquareRoot) returns (sharpe: real)
    ensures sharpe == SharpeRatio(fills, periodDays, dayOf, sqrt)
  {
    if |fills| < 2 || periodDays < 1.0 {
      return 0.0;
    }
    var dailyReturns := DailyPnL(fills, dayOf);
    if |dailyReturns| < 2 {
      return 0.0;
    }
    var n := |dailyReturns| as real;
    var mean := Sum(dailyReturns) / n;
    var variance := SumSquaredDeviations(dailyReturns, mean) / (n - 1.0);
    var stdDev := sqrt(variance);
    if stdDev == 0.0 {
      return 0.0;
    }
    sharpe := (mean * 365.0) / (stdDev * sqrt(365.0));
  }

  /** The guards: too few fills, too short a period, or no spread give 0, and a
      nonzero ratio needs fills on at least two different days. */
  lemma SharpeGuards(fills: seq<Fill>, periodDays: real, dayOf: int -> string, sqrt: SquareRoot)
    ensures |fills| < 2 || periodDays < 1.0 ==> SharpeRatio(fills, periodDays, dayOf, sqrt) == 0.0
    ensures SharpeRatio(fills, periodDays, dayOf, sqrt) != 0.0 ==>
              exists i, j :: 0 <= i < |fills| && 0 <= j < |fills| && dayOf(fills[i].time) != dayOf(fills[j].time)
  {
    if SharpeRatio(fills, periodDays, dayOf, sqrt) != 0.0 {
      var days := KeysInOrder(fills, DayKey(dayOf));
      KeysInOrderSpec(fills, DayKey(dayOf));
      assert |days| >= 2;
      assert days[0] != days[1];
      assert days[0] in days && days[1] in days;
      var i :| 0 <= i < |fills| && DayKey(dayOf)(fills[i]) == days[0];
      var j :| 0 <= j < |fills| && DayKey(dayOf)(fills[j]) == days[1];
      assert dayOf(fills[i].time) != dayOf(fills[j].time);
    }
  }

  /** The third guard: when every day has the same PnL the standard deviation is
      √0 = 0, and the ratio is 0. */
  lemma SharpeFlatDays(fills: seq<Fill>, periodDays: real, dayOf: int -> string, sqrt: SquareRoot)
    requires var rs := DailyReturns(fills, dayOf);
             forall i, j :: 0 <= i < |rs| && 0 <= j < |rs| ==> rs[i] == rs[j]
    ensures SharpeRatio(fills, periodDays, dayOf, sqrt) == 0.0
  {
    var rs := DailyReturns(fills, dayOf);
    if |fills| >= 2 && periodDays >= 1.0 && |rs| >= 2 {
      FlatVarianceZero(rs);
    }
  }

  /** Equal values have no spread: their variance about their mean is 0. */
  lemma FlatVarianceZero(rs: seq<real>)
    requires |rs| >= 2
    requires forall i, j :: 0 <= i < |rs| && 0 <= j < |rs| ==> rs[i] == rs[j]
    ensures SumSquaredDeviations(rs, Sum(rs) / (|rs| as real)) / (|rs| as real - 1.0) == 0.0
  {
    var r := rs[0];
    SumOfConstant(rs, r);
    assert Sum(rs) / (|rs| as real) == r;
    DeviationsFromConstant(rs, r);
  }

  lemma {:induction false} SumOfConstant(rs: seq<real>, r: real)
    requires forall i :: 0 <= i < |rs| ==> rs[i] == r
    ensures Sum(rs) == |rs| as real * r
  {
    if rs != [] {
      SumOfConstant(rs[..|rs| - 1], r);
    }
  }

  lemma {:induction false} DeviationsFromConstant(rs: seq<real>, r: real)
    requires forall i :: 0 <= i < |rs| ==> rs[i] == r
    ensures SumSquaredDeviations(rs, r) == 0.0
  {
    if rs != [] {
      DeviationsFromConstant(rs[..|rs| - 1], r);
    }
  }

  // ---------------------------------------------------------------------------
  // Metrics record

  /** `calculateTraderMetrics`: the account value is the parsed margin-summary
      value, or 0 without a clearinghouse state; `now` is the `Date.now()` of the
      call. */
  function TraderMetricsOf(address: string, state: Option<real>, fills: seq<Fill>, periodDays: real,
                           whaleLabel: Option<string>, now: int, dayOf: int -> string, sqrt: SquareRoot): (m: TraderMetrics)
    ensures m.address == address && m.whaleLabel == whaleLabel && m.lastUpdated == now
    ensures m.trades == Some(|fills|)
    ensures state == None ==> m.accountValue == 0.0
    ensures state.Some? ==> m.accountValue == state.value
    ensures m.pnl == PnL(fills) && m.volume == Volume(fills)
    ensures m.winRate == WinRate(fills) && 0.0 <= m.winRate <= 100.0
    ensures m.sharpe == Some(SharpeRatio(fills, periodDays, dayOf, sqrt))
    ensures |fills| < 2 || periodDays < 1.0 ==> m.sharpe == Some(0.0)
  {
    TraderMetrics(address, whaleLabel, PnL(fills), WinRate(fills), Some(SharpeRatio(fills, periodDays, dayOf, sqrt)),
                  Some(|fills|), Volume(fills), state.GetOr(0.0), now)
  }
}
