# wentao.gg core logic in Dafny

This project models the computational core of the wentao.gg personal site and proves properties about it. The core has four parts.

- **PowerOPPS calculator** (`Scoring`, `PowerOppsForm`). It covers:
  - the five powerlifting scores: old Wilks, Wilks 2.0, DOTS, IPF points and IPF GL points;
  - the inverse that turns a target score into a required lift;
  - the pound/kilogram conversion;
  - the coefficient tables keyed by equipment and competition;
  - the two forms' validation and reset handlers, as a `Calculator` class whose methods update its fields.
- **Hyperliquid whale tracker** (`WhaleTypes`, `Calculations`, `Formatters`, `SortAndFilter`, `WhalePage`, `Hyperliquid`, `Whales`, `Leaderboard`). It covers:
  - PnL, volume and Sharpe-ratio guards over a trader's fills;
  - grouping fills per coin into round-trip trades, which is a state machine over the running signed position;
  - the win rate;
  - the display formatters;
  - the sort-field/direction toggle and the comparator sorts of the hook and of the page;
  - leaderboard rows to metrics, and the top traders by PnL;
  - the case-insensitive whale label lookup;
  - the leaderboard hook's fetch state transitions, as a `LeaderboardState` class.
- **Visitor location and greeting** (`Proxy`, `Middleware`). It covers:
  - the period of the day of an hour;
  - midnight written as 24;
  - country, region and flag resolution;
  - the location text;
  - the older middleware's greeting.

  The middleware's flag table is identical to the proxy's, so the model uses one table for both.
- **Commit heatmap** (`CommitHeatmap`). It covers:
  - intensity buckets;
  - the "k" number format;
  - the per-day commit counts;
  - the grid of days;
  - its chunking into weeks;
  - the top three languages.

Shared pieces:
- `Wrappers` holds `Option`.
- `Js` covers the JavaScript runtime behaviour the code relies on. That is `slice` with negative indices, `replace` with a string pattern, `Math.round`, integer-to-text, and the host's number formatting, which is taken as opaque functions.
- `StableSort` models `Array.prototype.sort` as a stable insertion sort under a comparator, with lemmas about order and permutation.
- `Grouping` models the insertion-ordered `Map` that the code fills in loops: its keys in order of first appearance, and each key's group.

Code that changes state step by step is modelled imperatively, and each method is proved against a pure specification function. This covers:
- the denominator loops;
- the per-coin `Map` build;
- the position scan;
- the daily PnL map;
- the leaderboard's filter loop;
- the commit count map;
- the days and weeks loops;
- the location builder;
- the greeting builder.

Numbers are Dafny reals. Division by zero in the scoring formulas yields a non-finite `Num` (`PosInfinity`, `NegInfinity`, `NaN`), as JavaScript does, instead of being ruled out by a precondition.

Where the specification and the code differ, the model follows the code:
- Only IPF points and IPF GL clamp a negative score to 0 (`app/projects/poweropps/page.tsx:104,132`). The three polynomial systems do not clamp.
- The pound conversion constant is `1 / 2.204623` (`app/projects/poweropps/page.tsx:24`), not 0.45359237.
- `TimePeriod` in `app/projects/hl-whale-tracker/lib/types.ts:27` lists "1d" and "allTime". The hooks and the period tables use "24h", "7d", "30d" and "all" (`app/projects/hl-whale-tracker/hooks/useLeaderboard.ts:9-21`). The model's `TimePeriod` follows the hooks.
- `TraderMetrics` in `types.ts:33-41` lacks the `sharpe` and `trades` fields that `calculations.ts:140-141` sets. The model's record carries every field the code reads. `sharpe` and `trades` are optional because the leaderboard conversion leaves them undefined.

## Model

| member | source | states |
|---|---|---|
| Scoring.Quotient | app/projects/poweropps/page.tsx:43 | JavaScript division: the quotient is finite exactly when the divisor is nonzero, and then it times the divisor gives the dividend |
| Scoring.Clamp | app/projects/poweropps/page.tsx:36 | `min(max(x, lo), hi)` lies in [lo, hi]. It is x inside the bounds, hi at or above hi, and lo at or below lo |
| Scoring.Denominator | app/projects/poweropps/page.tsx:38-41 | the denominator loop computes the polynomial with the given coefficients at x |
| Scoring.SystemsWellFormed | app/projects/poweropps/page.tsx:29-77 | the constant systems `OldWilksSystem`, `NewWilksSystem` and `DotsSystem` have numerators 500, 600 and 500; body-weight bounds 40-201.9 / 26.51-154.53 kg, 40-200.95 / 40-150.95 kg and 40-210 / 40-150 kg (men / women); six, six and five coefficients |
| Scoring.CalculatePolyScore | app/projects/poweropps/page.tsx:33-43 | clamping, the denominator loop, the division and the multiplication give the polynomial score of the clamped body weight |
| Scoring.ScoreFlatOutsideBounds | app/projects/poweropps/page.tsx:34-36 | any two body weights at or above the upper bound, or at or below the lower bound, give the same score |
| Scoring.PolyScoreLinear | app/projects/poweropps/page.tsx:29-77 | `PolyScore`: with a nonzero denominator at the clamped body weight the score is finite and equals numerator / denominator × lift |
| Scoring.PolyScoreHomogeneous | app/projects/poweropps/page.tsx:29-77 | scaling the lift by k scales the score by k |
| Scoring.PolyScoreMonotone | app/projects/poweropps/page.tsx:29-77 | with a positive denominator a heavier lift never scores less |
| Scoring.PolyRoundTrip | app/projects/poweropps/page.tsx:148-175 | the DOTS/Wilks 2.0 inverse and the forward score undo each other, in both directions, whenever the denominator is nonzero |
| Scoring.CompetitionAlwaysListed | app/projects/poweropps/page.tsx:79-126 | every equipment × competition pair has its own row in both IPF tables for both sexes, so the "CLPL" fallback is never taken, and different pairs read different rows |
| Scoring.Ipf | app/projects/poweropps/page.tsx:79-105 | IPF points are never negative and are 0 below 40 kg body weight |
| Scoring.IpfGl | app/projects/poweropps/page.tsx:107-133 | IPF GL points are never negative and are 0 below 35 kg body weight |
| Scoring.GlInverse | app/projects/poweropps/page.tsx:195-197 | `ts / (100 / g)` equals ts · g / 100 in every case, including g = 0, where the divisor is Infinity and the result 0 |
| Scoring.IpfGlRoundTrip | app/projects/poweropps/page.tsx:128-197 | at 35 kg or more with a nonzero denominator, scoring the inverse's lift gives back any non-negative target, and the inverse of an unclamped score is the lift |
| Scoring.IpfGlInverseHasNoFloor | app/projects/poweropps/page.tsx:195-197 | below 35 kg the forward score is 0, while the inverse applies no floor and still returns ts · g / 100 |
| Scoring.UnitRoundTrip | app/projects/poweropps/page.tsx:24 | converting to kilograms and back, or back and then to kilograms, is the identity; kg mode passes values through unchanged |
| Scoring.PoundsScoreAsKilograms | app/projects/poweropps/page.tsx:135-137 | weights entered in pounds score exactly as the same weights entered in kilograms |
| Scoring.CalculateAllScores | app/projects/poweropps/page.tsx:135-146 | converts both weights once, then gives the five scores of the converted weights under their labels (`AllScores`) |
| Scoring.CalculatePolyTarget | app/projects/poweropps/page.tsx:152-175 | the DOTS/Wilks 2.0 inverse branch computes target × denominator / numerator at the clamped body weight |
| Scoring.CalculateTargetWeight | app/projects/poweropps/page.tsx:148-200 | converts the body weight, picks the system's inverse, and converts the lift back to the entered unit (`TargetWeight`, whose round trips are the two `TargetWeightReaches` lemmas) |
| Scoring.TargetWeightReachesPolyTarget | app/projects/poweropps/page.tsx:148-175 | end to end in either unit, the proposed DOTS or Wilks 2.0 lift scores exactly the target wherever the denominator is nonzero |
| Scoring.TargetWeightReachesGlTarget | app/projects/poweropps/page.tsx:176-200 | end to end in either unit, the proposed IPF GL lift scores exactly a non-negative target at 35 kg or more |
| PowerOppsForm.InputError | app/projects/poweropps/page.tsx:283-290 | no error exactly when both entries are numbers above 0. Otherwise the body-weight message comes first, then the second entry's message |
| PowerOppsForm.Calculator.constructor | app/projects/poweropps/page.tsx:258-276 | the initial state: male, kg, classic full power, empty entries, no results, no errors, DOTS |
| PowerOppsForm.Calculator.HandleCalculateScores | app/projects/poweropps/page.tsx:278-293 | a rejected entry sets its message and keeps the old results. Accepted entries clear the error and show all five scores. Nothing else changes |
| PowerOppsForm.Calculator.HandleCalculateTarget | app/projects/poweropps/page.tsx:295-310 | the same guards with the target's message. Accepted entries show the target weight. Nothing else changes |
| PowerOppsForm.Calculator.ResetScores | app/projects/poweropps/page.tsx:312-317 | clears both score entries, the results and the error, and nothing else |
| PowerOppsForm.Calculator.ResetTarget | app/projects/poweropps/page.tsx:319-324 | clears both target entries, the target result and its error, and nothing else |
| PowerOppsForm.ResetThenCalculate | app/projects/poweropps/page.tsx:278-317 | calculating right after a reset shows no results and only the body-weight message |
| Calculations.SumsAppend | app/projects/hl-whale-tracker/lib/calculations.ts:10-14 | `PnL` (`calculatePnL`), `Volume` (`calculateVolume`, lines 115-121) and the net position of a concatenation are the sums over its parts |
| Calculations.PnLIgnoresMissing | app/projects/hl-whale-tracker/lib/calculations.ts:12 | a fill without closed PnL adds nothing to the PnL, wherever it stands |
| Calculations.GroupByCoin | app/projects/hl-whale-tracker/lib/calculations.ts:33-38 | the per-coin map has exactly the coins of the fills as keys, in order of first appearance, and each holds that coin's fills in order |
| Calculations.ScanCoin | app/projects/hl-whale-tracker/lib/calculations.ts:44-75 | the position loop over one coin's sorted fills appends the trades of the position state machine started flat |
| Calculations.GroupFillsIntoTrades | app/projects/hl-whale-tracker/lib/calculations.ts:29-79 | the trades are those of each coin in order of first appearance, each coin's fills scanned in time order from a flat position |
| Calculations.QuietRun | app/projects/hl-whale-tracker/lib/calculations.ts:56-74 | `RunOver`, the loop as a fold of `Step`: a stretch of fills that never crosses zero records nothing and only accumulates position, PnL and volume, so a trailing open segment is never recorded |
| Calculations.SegmentRecorded | app/projects/hl-whale-tracker/lib/calculations.ts:62-74 | `Step` and `RunOver`: a stretch that crosses only at its last fill records one trade with the pending plus the stretch's PnL and volume, won exactly when that PnL is positive, and resets both to 0 |
| Calculations.RunConserves | app/projects/hl-whale-tracker/lib/calculations.ts:48-75 | recorded plus pending PnL and volume grow by exactly the fills' PnL and volume; earlier trades are kept; at most one trade per fill; isWin iff pnl > 0 |
| Calculations.RunTradeCount | app/projects/hl-whale-tracker/lib/calculations.ts:48-75 | one scan records at most one trade per fill |
| Calculations.TradesOfBound | app/projects/hl-whale-tracker/lib/calculations.ts:40-76 | the trades of a list of coins never outnumber those coins' fills |
| Calculations.TradeCountAtMostFills | app/projects/hl-whale-tracker/lib/calculations.ts:29-79 | there are at most as many trades as fills |
| Calculations.TradesWinIffPositive | app/projects/hl-whale-tracker/lib/calculations.ts:67-71 | every recorded trade is a win exactly when its PnL is positive |
| Calculations.CoinFillsInTimeOrder | app/projects/hl-whale-tracker/lib/calculations.ts:40-42 | each coin's fills are scanned in non-decreasing time order, and they are exactly that coin's fills |
| Calculations.Wins | app/projects/hl-whale-tracker/lib/calculations.ts:24 | the number of winning trades is at most the number of trades |
| Calculations.WinPercentage | app/projects/hl-whale-tracker/lib/calculations.ts:22-25 | 0 for no trades; otherwise a value in [0, 100] with value × trades = 100 × wins |
| Calculations.WinRate | app/projects/hl-whale-tracker/lib/calculations.ts:18-26 | the win rate lies in [0, 100] |
| Calculations.NoFillsNoTrades | app/projects/hl-whale-tracker/lib/calculations.ts:19-22 | without fills there are no trades and the win rate is 0 |
| Calculations.DailyReturns | app/projects/hl-whale-tracker/lib/calculations.ts:87-95 | one daily total per distinct day |
| Calculations.DailyPnL | app/projects/hl-whale-tracker/lib/calculations.ts:86-95 | the daily map loop yields, for each day in order of first appearance, the closed PnL of that day's fills |
| Calculations.CalculateSharpe | app/projects/hl-whale-tracker/lib/calculations.ts:83-112 | the imperative Sharpe computation equals its specification `SharpeRatio`, with the same three zero guards |
| Calculations.SharpeGuards | app/projects/hl-whale-tracker/lib/calculations.ts:84-96 | `SharpeRatio`: fewer than two fills or a period under one day gives 0, and a nonzero ratio needs fills on two different days |
| Calculations.SharpeFlatDays | app/projects/hl-whale-tracker/lib/calculations.ts:98-105 | `SharpeRatio`: when every day has the same PnL the standard deviation is √0 = 0 and the ratio is 0 |
| Calculations.FlatVarianceZero | app/projects/hl-whale-tracker/lib/calculations.ts:99-102 | two or more equal daily returns have sample variance 0 about their mean |
| Calculations.TraderMetricsOf | app/projects/hl-whale-tracker/lib/calculations.ts:124-146 | address and label copied; trades = number of fills; account value is the state's value, or 0 without a state; pnl and volume are the sums; win rate is `WinRate` of the fills, in [0, 100]; sharpe is `SharpeRatio` of the fills and period, 0 under the first guard |
| CommitHeatmap.Level | app/components/CommitHeatmap.tsx:18-24 | the bucket is 0 for 0, 1 for 1-2, 2 for 3-5, 3 for 6-10, 4 above 10, each if and only if |
| CommitHeatmap.GetIntensity | app/components/CommitHeatmap.tsx:18-24 | the class of a count is the class of its bucket |
| CommitHeatmap.LevelMonotone | app/components/CommitHeatmap.tsx:18-24 | more commits never give a lower bucket |
| CommitHeatmap.LegendShowsEveryClass | app/components/CommitHeatmap.tsx:226 | the legend samples 0, 1, 3, 6, 11 show the five classes in order, one each |
| CommitHeatmap.FormatNumber | app/components/CommitHeatmap.tsx:26-29 | the "k" form is used exactly from 1000 up; smaller numbers are written as integers |
| CommitHeatmap.DatePrefix | app/components/CommitHeatmap.tsx:50 | `split("T")[0]` is the longest prefix without a "T" |
| CommitHeatmap.DatePrefixOfTimestamp | app/components/CommitHeatmap.tsx:50 | the day of an ISO timestamp is its ten-character date |
| CommitHeatmap.CountByDate | app/components/CommitHeatmap.tsx:48-52 | the map's keys are exactly the days that have a commit, and each holds the number of commits on that day |
| CommitHeatmap.CountsAddUp | app/components/CommitHeatmap.tsx:48-52 | the days with commits are distinct and their counts add up to the number of commits |
| CommitHeatmap.WeeksToShow | app/components/CommitHeatmap.tsx:37 | 8 weeks exactly on a window narrower than 640 px, 12 otherwise |
| CommitHeatmap.BuildDays | app/components/CommitHeatmap.tsx:89-101 | weeksToShow × 7 days from oldest to today, each with its count or 0 |
| CommitHeatmap.ChunkWeeks | app/components/CommitHeatmap.tsx:104-107 | the weeks concatenate back to the days; all but the last have seven days, and all do when the days fill whole weeks |
| CommitHeatmap.Percentage | app/components/CommitHeatmap.tsx:68 | the share is NaN exactly when there are no bytes, and otherwise lies in [0, 100] |
| CommitHeatmap.LanguagesOf | app/components/CommitHeatmap.tsx:65-69 | one entry per language, in order, with its rounded share |
| CommitHeatmap.TopLanguages | app/components/CommitHeatmap.tsx:65-71 | at most three languages |
| CommitHeatmap.StatsOf | app/components/CommitHeatmap.tsx:61-77 | the commit count, the rounded bytes/40 line estimate, and at most three languages |
| CommitHeatmap.SharesInRange | app/components/CommitHeatmap.tsx:65-69 | with bytes present, every share is a number in [0, 100] |
| CommitHeatmap.AllLanguagesSorted | app/components/CommitHeatmap.tsx:65-70 | sorting by share puts the shares in non-increasing order |
| CommitHeatmap.TopLanguagesOrdered | app/components/CommitHeatmap.tsx:65-71 | the top languages are the first min(3, n) of the sorted list, in non-increasing share, and none left out has a larger share |
| Formatters.FormatAddress | app/projects/hl-whale-tracker/lib/formatters.ts:2-5 | the result is empty exactly for an empty address |
| Formatters.FormatAddressShape | app/projects/hl-whale-tracker/lib/formatters.ts:2-5 | for a long enough address: the first chars + 2 characters, "...", the last chars characters, 2·chars + 5 in all |
| Formatters.DefaultAddressShape | app/projects/hl-whale-tracker/lib/formatters.ts:2-4 | with the default `chars = 4`, an address of six characters or more shows as its first six, "...", and its last four: 13 characters |
| Formatters.FormatAddressZeroChars | app/projects/hl-whale-tracker/lib/formatters.ts:4 | with chars = 0 the tail `slice(-0)` is the whole address |
| Formatters.CurrencySignRules | app/projects/hl-whale-tracker/lib/formatters.ts:38-43 | `FormatCurrency`, the corrected function: "+" exactly for a positive value with showSign; "-" before the formatted magnitude exactly for a negative value; zero never signed |
| Formatters.CompactSuffix | app/projects/hl-whale-tracker/lib/formatters.ts:21-28 | in compact mode the text ends in "M" iff abs value is at least 1,000,000 and in "K" iff it is at least 1,000 and below 1,000,000 |
| Formatters.FormatCurrencyAsWrittenAgrees | app/projects/hl-whale-tracker/lib/formatters.ts:38-43 | `FormatCurrencyAsWritten` gives the corrected text except for a negative value with showSign: "+" for a positive value with showSign, "-" and the magnitude for a negative value without, zero unsigned |
| Formatters.CompactSuffixAsWritten | app/projects/hl-whale-tracker/lib/formatters.ts:21-40 | as written too, the compact text ends in "M" iff abs value is at least 1,000,000 and in "K" iff it is at least 1,000 and below 1,000,000 |
| Formatters.AsWrittenDropsDollar | app/projects/hl-whale-tracker/lib/formatters.ts:40 | as written, showSign on a negative compact value yields "-" and the magnitude without its "$" |
| Formatters.DroppedDollarExample | app/projects/hl-whale-tracker/lib/formatters.ts:38-43 | −1500 with showSign in compact mode is "-1.50K" as written and "-$1.50K" corrected, while +1500 is "+$1.50K" |
| Formatters.FormatPercent | app/projects/hl-whale-tracker/lib/formatters.ts:47-57 | the text ends in "%" |
| Formatters.PercentPlusSign | app/projects/hl-whale-tracker/lib/formatters.ts:55-56 | the percentage starts with "+" exactly when showSign holds and the value is positive |
| Formatters.SharpeText | app/projects/hl-whale-tracker/lib/formatters.ts:68-72 | `FormatSharpe`: the placeholder appears exactly for 0, and "+" leads exactly for positive values |
| Formatters.RelativeTimeBuckets | app/projects/hl-whale-tracker/lib/formatters.ts:75-88 | `FormatRelativeTime`: "just now" under 60 s (and for future times), whole minutes under an hour, whole hours under a day, the locale date otherwise |
| Formatters.PnLColorBySign | app/projects/hl-whale-tracker/lib/formatters.ts:91-95 | `PnLColorClass`: green iff positive, red iff negative, muted iff zero |
| Formatters.SharpeColorMonotone | app/projects/hl-whale-tracker/lib/formatters.ts:98-103 | `SharpeColorClass`: green iff at least 2, yellow iff in [1, 2), muted iff in (0, 1), red iff at most 0; a larger ratio never gets a lower tier |
| SortAndFilter.Compare | app/projects/hl-whale-tracker/hooks/useSortAndFilter.ts:23-54 | 0 for a field outside the switch; otherwise the difference of the ranks, the values negated for descending |
| SortAndFilter.SortTraders | app/projects/hl-whale-tracker/hooks/useSortAndFilter.ts:22-57 | the sorted copy is a permutation of the traders |
| SortAndFilter.SortTradersByRank | app/projects/hl-whale-tracker/hooks/useSortAndFilter.ts:22-57 | when every trader defines the field: same length, same traders, ranks non-decreasing |
| SortAndFilter.SortTradersOrdered | app/projects/hl-whale-tracker/hooks/useSortAndFilter.ts:52-53 | when every trader defines the field: the field is non-increasing for descending and non-decreasing for ascending, over the same traders |
| SortAndFilter.OtherFieldKeepsOrder | app/projects/hl-whale-tracker/hooks/useSortAndFilter.ts:48-49 | a field outside the switch leaves the traders in their order |
| SortAndFilter.AfterSort | app/projects/hl-whale-tracker/hooks/useSortAndFilter.ts:11-20 | the current field keeps the field and flips the direction; another field is selected descending |
| SortAndFilter.ToggleTwiceRestores | app/projects/hl-whale-tracker/hooks/useSortAndFilter.ts:12-14 | two sorts on the current field restore field and direction |
| SortAndFilter.SortState.constructor | app/projects/hl-whale-tracker/hooks/useSortAndFilter.ts:7-9 | PnL, descending, seven days |
| SortAndFilter.SortState.HandleSort | app/projects/hl-whale-tracker/hooks/useSortAndFilter.ts:11-20 | the new field and direction follow the toggle rule, and the time period does not change |
| SortAndFilter.SortState.SetTimePeriod | app/projects/hl-whale-tracker/hooks/useSortAndFilter.ts:9 | only the time period changes |
| SortAndFilter.SortState.SortedTraders | app/projects/hl-whale-tracker/hooks/useSortAndFilter.ts:22-57 | the memoised list is a permutation of the traders |
| SortAndFilter.SortTwice | app/projects/hl-whale-tracker/hooks/useSortAndFilter.ts:12-14 | clicking the current column twice leaves the whole sort state as it was |
| WhalePage.DisplayCompare | app/projects/hl-whale-tracker/page.tsx:28-59 | 0 for a field outside the switch |
| WhalePage.DisplayTraders | app/projects/hl-whale-tracker/page.tsx:28 | the page's list is a permutation of the fetched traders |
| WhalePage.DisplayMatchesHook | app/projects/hl-whale-tracker/page.tsx:28-59 | the page orders every list exactly as the hook's sort does |
| WhalePage.DisplayOrdered | app/projects/hl-whale-tracker/page.tsx:57-58 | when every trader defines the field: non-increasing for descending, non-decreasing for ascending, same traders |
| WhalePage.DisplayOtherFieldKeepsOrder | app/projects/hl-whale-tracker/page.tsx:53-54 | a field outside the switch keeps the traders' order |
| Hyperliquid.OrZero | app/projects/hl-whale-tracker/lib/hyperliquid.ts:45-48 | `parseFloat(x) \|\| 0`: the parsed number, or 0 when it is NaN |
| Hyperliquid.MetricsOf | app/projects/hl-whale-tracker/lib/hyperliquid.ts:45-58 | address copied; pnl, volume, account value parsed with 0 for NaN; win rate is roi × 100; no Sharpe, trades or label |
| Hyperliquid.RowToMetricsAsWritten | app/projects/hl-whale-tracker/lib/hyperliquid.ts:36-43 | as written: metrics exist exactly when the period's key is in the window index table and the row has that window |
| Hyperliquid.DayAndAllTimeAlwaysSkipped | app/projects/hl-whale-tracker/lib/hyperliquid.ts:37 | as written, every row gives null for the "24h" and "all" periods |
| Hyperliquid.WindowIndex | app/projects/hl-whale-tracker/lib/types.ts:20-25 | each period maps to the index the table gives its API window |
| Hyperliquid.RowToMetrics | app/projects/hl-whale-tracker/lib/hyperliquid.ts:36-59 | null exactly when the period's `Window` is missing (the index past the array, or null there); otherwise that window's metrics |
| Hyperliquid.RowToMetricsAgrees | app/projects/hl-whale-tracker/lib/hyperliquid.ts:36-43 | the written and corrected conversions agree on "7d" and "30d" |
| Hyperliquid.Converted | app/projects/hl-whale-tracker/lib/hyperliquid.ts:72-79 | at most one trader per row |
| Hyperliquid.ConvertedMembers | app/projects/hl-whale-tracker/lib/hyperliquid.ts:72-79 | the kept traders are exactly the metrics of the rows that have them |
| Hyperliquid.GetTopTraders | app/projects/hl-whale-tracker/lib/hyperliquid.ts:62-88 | an error or missing data is passed on with null data; otherwise the filter loop, the PnL sort and the slice give the top traders (`TopTraders`). It is built on the corrected `RowToMetrics`, so "24h" and "all" read their windows |
| Hyperliquid.TopTradersProperties | app/projects/hl-whale-tracker/lib/hyperliquid.ts:81-87 | `TopTraders`: PnL non-increasing, min(limit, rows with metrics) entries, a prefix of the sorted list, and no trader left out has a larger PnL |
| Hyperliquid.TopTradersFromRows | app/projects/hl-whale-tracker/lib/hyperliquid.ts:72-87 | every top trader is the metrics of some row |
| Whales.ToLower | app/projects/hl-whale-tracker/lib/whales.ts:30 | lower-casing keeps the length and lower-cases each ASCII letter |
| Whales.FindWhale | app/projects/hl-whale-tracker/lib/whales.ts:29-31 | `find`: no index iff no address matches; otherwise the first matching index |
| Whales.LabelIn | app/projects/hl-whale-tracker/lib/whales.ts:28-33 | the label of the first entry matching ignoring case, and none iff no entry matches |
| Whales.GetWhaleLabel | app/projects/hl-whale-tracker/lib/whales.ts:28-33 | the same over the whale list: the first case-insensitive match's label, undefined iff none |
| Whales.LabelIgnoresCase | app/projects/hl-whale-tracker/lib/whales.ts:30 | the upper-cased and lower-cased query find the same label as the query |
| Whales.ListedAddressesLabelled | app/projects/hl-whale-tracker/lib/whales.ts:5-26 | every listed address finds its own label, "Whale N" for its position N |
| Whales.LabelsNumbered | app/projects/hl-whale-tracker/lib/whales.ts:5-26 | the labels are "Whale 1" to "Whale 20" in list order |
| Leaderboard.PeriodDays | app/projects/hl-whale-tracker/hooks/useLeaderboard.ts:16-21 | 24h→1, 7d→7, 30d→30, all→365 |
| Leaderboard.PeriodTablesAgree | app/projects/hl-whale-tracker/hooks/useLeaderboard.ts:9-21 | the bounded periods last as many days in ms as the day table says; only "all" is unbounded |
| Leaderboard.Collected | app/projects/hl-whale-tracker/hooks/useLeaderboard.ts:50-67 | at most one trader per result |
| Leaderboard.CollectedAppend | app/projects/hl-whale-tracker/hooks/useLeaderboard.ts:52-67 | kept traders stay in result order across concatenation |
| Leaderboard.CollectedMembers | app/projects/hl-whale-tracker/hooks/useLeaderboard.ts:52-67 | a kept trader is active and from a result without error, and every such active trader is kept |
| Leaderboard.LeaderboardState.constructor | app/projects/hl-whale-tracker/hooks/useLeaderboard.ts:24-31 | no traders, not loading, no error, never updated, no progress |
| Leaderboard.LeaderboardState.BeginFetch | app/projects/hl-whale-tracker/hooks/useLeaderboard.ts:34-35 | loading, error cleared, progress 0 of the number of whales; traders and update time kept |
| Leaderboard.LeaderboardState.SetProgress | app/projects/hl-whale-tracker/hooks/useLeaderboard.ts:45-47 | only the progress changes |
| Leaderboard.LeaderboardState.CompleteFetch | app/projects/hl-whale-tracker/hooks/useLeaderboard.ts:50-74 | the filter loop keeps the active traders of results without error, in order; loading ends, no error, update time set |
| Leaderboard.LeaderboardState.FailFetch | app/projects/hl-whale-tracker/hooks/useLeaderboard.ts:75-81 | previous traders and update time kept, loading ends, error is the message or "Failed to fetch data" |
| Leaderboard.FetchData | app/projects/hl-whale-tracker/hooks/useLeaderboard.ts:33-82 | a whole fetch: success and exception outcomes as above, loading ended, progress at 0 of the whales |
| Proxy.FlagsMatchCodes | proxy.ts:5-12 | every flag in the table is the pair of regional indicator symbols of its own two-letter code |
| Proxy.LookupOr | proxy.ts:84 | `record[key] \|\| fallback` is the entry when present and non-empty |
| Proxy.GetTimePeriod | proxy.ts:41-49 | each period name exactly on its hours: 5-8, 9-11, 12-13, 14-16, 17-20, 21-23, and late_night otherwise |
| Proxy.LocalHour | proxy.ts:64-80 | the formatter's hour, 24 read as 0, or the UTC hour without an hour part |
| Proxy.MidnightIsLateNight | proxy.ts:76 | an hour of 24 falls in the same period as 0 |
| Proxy.Flag | proxy.ts:84 | a non-empty flag is the table's flag of the country; an unknown country has none |
| Proxy.FlagOfKnownCountry | proxy.ts:5-12 | a known country's flag is the regional indicators of its code, and a flagged country has a two-letter code |
| Proxy.FlagNeedsCountry | proxy.ts:84 | no country, no flag |
| Proxy.CountryName | proxy.ts:85 | "USA" for US, the table's name for a known code, the code itself otherwise, "" exactly for no country |
| Proxy.RegionName | proxy.ts:96 | a known US state code is spelled out; any other region is kept; never empty |
| Proxy.Join | proxy.ts:105 | joining no parts gives "", one part gives that part |
| Proxy.AssembleFull | proxy.ts:88-108 | three present parts are joined with ", " in order and the flag follows after a space |
| Proxy.AssembleCountryOnly | proxy.ts:100-108 | the country name alone is the joined text; the flag stands alone only when the name is empty |
| Proxy.LocationOfFullHeaders | proxy.ts:88-108 | `LocationText`: with all headers: city, region name, country name, then the flag when the country has one |
| Proxy.LocationOfCountryOnly | proxy.ts:85-108 | with only a country: its name and then its flag |
| Proxy.NoHeadersNoLocation | proxy.ts:88-108 | with no headers the location is empty |
| Proxy.BuildLocation | proxy.ts:88-108 | the push-and-join builder gives the location text of the headers |
| Middleware.SameBoundaries | middleware.ts:15-23 | `GetTimeGreeting`: each hour's greeting is its period's greeting, and two hours share a greeting iff they share a period |
| Middleware.PeriodGreetingsDiffer | middleware.ts:15-23 | the seven greetings are pairwise different |
| Middleware.GreetingCases | middleware.ts:57-66 | `GreetingText`: the five shapes: the anonymous greeting, city and flag, city only, flag only, and the time greeting alone |
| Middleware.BuildGreeting | middleware.ts:53-66 | the builder's greeting is the greeting text of the hour, city, country and the country's flag |
| Middleware.GreetingShapes | middleware.ts:57-66 | the five shapes for actual headers and hours, with the flag table's flag |
| Js.DecimalStringRoundTrip | app/projects/hl-whale-tracker/lib/formatters.ts:83-84 | the decimal text of a whole number, as `${minutes}` writes it, reads back as that number |
| Js.Round | app/components/CommitHeatmap.tsx:63 | `Math.round` lies within half of its argument, with halves rounded up |
| Js.Slice | app/projects/hl-whale-tracker/lib/hyperliquid.ts:85 | `slice` is never longer than its input and is the plain subsequence for in-range indices |
| Js.SlicePrefix | app/projects/hl-whale-tracker/lib/hyperliquid.ts:85 | `slice(0, n)` is the first min(n, length) elements |
| Js.SliceSuffix | app/projects/hl-whale-tracker/lib/formatters.ts:4 | `slice(-k)` is the last k elements, or everything for k = 0 or k beyond the length |
| Js.ReplaceFirstAbsent | app/projects/hl-whale-tracker/lib/formatters.ts:40 | `replace` with an absent pattern leaves the text unchanged |
| StableSort.SortBy | app/projects/hl-whale-tracker/lib/calculations.ts:42 | the sorted sequence is a permutation of its input |
| StableSort.SortBySorted | app/projects/hl-whale-tracker/hooks/useSortAndFilter.ts:23-54 | under a comparator that is a rank difference, the result is sorted by rank |
| StableSort.SortByKeepsSorted | app/projects/hl-whale-tracker/hooks/useSortAndFilter.ts:23-54 | an input already sorted by rank is left as it is (stability) |
| Grouping.KeysInOrderSpec | app/projects/hl-whale-tracker/lib/calculations.ts:33-38 | the map's keys are distinct and are exactly the keys of the elements |
| Grouping.GroupMembers | app/projects/hl-whale-tracker/lib/calculations.ts:33-38 | a key's group holds exactly the elements with that key |
| Grouping.GroupSizesAddUp | app/projects/hl-whale-tracker/lib/calculations.ts:33-38 | the group sizes add up to the number of elements |

## Left out

- Network and I/O are not modelled; their results are inputs. This covers the leaderboard fetch, the per-trader batch fetch, the GitHub commits and languages fetches, the cookies and `NextResponse`.
- Host functions are parameters with no modelled values:
  - `Math.exp` and `Math.log` (`Scoring.HostMath`);
  - `Math.sqrt` (`Calculations.SquareRoot`);
  - `toFixed`, the `Intl` currency format and `toLocaleDateString` (`Js.NumberFormat`);
  - the ISO date of a time (`dayOf`, `dateOf`);
  - the `Intl.DateTimeFormat` hour part;
  - `Date.now()` (`now`, `finishedAt`).
- `parseFloat` is not modelled. Entered and fetched text arrives already parsed. The form entries, the leaderboard fields and a fill's `closedPnl` arrive as `Option<real>`; a fill's size and price and the account value arrive as plain reals (see `WhaleTypes.Fill` and `Calculations.TraderMetricsOf` below). For the form entries and the leaderboard fields None stands for NaN. For a fill's `closedPnl`, None stands for a missing or empty field, which `closedPnl || "0"` reads as 0. `decodeURIComponent` is not modelled either; the city arrives decoded.
- Floating point is replaced by reals. IEEE rounding is not modelled. Of the Sharpe ratio, the three zero guards are stated; its magnitude and sign are not.
- WhaleTypes.Fill: a fill's size and price are plain reals, so a `sz` or `px` that parses to NaN is not represented. In the source it makes `calculateVolume` NaN (`app/projects/hl-whale-tracker/lib/calculations.ts:115-121`). It also makes that coin's running position NaN, after which no crossing test holds and the coin records no further trade (`calculations.ts:48-66`).
- Calculations.TraderMetricsOf: the clearinghouse account value is a plain real (`Some` of a number, or `None` without a state), so an account value that parses to NaN (`calculations.ts:131-133`) is not represented. In the source that NaN fails `accountValue > 0` (`app/projects/hl-whale-tracker/hooks/useLeaderboard.ts:64`).
- Calculations.ClosedPnl: a `closedPnl` whose text parses to NaN is not represented. In the source it makes `calculatePnL`, the daily returns and the Sharpe ratio NaN (`app/projects/hl-whale-tracker/lib/calculations.ts:12,91`); in the model every fill's closed PnL is a number.
- Calculations.SquareRoot: `Math.sqrt` is a parameter of which the model assumes only that √0 is 0 and √365 is positive. So no ratio is proved nonzero when the days differ.
- `formatNumber` in `app/projects/hl-whale-tracker/lib/formatters.ts:60-65` is not modelled. It is a single `Intl.NumberFormat` call with no logic of its own.
- The progress callbacks of the batch fetch are not modelled as interleaved with the fetch. `Leaderboard.LeaderboardState.SetProgress` is stated on its own, and `Leaderboard.FetchData` runs a fetch without callbacks.
- The hour parsed by `parseInt` is an integer input. A NaN hour is not modelled; in the source it falls through to the last period.
- Rendering, animation, the other pages and the API routes are not part of this model.
- Whales.ToLower: lower-cases only the ASCII letters. Addresses hold only ASCII hex digits.
- SortAndFilter.SortTradersOrdered: states the order only when every trader defines the sort field. An undefined Sharpe ratio or trade count makes the comparator NaN, which the sort treats as 0, and the order is then not stated.
- WhalePage.DisplayOrdered: the same restriction as the hook's sort.
- CommitHeatmap.TopLanguagesOrdered: states the order only when there are bytes. With no bytes every share is NaN, and only the bound of three entries is stated.
- Formatters.CompactSuffix: assumes the host's `toFixed` writes a plain numeral below 10^21 in magnitude (`Formatters.PlainToFixed`). Above that, JavaScript switches to exponent notation.
- Formatters.CompactSuffixAsWritten: the same assumption about `toFixed`.
- Formatters.AsWrittenDropsDollar: the same assumption about `toFixed`.
- Formatters.PercentPlusSign: the same assumption about `toFixed`.
- Formatters.SharpeText: the same assumption about `toFixed`.
- Scoring.PolyScoreMonotone: stated only for a positive denominator. The polynomials' sign on the clamped ranges is not proved.
- Proxy.RegionName: requires a non-empty region. The source calls it only under `if (region)`.

## Findings

| source | as written | input that shows it | evidently intended | confidence | as-written member | corrected member |
|---|---|---|---|---|---|---|
| app/projects/hl-whale-tracker/lib/formatters.ts:40 | showSign on a negative value removes the first "$", and the `.replace("--", "-$")` repair never applies, because the text after "-" holds no second "-" | `formatCurrency(-1500, { showSign: true, compact: true })` gives "-1.50K" | "-$1.50K", like the "+$1.50K" of +1500 and the "-$1.50K" without showSign | high, not executed | Formatters.FormatCurrencyAsWritten, Formatters.DroppedDollarExample | Formatters.FormatCurrency, Formatters.CurrencySignRules |
| app/projects/hl-whale-tracker/lib/hyperliquid.ts:37 | the period key is looked up in `TIME_WINDOW_INDEX`, whose keys are "1d", "7d", "30d", "allTime". The periods the hooks use are "24h", "7d", "30d", "all" | any row with period "24h" or "all" gives null, so the top traders for those periods are always empty | "24h" reads window 0 and "all" reads window 3. `TimePeriod` in `app/projects/hl-whale-tracker/lib/types.ts:27` is "1d" \| "7d" \| "30d" \| "allTime", the keys of `TIME_WINDOW_INDEX`, so `hyperliquid.ts` agrees with its own type; the mismatch is between `types.ts` and the hooks | low: `getTopTraders` has no caller among the modelled files, not executed | Hyperliquid.RowToMetricsAsWritten, Hyperliquid.DayAndAllTimeAlwaysSkipped | Hyperliquid.RowToMetrics, Hyperliquid.RowToMetricsAgrees |
