/** The records of the whale tracker. `TraderMetrics` carries every field the
    tracker reads, with `sharpe`, `trades` and `label` optional because the
    leaderboard conversion leaves them undefined. The time period uses the keys of
    the period filter and the leaderboard hook: "24h", "7d", "30d" and "all". */
module WhaleTypes {
  import opened Wrappers

  /** One fill of a trader, with its text fields already parsed: size, price,
      time in milliseconds, and the closed PnL when the fill carries one. */
  datatype Fill = Fill(coin: string, side: string, sz: real, px: real, time: int, closedPnl: Option<real>)

  datatype TraderMetrics = TraderMetrics(
    address: string,
    whaleLabel: Option<string>,
    pnl: real,
    winRate: real,
    sharpe: Option<real>,
    trades: Option<nat>,
    volume: real,
    accountValue: real,
    lastUpdated: int)

  datatype TimePeriod = Day | Week | Month | AllTime

  function PeriodKey(p: TimePeriod): string {
    match p
    case Day => "24h"
    case Week => "7d"
    case Month => "30d"
    case AllTime => "all"
  }

  /** The sort fields the comparators know, and any other name, for which they
      answer 0. */
  datatype SortField = Pnl | WinRate | Sharpe | Trades | Volume | OtherField(name: string)

  datatype SortDirection = Asc | Desc
}
