/** The leaderboard hook: the period tables, and the state a fetch moves through.
    The batch fetch of every whale's data is an input: either its results, one per
    address in order, or the message of the exception it threw. */
module Leaderboard {
  import opened Wrappers
  import opened WhaleTypes
  import opened Calculations
  import Whales

  /** The length of a period in days, as the Sharpe ratio reads it. */
  function PeriodDays(p: TimePeriod): (d: nat)
    ensures d >= 1
    ensures p == Day ==> d == 1
    ensures p == Week ==> d == 7
    ensures p == Month ==> d == 30
    ensures p == AllTime ==> d == 365
  {
    match p
    case Day => 1
    case Week => 7
    case Month => 30
    case AllTime => 365
  }

  /** A span of time in milliseconds, or Infinity. */
  datatype Span = Millis(ms: nat) | Unbounded

  const DayMs: nat := 24 * 60 * 60 * 1000

  /** The length of a period in milliseconds, with no bound for all time. */
  function PeriodMs(p: TimePeriod): Span {
    match p
    case Day => Millis(DayMs)
    case Week => Millis(7 * DayMs)
    case Month => Millis(30 * DayMs)
    case AllTime => Unbounded
  }

  /** The bounded periods last as many days in milliseconds as in days; only all
      time is unbounded, while the Sharpe ratio counts it as 365 days. */
  lemma PeriodTablesAgree(p: TimePeriod)
    ensures PeriodMs(p).Unbounded? <==> p == AllTime
    ensures p != AllTime ==> PeriodMs(p).ms == PeriodDays(p) * 86400000
  {
  }

  /** What the batch fetch returned for one address. */
  datatype TraderData = TraderData(error: Option<string>, state: Option<real>, fills: seq<Fill>)

  /** `data.error` is truthy: present and not empty. */
  predicate Failed(d: TraderData) {
    d.error.Some? && d.error.value != ""
  }

  /** "Some activity": a trade or a positive account value. */
  predicate Active(m: TraderMetrics) {
    (m.trades.Some? && m.trades.value > 0) || m.accountValue > 0.0
  }

  /** The metrics of one address, labelled from the whale list. */
  function MetricsFor(period: TimePeriod, now: int, dayOf: int -> string, sqrt: SquareRoot): (string, TraderData) -> TraderMetrics {
    (address, d: TraderData) =>
      TraderMetricsOf(address, d.state, d.fills, PeriodDays(period) as real, Whales.GetWhaleLabel(address), now, dayOf, sqrt)
  }

  /** The traders the loop keeps: the active metrics of the results without an
      error, in result order. */
  function Collected(results: seq<(string, TraderData)>, metricsOf: (string, TraderData) -> TraderMetrics): (ts: seq<TraderMetrics>)
    ensures |ts| <= |results|
  {
    if results == [] then []
    else
      var init := Collected(results[..|results| - 1], metricsOf);
      var (address, d) := results[|results| - 1];
      if Failed(d) then init
      else
        var m := metricsOf(address, d);
        if Active(m) then init + [m] else init
  }

  /** Keeping is decided result by result, so the kept traders of two stretches of
      results follow each other in the same order. */
  lemma {:induction false} CollectedAppend(a: seq<(string, TraderData)>, b: seq<(string, TraderData)>,
                                           metricsOf: (string, TraderData) -> TraderMetrics)
    ensures Collected(a + b, metricsOf) == Collected(a, metricsOf) + Collected(b, metricsOf)
    decreases |b|
  {
    if b == [] {
      assert a + b == a;
    } else {
      var n := |b| - 1;
      assert (a + b)[..|a + b| - 1] == a + b[..n];
      assert (a + b)[|a + b| - 1] == b[n];
      CollectedAppend(a, b[..n], metricsOf);
    }
  }

  /** A kept trader is active and comes from a result without an error; and every
      such result's trader is kept. */
  lemma {:induction false} CollectedMembers(results: seq<(string, TraderData)>, metricsOf: (string, TraderData) -> TraderMetrics)
    ensures forall t :: t in Collected(results, metricsOf) ==>
              Active(t) && exists k :: 0 <= k < |results| && !Failed(results[k].1) && t == metricsOf(results[k].0, results[k].1)
    ensures forall k :: 0 <= k < |results| && !Failed(results[k].1) && Active(metricsOf(results[k].0, results[k].1)) ==>
              metricsOf(results[k].0, results[k].1) in Collected(results, metricsOf)
  {
    if results != [] {
      var n := |results| - 1;
      var init := results[..n];
      CollectedMembers(init, metricsOf);
      var c := Collected(results, metricsOf);
      var ci := Collected(init, metricsOf);
      assert forall t :: t in ci ==> t in c;
      forall t | t in c
        ensures Active(t) && exists k :: 0 <= k < |results| && !Failed(results[k].1) && t == metricsOf(results[k].0, results[k].1)
      {
        if t in ci {
          var k :| 0 <= k < |init| && !Failed(init[k].1) && t == metricsOf(init[k].0, init[k].1);
          assert results[k] == init[k];
        }
      }
      forall k | 0 <= k < |results| && !Failed(results[k].1) && Active(metricsOf(results[k].0, results[k].1))
        ensures metricsOf(results[k].0, results[k].1) in c
      {
        if k < n {
          assert results[k] == init[k];
        }
      }
    }
  }

  /** One more result: kept at the end when it has no error and is active. */
  lemma CollectedNext(results: seq<(string, TraderData)>, i: nat, metricsOf: (string, TraderData) -> TraderMetrics)
    requires i < |results|
    ensures Collected(results[..i + 1], metricsOf)
         == if Failed(results[i].1) || !Active(metricsOf(results[i].0, results[i].1)) then Collected(results[..i], metricsOf)
            else Collected(results[..i], metricsOf) + [metricsOf(results[i].0, results[i].1)]
  {
    assert results[..i + 1][..i] == results[..i];
  }

  /** How the batch fetch ended. */
  datatype FetchOutcome = Fetched(results: seq<(string, TraderData)>) | Threw(message: Option<string>)

  class LeaderboardState {
    var traders: seq<TraderMetrics>
    var loading: bool
    var error: Option<string>
    var lastUpdated: Option<int>
    var completed: nat
    var total: nat

    /** No traders, not loading, no error, never updated, no progress. */
    constructor()
      ensures traders == [] && !loading && error == None && lastUpdated == None
      ensures completed == 0 && total == 0
    {
      traders, loading, error, lastUpdated := [], false, None, None;
      completed, total := 0, 0;
    }

    /** The start of `fetchData`: loading, the error cleared, and progress at 0 of
        the number of whales; the traders and the time of the last update stay. */
    method BeginFetch()
      modifies this
      ensures loading && error == None && completed == 0 && total == |Whales.WhaleAddressList|
      ensures traders == old(traders) && lastUpdated == old(lastUpdated)
    {
      loading, error := true, None;
      completed, total := 0, |Whales.WhaleAddressList|;
    }

    /** The progress callback of the batch fetch. */
    method SetProgress(done: nat, of: nat)
      modifies this
      ensures completed == done && total == of
      ensures traders == old(traders) && loading == old(loading) && error == old(error) && lastUpdated == old(lastUpdated)
    {
      completed, total := done, of;
    }

    /** The success path: the traders are the kept metrics, in result order; loading
        ends, there is no error, and the update time is `finishedAt`. */
    method CompleteFetch(results: seq<(string, TraderData)>, period: TimePeriod, now: int,
                         dayOf: int -> string, sqrt: SquareRoot, finishedAt: int)
      modifies this
      ensures traders == Collected(results, MetricsFor(period, now, dayOf, sqrt))
      ensures !loading && error == None && lastUpdated == Some(finishedAt)
      ensures completed == old(completed) && total == old(total)
    {
      var metricsOf := MetricsFor(period, now, dayOf, sqrt);
      var kept: seq<TraderMetrics> := [];
      var i := 0;
      while i < |results|
        invariant 0 <= i <= |results|
        invariant kept == Collected(results[..i], metricsOf)
        invariant completed == old(completed) && total == old(total)
      {
        CollectedNext(results, i, metricsOf);
        var (address, data) := results[i];
        if !(data.error.Some? && data.error.value != "") {
          var metrics := metricsOf(address, data);
          if (metrics.trades.Some? && metrics.trades.value > 0) || metrics.accountValue > 0.0 {
            kept := kept + [metrics];
          }
        }
        i := i + 1;
      }
      assert results[..|results|] == results;
      traders, loading, error, lastUpdated := kept, false, None, Some(finishedAt);
    }

    /** The exception path: the previous traders and update time stay, loading ends,
        and the error is the exception's message, or "Failed to fetch data" when it
        is not an `Error`. */
    method FailFetch(message: Option<string>)
      modifies this
      ensures traders == old(traders) && lastUpdated == old(lastUpdated)
      ensures !loading && error == Some(message.GetOr("Failed to fetch data"))
      ensures completed == old(completed) && total == old(total)
    {
      loading := false;
      error := Some(if message.Some? then message.value else "Failed to fetch data");
    }
  }

  /** One whole `fetchData` with no progress callbacks in between. */
  method FetchData(lb: LeaderboardState, outcome: FetchOutcome, period: TimePeriod, now: int,
                   dayOf: int -> string, sqrt: SquareRoot, finishedAt: int)
    modifies lb
    ensures !lb.loading && lb.completed == 0 && lb.total == |Whales.WhaleAddressList|
    ensures outcome.Fetched? ==> lb.traders == Collected(outcome.results, MetricsFor(period, now, dayOf, sqrt))
                                 && lb.error == None && lb.lastUpdated == Some(finishedAt)
    ensures outcome.Threw? ==> lb.traders == old(lb.traders) && lb.lastUpdated == old(lb.lastUpdated)
                               && lb.error == Some(outcome.message.GetOr("Failed to fetch data"))
  {
    lb.BeginFetch();
    match outcome {
      case Fetched(results) => lb.CompleteFetch(results, period, now, dayOf, sqrt, finishedAt);
      case Threw(message) => lb.FailFetch(message);
    }
  }
}
