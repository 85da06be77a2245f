/** The whale tracker page's own sort of the fetched traders, `displayTraders`: the
    page repeats the hook's comparator instead of using the hook's sorted list. */
module WhalePage {
  import opened Wrappers
  import opened WhaleTypes
  import opened StableSort
  import SortAndFilter

  /** The page's comparator, as the page writes it: the two values the switch
      selects, then their difference, negated for descending. A field outside the
      switch answers 0, and so does a difference that is NaN. */
  function DisplayCompare(field: SortField, dir: SortDirection, a: TraderMetrics, b: TraderMetrics): (c: real)
    ensures field.OtherField? ==> c == 0.0
  {
    var values := match field
      case Pnl => Some((a.pnl, b.pnl))
      case WinRate => Some((a.winRate, b.winRate))
      case Sharpe =>
        if a.sharpe.Some? && b.sharpe.Some? then Some((a.sharpe.value, b.sharpe.value)) else Some((0.0, 0.0))
      case Trades =>
        if a.trades.Some? && b.trades.Some? then Some((a.trades.value as real, b.trades.value as real)) else Some((0.0, 0.0))
      case Volume => Some((a.volume, b.volume))
      case OtherField(_) => None;
    if values.None? then 0.0
    else
      var diff := values.value.0 - values.value.1;
      if dir == Desc then -diff else diff
  }

  /** `displayTraders`: a reordered copy of the fetched traders. */
  function DisplayTraders(traders: seq<TraderMetrics>, field: SortField, dir: SortDirection): (r: seq<TraderMetrics>)
    ensures multiset(r) == multiset(traders)
  {
    SortBy(traders, (a, b) => DisplayCompare(field, dir, a, b))
  }

  /** The page's comparator agrees with the hook's on every pair, so the page
      orders any list exactly as the hook would, with the same field and direction. */
  lemma {:induction false} DisplayMatchesHook(traders: seq<TraderMetrics>, field: SortField, dir: SortDirection)
    ensures DisplayTraders(traders, field, dir) == SortAndFilter.SortTraders(traders, field, dir)
  {
    var page := (a, b) => DisplayCompare(field, dir, a, b);
    var hook := (a, b) => SortAndFilter.Compare(field, dir, a, b);
    forall a, b | a in traders && b in traders ensures page(a, b) == hook(a, b) {
      CompareAgrees(field, dir, a, b);
    }
    SortBySameComparator(traders, page, hook);
  }

  /** On one pair of traders the page's comparator answers what the hook's does. */
  lemma CompareAgrees(field: SortField, dir: SortDirection, a: TraderMetrics, b: TraderMetrics)
    ensures DisplayCompare(field, dir, a, b) == SortAndFilter.Compare(field, dir, a, b)
  {
    match field
    case Sharpe =>
    case Trades =>
    case _ =>
  }

  /** The page's order: non-increasing for descending and non-decreasing for
      ascending when every trader defines the field, over the same traders. */
  lemma DisplayOrdered(traders: seq<TraderMetrics>, field: SortField, dir: SortDirection)
    requires SortAndFilter.AllDefine(traders, field)
    ensures forall t :: t in DisplayTraders(traders, field, dir) <==> t in traders
    ensures dir == Desc ==> var r := DisplayTraders(traders, field, dir);
              forall i, j :: 0 <= i < j < |r| ==>
                SortAndFilter.FieldValue(r[i], field).value >= SortAndFilter.FieldValue(r[j], field).value
    ensures dir == Asc ==> var r := DisplayTraders(traders, field, dir);
              forall i, j :: 0 <= i < j < |r| ==>
                SortAndFilter.FieldValue(r[i], field).value <= SortAndFilter.FieldValue(r[j], field).value
  {
    DisplayMatchesHook(traders, field, dir);
    SortAndFilter.SortTradersOrdered(traders, field, dir);
  }

  /** A field outside the switch leaves the traders in the order they came. */
  lemma DisplayOtherFieldKeepsOrder(traders: seq<TraderMetrics>, name: string, dir: SortDirection)
    ensures DisplayTraders(traders, OtherField(name), dir) == traders
  {
    DisplayMatchesHook(traders, OtherField(name), dir);
    SortAndFilter.OtherFieldKeepsOrder(traders, name, dir);
  }
}
