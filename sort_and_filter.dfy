/** The whale tracker's sort state and its comparator sort: the field and
    direction toggle of `handleSort`, the selected time period, and the sorted copy
    of the traders. A comparator that reads an undefined field (an absent Sharpe
    ratio or trade count) computes NaN, which the engine's sort treats as 0. */
module SortAndFilter {
  import opened Wrappers
  import opened WhaleTypes
  import opened StableSort

  /** The number the comparator reads from a trader for a field: None where the
      trader leaves the field undefined, and None for a field outside the switch. */
  function FieldValue(t: TraderMetrics, field: SortField): Option<real> {
    match field
    case Pnl => Some(t.pnl)
    case WinRate => Some(t.winRate)
    case Sharpe => t.sharpe
    case Trades => if t.trades.Some? then Some(t.trades.value as real) else None
    case Volume => Some(t.volume)
    case OtherField(_) => None
  }

  /** Every trader defines the field, so the comparator never meets NaN. */
  predicate AllDefine(traders: seq<TraderMetrics>, field: SortField) {
    forall t :: t in traders ==> FieldValue(t, field).Some?
  }

  /** The position a trader sorts to: the field's value, negated for descending. */
  function Rank(field: SortField, dir: SortDirection, t: TraderMetrics): real {
    var v := FieldValue(t, field).GetOr(0.0);
    if dir == Desc then -v else v
  }

  /** The comparator of `sortedTraders`: the difference of the field's values,
      negated for descending; 0 for a field outside the switch, and 0 for NaN. */
  function Compare(field: SortField, dir: SortDirection, a: TraderMetrics, b: TraderMetrics): (c: real)
    ensures field.OtherField? ==> c == 0.0
    ensures FieldValue(a, field).Some? && FieldValue(b, field).Some? ==>
              c == Rank(field, dir, a) - Rank(field, dir, b)
  {
    match field
    case OtherField(_) => 0.0
    case _ =>
      var av := FieldValue(a, field);
      var bv := FieldValue(b, field);
      if av.None? || bv.None? then 0.0
      else
        var diff := av.value - bv.value;
        if dir == Desc then -diff else diff
  }

  /** `[...traders].sort(comparator)`: a reordered copy; the input is a value and
      is left as it was. */
  function SortTraders(traders: seq<TraderMetrics>, field: SortField, dir: SortDirection): (r: seq<TraderMetrics>)
    ensures multiset(r) == multiset(traders)
  {
    SortBy(traders, (a, b) => Compare(field, dir, a, b))
  }

  /** When every trader defines the field, the sorted copy holds the same traders
      with ranks in non-decreasing order. */
  lemma {:induction false} SortTradersByRank(traders: seq<TraderMetrics>, field: SortField, dir: SortDirection)
    requires AllDefine(traders, field)
    ensures var r := SortTraders(traders, field, dir);
            && |r| == |traders|
            && (forall t :: t in r <==> t in traders)
            && (forall i, j :: 0 <= i < j < |r| ==> Rank(field, dir, r[i]) <= Rank(field, dir, r[j]))
  {
    var cmp := (a, b) => Compare(field, dir, a, b);
    var rank := t => Rank(field, dir, t);
    assert RankComparatorOn(cmp, rank, traders);
    SortBySorted(traders, cmp, rank);
    SortByPermutes(traders, cmp);
  }

  /** When every trader defines the field, descending puts the values in
      non-increasing order and ascending in non-decreasing order; the result holds
      the same traders. */
  lemma {:induction false} SortTradersOrdered(traders: seq<TraderMetrics>, field: SortField, dir: SortDirection)
    requires AllDefine(traders, field)
    ensures |SortTraders(traders, field, dir)| == |traders|
    ensures forall t :: t in SortTraders(traders, field, dir) <==> t in traders
    ensures dir == Desc ==> var r := SortTraders(traders, field, dir);
              forall i, j :: 0 <= i < j < |r| ==> FieldValue(r[i], field).value >= FieldValue(r[j], field).value
    ensures dir == Asc ==> var r := SortTraders(traders, field, dir);
              forall i, j :: 0 <= i < j < |r| ==> FieldValue(r[i], field).value <= FieldValue(r[j], field).value
  {
    SortTradersByRank(traders, field, dir);
    var r := SortTraders(traders, field, dir);
    forall i, j | 0 <= i < j < |r|
      ensures dir == Desc ==> FieldValue(r[i], field).value >= FieldValue(r[j], field).value
      ensures dir == Asc ==> FieldValue(r[i], field).value <= FieldValue(r[j], field).value
    {
      assert r[i] in r && r[j] in r;
      assert Rank(field, dir, r[i]) <= Rank(field, dir, r[j]);
    }
  }

  /** A field outside the switch compares every pair as equal, so the stable sort
      leaves the traders in their order. */
  lemma {:induction false} OtherFieldKeepsOrder(traders: seq<TraderMetrics>, name: string, dir: SortDirection)
    ensures SortTraders(traders, OtherField(name), dir) == traders
  {
    var cmp := (a, b) => Compare(OtherField(name), dir, a, b);
    var rank := (t: TraderMetrics) => 0.0;
    assert RankComparatorOn(cmp, rank, traders);
    SortByKeepsSorted(traders, cmp, rank);
  }

  /** `handleSort` as a function of the current field and direction: the current
      field flips the direction, another field is selected in descending order. */
  function AfterSort(field: SortField, dir: SortDirection, requested: SortField): (r: (SortField, SortDirection))
    ensures requested == field ==> r.0 == field && r.1 != dir
    ensures requested != field ==> r == (requested, Desc)
  {
    if requested == field then (field, if dir == Desc then Asc else Desc)
    else (requested, Desc)
  }

  /** Sorting twice on the current field restores the direction. */
  lemma ToggleTwiceRestores(field: SortField, dir: SortDirection)
    ensures var once := AfterSort(field, dir, field);
            AfterSort(once.0, once.1, field) == (field, dir)
  {
    var once := AfterSort(field, dir, field);
    assert once.0 == field && once.1 != dir;
  }

  class SortState {
    var sortField: SortField
    var sortDirection: SortDirection
    var timePeriod: TimePeriod

    /** PnL, descending, the seven-day period. */
    constructor()
      ensures sortField == Pnl && sortDirection == Desc && timePeriod == Week
    {
      sortField, sortDirection, timePeriod := Pnl, Desc, Week;
    }

    /** `handleSort`: the new field and direction are `AfterSort` of the old ones;
        the time period does not change. */
    method HandleSort(field: SortField)
      modifies this
      ensures (sortField, sortDirection) == AfterSort(old(sortField), old(sortDirection), field)
      ensures timePeriod == old(timePeriod)
    {
      if field == sortField {
        sortDirection := if sortDirection == Desc then Asc else Desc;
      } else {
        sortField := field;
        sortDirection := Desc;
      }
    }

    /** `setTimePeriod`: only the period changes. */
    method SetTimePeriod(p: TimePeriod)
      modifies this
      ensures timePeriod == p && sortField == old(sortField) && sortDirection == old(sortDirection)
    {
      timePeriod := p;
    }

    /** `sortedTraders`: the traders sorted by the current field and direction. */
    function SortedTraders(traders: seq<TraderMetrics>): (r: seq<TraderMetrics>)
      reads this
      ensures multiset(r) == multiset(traders)
    {
      SortTraders(traders, sortField, sortDirection)
    }
  }

  /** Clicking the current column twice leaves the sort state as it was. */
  method SortTwice(s: SortState)
    modifies s
    ensures s.sortField == old(s.sortField) && s.sortDirection == old(s.sortDirection)
    ensures s.timePeriod == old(s.timePeriod)
  {
    ToggleTwiceRestores(s.sortField, s.sortDirection);
    var field := s.sortField;
    s.HandleSort(field);
    s.HandleSort(field);
  }
}
