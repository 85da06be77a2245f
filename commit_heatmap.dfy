/** The data behind the site's commit heatmap and repository statistics: commit
    counts per day, the grid of days and its weeks, the colour of a day, the number
    format, and the top languages. The commit list, the language byte counts, the
    window width and the calendar are inputs; fetching and rendering are left out. */
module CommitHeatmap {
  import opened Wrappers
  import opened StableSort
  import opened Grouping
  import Js

  // ---------------------------------------------------------------------------
  // Intensity

  /** The five colour classes, from no commits to the most. */
  const IntensityClasses: seq<string> := ["bg-border/50", "bg-accent/40", "bg-accent/60", "bg-accent/80", "bg-accent"]

  /** The bucket of a day's count: 0, 1-2, 3-5, 6-10, more than 10. */
  function Level(count: nat): (l: nat)
    ensures l < |IntensityClasses|
    ensures l == 0 <==> count == 0
    ensures l == 1 <==> 1 <= count <= 2
    ensures l == 2 <==> 3 <= count <= 5
    ensures l == 3 <==> 6 <= count <= 10
    ensures l == 4 <==> count > 10
  {
    if count == 0 then 0
    else if count <= 2 then 1
    else if count <= 5 then 2
    else if count <= 10 then 3
    else 4
  }

  /** `getIntensity`: the class of a count. */
  function GetIntensity(count: nat): (c: string)
    ensures c == IntensityClasses[Level(count)]
  {
    if count == 0 then "bg-border/50"
    else if count <= 2 then "bg-accent/40"
    else if count <= 5 then "bg-accent/60"
    else if count <= 10 then "bg-accent/80"
    else "bg-accent"
  }

  /** More commits never give a lighter colour. */
  lemma LevelMonotone(a: nat, b: nat)
    requires a <= b
    ensures Level(a) <= Level(b)
  {
  }

  /** The legend's samples 0, 1, 3, 6 and 11 show the five classes in order, one
      each. */
  lemma LegendShowsEveryClass()
    ensures forall k :: 0 <= k < 5 ==> Level([0, 1, 3, 6, 11][k]) == k
    ensures forall k :: 0 <= k < 5 ==> GetIntensity([0, 1, 3, 6, 11][k]) == IntensityClasses[k]
  {
  }

  // ---------------------------------------------------------------------------
  // Number format

  /** `formatNumber`: thousands as a one-decimal number of thousands and "k", smaller
      numbers as they are. */
  function FormatNumber(num: int, nf: Js.NumberFormat): (r: string)
    ensures num >= 1000 ==> r == nf.toFixed(num as real / 1000.0, 1) + "k"
    ensures num < 1000 ==> r == Js.IntegerString(num)
    ensures r != [] && (r[|r| - 1] == 'k' <==> num >= 1000)
  {
    if num >= 1000 then nf.toFixed(num as real / 1000.0, 1) + "k"
    else
      var s := Js.IntegerString(num);
      assert s[|s| - 1] != 'k' by {
        if num < 0 {
          assert s[1..][|s[1..]| - 1] == s[|s| - 1];
        }
      }
      s
  }

  // ---------------------------------------------------------------------------
  // Commits per day

  /** `date.split("T")[0]`: the text before the first "T". */
  function DatePrefix(date: string): (r: string)
    ensures |r| <= |date| && r == date[..|r|]
    ensures 'T' !in r
    ensures |r| < |date| ==> date[|r|] == 'T'
  {
    if date == [] then []
    else if date[0] == 'T' then []
    else [date[0]] + DatePrefix(date[1..])
  }

  /** An ISO timestamp's day is its first ten characters. */
  lemma DatePrefixOfTimestamp(day: string, time: string)
    requires |day| == 10 && 'T' !in day
    ensures DatePrefix(day + "T" + time) == day
  {
    var s := day + "T" + time;
    var r := DatePrefix(s);
    assert s[10] == 'T';
    assert forall k :: 0 <= k < 10 ==> s[k] == day[k] && s[k] != 'T';
  }

  /** The count map after the commits so far: a key for each day that has a
      commit, holding the number of commits on that day; `days` lists those days in
      the order they first appear. */
  ghost predicate CountedInto(counts: map<string, nat>, days: seq<string>, dates: seq<string>) {
    && days == KeysInOrder(dates, DatePrefix)
    && (forall d :: d in counts ==> d in days && counts[d] == |Group(dates, DatePrefix, d)|)
    && (forall i :: 0 <= i < |days| ==> days[i] in counts)
  }

  lemma CountedIntoStep(counts: map<string, nat>, days: seq<string>, dates: seq<string>, date: string)
    requires CountedInto(counts, days, dates)
    ensures var day := DatePrefix(date);
            CountedInto(counts[day := (if day in counts then counts[day] else 0) + 1],
                        if day in counts then days else days + [day], dates + [date])
  {
    KeysInOrderSnoc(dates, date, DatePrefix);
    CountsStep(counts, days, dates, date);
    DaysStep(counts, days, dates, date);
  }

  /** The step, stated for the next prefix of the commits. */
  lemma CountedIntoNext(counts: map<string, nat>, days: seq<string>, dates: seq<string>, i: nat)
    requires i < |dates| && CountedInto(counts, days, dates[..i])
    ensures var day := DatePrefix(dates[i]);
            CountedInto(counts[day := (if day in counts then counts[day] else 0) + 1],
                        if day in counts then days else days + [day], dates[..i + 1])
  {
    PrefixSnoc(dates, i);
    CountedIntoStep(counts, days, dates[..i], dates[i]);
  }

  lemma CountsStep(counts: map<string, nat>, days: seq<string>, dates: seq<string>, date: string)
    requires CountedInto(counts, days, dates)
    ensures var day := DatePrefix(date);
            var m := counts[day := (if day in counts then counts[day] else 0) + 1];
            forall d :: d in m ==> d in (if day in counts then days else days + [day]) && m[d] == |Group(dates + [date], DatePrefix, d)|
  {
    var day := DatePrefix(date);
    var m := counts[day := (if day in counts then counts[day] else 0) + 1];
    forall d | d in m ensures d in (if day in counts then days else days + [day]) && m[d] == |Group(dates + [date], DatePrefix, d)| {
      CountedIntoEntry(counts, days, dates, date, d);
    }
  }

  lemma DaysStep(counts: map<string, nat>, days: seq<string>, dates: seq<string>, date: string)
    requires CountedInto(counts, days, dates)
    ensures var day := DatePrefix(date);
            var days' := if day in counts then days else days + [day];
            forall i :: 0 <= i < |days'| ==> days'[i] in counts[day := (if day in counts then counts[day] else 0) + 1]
  {
    var day := DatePrefix(date);
    var days' := if day in counts then days else days + [day];
    forall i | 0 <= i < |days'| ensures days'[i] in counts[day := (if day in counts then counts[day] else 0) + 1] {
      if i < |days| {
        assert days'[i] == days[i];
      }
    }
  }

  lemma CountedIntoEntry(counts: map<string, nat>, days: seq<string>, dates: seq<string>, date: string, d: string)
    requires CountedInto(counts, days, dates)
    requires d in counts || d == DatePrefix(date)
    ensures (if d == DatePrefix(date) then (if d in counts then counts[d] else 0) + 1 else counts[d])
            == |Group(dates + [date], DatePrefix, d)|
  {
    GroupSnoc(dates, date, DatePrefix, d);
    if d !in counts {
      GroupOfAbsentKey(dates, DatePrefix, d);
    }
  }

  /** The `countMap` loop: for each commit, one more on its day. */
  method CountByDate(dates: seq<string>) returns (counts: map<string, nat>)
    ensures forall d :: d in counts <==> exists i :: 0 <= i < |dates| && DatePrefix(dates[i]) == d
    ensures forall d :: d in counts ==> counts[d] == |Group(dates, DatePrefix, d)|
  {
    counts := map[];
    ghost var days: seq<string> := [];
    var i := 0;
    while i < |dates|
      invariant 0 <= i <= |dates|
      invariant CountedInto(counts, days, dates[..i])
    {
      var day := DatePrefix(dates[i]);
      ghost var days' := if day in counts then days else days + [day];
      var counts' := counts[day := (if day in counts then counts[day] else 0) + 1];
      CountedIntoNext(counts, days, dates, i);
      assert CountedInto(counts', days', dates[..i + 1]);
      counts, days, i := counts', days', i + 1;
    }
    assert dates[..|dates|] == dates;
    CountedIntoAll(counts, days, dates);
  }

  /** Once every commit is counted, the keys are exactly the days with a commit. */
  lemma CountedIntoAll(counts: map<string, nat>, days: seq<string>, dates: seq<string>)
    requires CountedInto(counts, days, dates)
    ensures forall d :: d in counts <==> exists i :: 0 <= i < |dates| && DatePrefix(dates[i]) == d
    ensures forall d :: d in counts ==> counts[d] == |Group(dates, DatePrefix, d)|
  {
    KeysInOrderSpec(dates, DatePrefix);
    forall d | exists i :: 0 <= i < |dates| && DatePrefix(dates[i]) == d ensures d in counts {
      var k :| 0 <= k < |days| && days[k] == d;
    }
  }

  /** The sum of the counts of some days. */
  function TotalCount(counts: map<string, nat>, days: seq<string>): nat
    requires forall d :: d in days ==> d in counts
  {
    if days == [] then 0 else TotalCount(counts, days[..|days| - 1]) + counts[days[|days| - 1]]
  }

  /** The days with commits, each once, and their counts add up to the number of
      commits. */
  lemma {:induction false} CountsAddUp(dates: seq<string>, counts: map<string, nat>)
    requires forall d :: d in counts <==> exists i :: 0 <= i < |dates| && DatePrefix(dates[i]) == d
    requires forall d :: d in counts ==> counts[d] == |Group(dates, DatePrefix, d)|
    ensures var days := KeysInOrder(dates, DatePrefix);
            Distinct(days) && (forall d :: d in days <==> d in counts) && TotalCount(counts, days) == |dates|
  {
    var days := KeysInOrder(dates, DatePrefix);
    KeysInOrderSpec(dates, DatePrefix);
    forall d ensures d in days <==> d in counts {
      if d in counts {
        var i :| 0 <= i < |dates| && DatePrefix(dates[i]) == d;
      }
    }
    TotalIsSumOfGroups(days, dates, counts);
    GroupSizesAddUp(dates, DatePrefix);
  }

  lemma {:induction false} TotalIsSumOfGroups(days: seq<string>, dates: seq<string>, counts: map<string, nat>)
    requires forall d :: d in days ==> d in counts && counts[d] == |Group(dates, DatePrefix, d)|
    ensures TotalCount(counts, days) == SumGroupSizes(days, dates, DatePrefix)
  {
    if days != [] {
      var n := |days| - 1;
      assert days == days[..n] + [days[n]];
      assert days[n] in days;
      TotalIsSumOfGroups(days[..n], dates, counts);
      SumGroupSizesSnoc(days[..n], days[n], dates, DatePrefix);
    }
  }

  // ---------------------------------------------------------------------------
  // The grid

  /** Eight weeks on a narrow window (under 640 pixels), twelve otherwise and when
      there is no window. */
  function WeeksToShow(windowWidth: Option<int>): (w: nat)
    ensures w == 8 || w == 12
    ensures w == 8 <==> windowWidth.Some? && windowWidth.value < 640
  {
    if windowWidth.Some? && windowWidth.value < 640 then 8 else 12
  }

  datatype CommitDay = CommitDay(date: string, count: nat)

  /** `commitData.get(date) || 0`. */
  function CountOn(counts: map<string, nat>, date: string): nat {
    if date in counts then counts[date] else 0
  }

  /** The days loop: `dateOf(i)` is the ISO day i days before today, and the days go
      from the oldest, weeksToShow * 7 - 1 days back, to today. */
  method BuildDays(weeksToShow: nat, counts: map<string, nat>, dateOf: nat -> string) returns (days: seq<CommitDay>)
    ensures |days| == weeksToShow * 7
    ensures forall k :: 0 <= k < |days| ==> days[k].date == dateOf(|days| - 1 - k)
    ensures forall k :: 0 <= k < |days| ==> days[k].count == CountOn(counts, days[k].date)
  {
    var daysToShow := weeksToShow * 7;
    days := [];
    var i := daysToShow - 1;
    while i >= 0
      invariant -1 <= i < daysToShow
      invariant |days| == daysToShow - 1 - i
      invariant forall k :: 0 <= k < |days| ==> days[k].date == dateOf(daysToShow - 1 - k)
      invariant forall k :: 0 <= k < |days| ==> days[k].count == CountOn(counts, days[k].date)
    {
      var dateStr := dateOf(i);
      days := days + [CommitDay(dateStr, CountOn(counts, dateStr))];
      i := i - 1;
    }
  }

  /** The weeks concatenated. */
  function Flatten<T>(weeks: seq<seq<T>>): seq<T> {
    if weeks == [] then [] else Flatten(weeks[..|weeks| - 1]) + weeks[|weeks| - 1]
  }

  /** The weeks loop: slices of seven days from the start; the last is shorter when
      the days are not a whole number of weeks. */
  method ChunkWeeks<T>(days: seq<T>) returns (weeks: seq<seq<T>>)
    ensures Flatten(weeks) == days
    ensures forall w :: 0 <= w < |weeks| ==> 1 <= |weeks[w]| <= 7
    ensures forall w :: 0 <= w < |weeks| - 1 ==> |weeks[w]| == 7
    ensures |days| % 7 == 0 ==> forall w :: 0 <= w < |weeks| ==> |weeks[w]| == 7
  {
    weeks := [];
    var i := 0;
    while i < |days|
      invariant i == 7 * |weeks|
      invariant i <= |days| || (|days| < i < |days| + 7 && |days| % 7 != 0)
      invariant Flatten(weeks) == days[..if i < |days| then i else |days|]
      invariant forall w :: 0 <= w < |weeks| ==> 1 <= |weeks[w]| <= 7
      invariant forall w :: 0 <= w < |weeks| && 7 * (w + 1) <= |days| ==> |weeks[w]| == 7
    {
      var week := Js.Slice(days, i, i + 7);
      var end := if i + 7 < |days| then i + 7 else |days|;
      assert week == days[i..end];
      assert days[..end] == days[..i] + days[i..end];
      weeks := weeks + [week];
      assert weeks[..|weeks| - 1] == weeks[..|weeks| - 1];
      i := i + 7;
    }
  }

  // ---------------------------------------------------------------------------
  // Languages

  /** A language and its share of the bytes in percent, None where the share is NaN
      (no bytes at all). */
  datatype Language = Language(name: string, percentage: Option<int>)

  datatype RepoStats = RepoStats(commits: nat, linesOfCode: int, languages: seq<Language>)

  /** The sum of the byte counts. */
  function TotalBytes(entries: seq<(string, nat)>): nat {
    if entries == [] then 0 else TotalBytes(entries[..|entries| - 1]) + entries[|entries| - 1].1
  }

  lemma {:induction false} EntryWithinTotal(entries: seq<(string, nat)>, k: nat)
    requires k < |entries|
    ensures entries[k].1 <= TotalBytes(entries)
  {
    if k < |entries| - 1 {
      EntryWithinTotal(entries[..|entries| - 1], k);
    }
  }

  /** `Math.round(bytes / total * 100)`. */
  function Percentage(bytes: nat, total: nat): (p: Option<int>)
    ensures p.None? <==> total == 0
    ensures bytes <= total && total > 0 ==> 0 <= p.value <= 100
  {
    if total == 0 then None
    else
      var x := bytes as real / total as real * 100.0;
      assert bytes <= total ==> x <= 100.0 by {
        if bytes <= total {
          assert bytes as real / total as real <= 1.0;
        }
      }
      Some(Js.Round(x))
  }

  function LanguagesOf(entries: seq<(string, nat)>, total: nat): (ls: seq<Language>)
    ensures |ls| == |entries|
    ensures forall k :: 0 <= k < |ls| ==> ls[k] == Language(entries[k].0, Percentage(entries[k].1, total))
  {
    seq(|entries|, k requires 0 <= k < |entries| => Language(entries[k].0, Percentage(entries[k].1, total)))
  }

  /** The comparator `b.percentage - a.percentage`, 0 when it is NaN. */
  function ByShareDesc(a: Language, b: Language): real {
    if a.percentage.None? || b.percentage.None? then 0.0
    else (b.percentage.value - a.percentage.value) as real
  }

  /** The largest shares first, at most three of them. */
  function TopLanguages(entries: seq<(string, nat)>): (r: seq<Language>)
    ensures |r| <= 3
  {
    Js.SlicePrefix(SortBy(LanguagesOf(entries, TotalBytes(entries)), ByShareDesc), 3);
    Js.Slice(SortBy(LanguagesOf(entries, TotalBytes(entries)), ByShareDesc), 0, 3)
  }

  /** The statistics: the number of commits, about one line per 40 bytes, and the top
      languages. */
  function StatsOf(commitCount: nat, entries: seq<(string, nat)>): (s: RepoStats)
    ensures s.commits == commitCount && |s.languages| <= 3
    ensures s.linesOfCode == Js.Round(TotalBytes(entries) as real / 40.0)
  {
    RepoStats(commitCount, Js.Round(TotalBytes(entries) as real / 40.0), TopLanguages(entries))
  }

  /** Every share is a number between 0 and 100 when there are bytes at all. */
  lemma {:induction false} SharesInRange(entries: seq<(string, nat)>)
    requires TotalBytes(entries) > 0
    ensures forall l :: l in LanguagesOf(entries, TotalBytes(entries)) ==> l.percentage.Some? && 0 <= l.percentage.value <= 100
  {
    var ls := LanguagesOf(entries, TotalBytes(entries));
    forall l | l in ls ensures l.percentage.Some? && 0 <= l.percentage.value <= 100 {
      var k :| 0 <= k < |ls| && ls[k] == l;
      EntryWithinTotal(entries, k);
    }
  }

  /** The top languages are languages of the repository with shares between 0 and
      100, in non-increasing order, the first of all languages by share, and no
      language left out has a larger share than one shown. */
  lemma {:induction false} TopLanguagesOrdered(entries: seq<(string, nat)>)
    requires TotalBytes(entries) > 0
    ensures var all := SortBy(LanguagesOf(entries, TotalBytes(entries)), ByShareDesc);
            forall l :: l in all ==> l.percentage.Some? && 0 <= l.percentage.value <= 100
    ensures var all := SortBy(LanguagesOf(entries, TotalBytes(entries)), ByShareDesc);
            var top := TopLanguages(entries);
            |top| == (if |all| < 3 then |all| else 3) && top == all[..|top|]
    ensures var top := TopLanguages(entries);
            forall i, j :: 0 <= i < j < |top| ==> top[i].percentage.value >= top[j].percentage.value
    ensures var all := SortBy(LanguagesOf(entries, TotalBytes(entries)), ByShareDesc);
            var top := TopLanguages(entries);
            forall l :: l in all[|top|..] ==> forall i :: 0 <= i < |top| ==> top[i].percentage.value >= l.percentage.value
  {
    var all := SortBy(LanguagesOf(entries, TotalBytes(entries)), ByShareDesc);
    AllLanguagesSorted(entries);
    Js.SlicePrefix(all, 3);
    var n := if |all| < 3 then |all| else 3;
    PrefixRanksFirst(all, n, ShareRank);
    SuffixRanksAfterPrefix(all, n, ShareRank);
  }

  /** Sorting by share puts the ranks `-percentage` in order. */
  function ShareRank(l: Language): real {
    -(l.percentage.GetOr(0) as real)
  }

  /** All languages sorted by share: shares between 0 and 100, non-increasing. */
  lemma AllLanguagesSorted(entries: seq<(string, nat)>)
    requires TotalBytes(entries) > 0
    ensures var all := SortBy(LanguagesOf(entries, TotalBytes(entries)), ByShareDesc);
            && (forall l :: l in all ==> l.percentage.Some? && 0 <= l.percentage.value <= 100)
            && SortedBy(all, ShareRank)
  {
    var ls := LanguagesOf(entries, TotalBytes(entries));
    SharesInRange(entries);
    assert RankComparatorOn(ByShareDesc, ShareRank, ls);
    SortBySorted(ls, ByShareDesc, ShareRank);
    SortByPermutes(ls, ByShareDesc);
  }
}
