/** The display formatters of the whale tracker: address truncation, currency
    with compact suffixes and sign rules, percentages, the Sharpe ratio, relative
    time, and the colour classes for PnL and Sharpe values. Number-to-text
    conversions come from the host (`Js.NumberFormat`). */
module Formatters {
  import opened Js

  // ---------------------------------------------------------------------------
  // What the model assumes of the host's `toFixed`

  /** Characters `toFixed` writes for numbers below 10^21 in magnitude. */
  predicate NumeralChars(s: string) {
    forall i :: 0 <= i < |s| ==> s[i] in "-.0123456789"
  }

  /** `toFixed` writes a plain numeral for every number below 10^21 in magnitude,
      with a minus sign only for negative numbers. */
  ghost predicate PlainToFixed(nf: NumberFormat) {
    forall x: real, d: nat {:trigger nf.toFixed(x, d)} :: -1000000000000000000000.0 < x < 1000000000000000000000.0 ==>
      NumeralChars(nf.toFixed(x, d)) && (x >= 0.0 ==> '-' !in nf.toFixed(x, d))
  }

  // ---------------------------------------------------------------------------
  // formatAddress

  /** `formatAddress(address, chars)`: the first chars + 2 characters, "...", and
      the last chars characters; "" for an empty address. */
  function FormatAddress(address: string, chars: int): (r: string)
    ensures address == "" <==> r == ""
  {
    if address == "" then ""
    else Slice(address, 0, chars + 2) + "..." + SliceFrom(address, -chars)
  }

  /** For a long enough address the result has exactly 2·chars + 5 characters: the
      head, the dots and the tail of the address. */
  lemma FormatAddressShape(address: string, chars: int)
    requires chars >= 1 && |address| >= chars + 2
    ensures FormatAddress(address, chars) == address[..chars + 2] + "..." + address[|address| - chars..]
    ensures |FormatAddress(address, chars)| == 2 * chars + 5
  {
    SliceSuffix(address, chars);
  }

  /** The `chars` a call without it gets. */
  const DefaultAddressChars: int := 4

  /** With the default, an address of six characters or more shows as 13: its
      first six, "...", and its last four. */
  lemma DefaultAddressShape(address: string)
    requires |address| >= 6
    ensures FormatAddress(address, DefaultAddressChars) == address[..6] + "..." + address[|address| - 4..]
    ensures |FormatAddress(address, DefaultAddressChars)| == 13
  {
    FormatAddressShape(address, DefaultAddressChars);
  }

  /** With chars = 0 the tail is `slice(-0)`, which is the whole address. */
  lemma FormatAddressZeroChars(address: string)
    requires |address| >= 2
    ensures FormatAddress(address, 0) == address[..2] + "..." + address
  {
    SliceSuffix(address, 0);
  }

  // ---------------------------------------------------------------------------
  // formatCurrency

  datatype CurrencyOptions = CurrencyOptions(showSign: bool, compact: bool, decimals: nat)

  /** The options a call without options gets. */
  const DefaultCurrencyOptions := CurrencyOptions(false, false, 2)

  /** The text of |value| before any sign: "$" with "M", "K" or no suffix in
      compact mode, the host's USD currency format otherwise. */
  function Formatted(absValue: real, compact: bool, decimals: nat, nf: NumberFormat): string {
    if compact then
      if absValue >= 1000000.0 then "$" + nf.toFixed(absValue / 1000000.0, decimals) + "M"
      else if absValue >= 1000.0 then "$" + nf.toFixed(absValue / 1000.0, decimals) + "K"
      else "$" + nf.toFixed(absValue, decimals)
    else nf.currency(absValue, decimals)
  }

  /** `formatCurrency` as written: with showSign a negative value loses its first
      "$" and the repair `.replace("--", "-$")` never applies. */
  function FormatCurrencyAsWritten(value: real, opts: CurrencyOptions, nf: NumberFormat): string {
    var formatted := Formatted(Abs(value), opts.compact, opts.decimals, nf);
    if opts.showSign && value > 0.0 then "+" + formatted
    else if opts.showSign && value < 0.0 then ReplaceFirst("-" + ReplaceFirst(formatted, "$", ""), "--", "-$")
    else if value < 0.0 then "-" + formatted
    else formatted
  }

  /** `formatCurrency` with a negative value written "-" followed by the formatted
      magnitude whether or not a sign was asked for. */
  function FormatCurrency(value: real, opts: CurrencyOptions, nf: NumberFormat): string {
    var formatted := Formatted(Abs(value), opts.compact, opts.decimals, nf);
    if opts.showSign && value > 0.0 then "+" + formatted
    else if value < 0.0 then "-" + formatted
    else formatted
  }

  /** The sign rules: "+" exactly for positive values with showSign, "-" exactly for
      negative values, and zero is never signed; the rest is the formatted
      magnitude, so v and −v differ only in the sign. */
  lemma CurrencySignRules(value: real, opts: CurrencyOptions, nf: NumberFormat)
    ensures value > 0.0 && opts.showSign ==> FormatCurrency(value, opts, nf) == "+" + Formatted(value, opts.compact, opts.decimals, nf)
    ensures value > 0.0 && !opts.showSign ==> FormatCurrency(value, opts, nf) == Formatted(value, opts.compact, opts.decimals, nf)
    ensures value == 0.0 ==> FormatCurrency(value, opts, nf) == Formatted(0.0, opts.compact, opts.decimals, nf)
    ensures value < 0.0 ==> FormatCurrency(value, opts, nf) == "-" + FormatCurrency(-value, opts.(showSign := false), nf)
  {
  }

  /** In compact mode the suffix is "M" exactly from one million up, "K" exactly
      from one thousand up to one million, and neither below. */
  lemma CompactSuffix(value: real, showSign: bool, decimals: nat, nf: NumberFormat)
    requires PlainToFixed(nf)
    requires Abs(value) < 1000000000000000000000.0
    ensures var r := FormatCurrency(value, CurrencyOptions(showSign, true, decimals), nf);
      && |r| >= 1
      && (r[|r| - 1] == 'M' <==> Abs(value) >= 1000000.0)
      && (r[|r| - 1] == 'K' <==> 1000.0 <= Abs(value) < 1000000.0)
  {
    var a := Abs(value);
    var f := Formatted(a, true, decimals, nf);
    var r := FormatCurrency(value, CurrencyOptions(showSign, true, decimals), nf);
    assert r[|r| - 1] == f[|f| - 1];
    if a < 1000.0 {
      var t := nf.toFixed(a, decimals);
      assert NumeralChars(t);
      if |t| > 0 {
        assert f[|f| - 1] == t[|t| - 1];
        assert t[|t| - 1] in "-.0123456789";
      }
    }
  }

  /** A numeral without a minus sign, after one leading minus, holds no "--". */
  lemma NoDoubleMinus(rest: string)
    requires '-' !in rest
    ensures !Contains("-" + rest, "--")
  {
    forall i
      ensures !OccursAt("-" + rest, "--", i)
    {
      if 0 <= i < |rest| {
        assert ("-" + rest)[i + 1] == rest[i];
      }
    }
  }

  /** As written, with showSign in compact mode a negative value comes out as "-"
      followed by the magnitude without its "$" sign. */
  lemma AsWrittenDropsDollar(value: real, decimals: nat, nf: NumberFormat)
    requires PlainToFixed(nf)
    requires value < 0.0 && -value < 1000000000000000000000.0
    ensures var f := Formatted(-value, true, decimals, nf);
      f[0] == '$' && FormatCurrencyAsWritten(value, CurrencyOptions(true, true, decimals), nf) == "-" + f[1..]
  {
    var a := -value;
    var t := if a >= 1000000.0 then nf.toFixed(a / 1000000.0, decimals)
             else if a >= 1000.0 then nf.toFixed(a / 1000.0, decimals)
             else nf.toFixed(a, decimals);
    var suffix := if a >= 1000000.0 then "M" else if a >= 1000.0 then "K" else "";
    var rest := t + suffix;
    var f := Formatted(a, true, decimals, nf);
    assert f == "$" + rest;
    assert f[1..] == rest;
    ReplaceFirstAtStart("$", rest, "");
    assert '-' !in t;
    assert '-' !in rest;
    NoDoubleMinus(rest);
    ReplaceFirstAbsent("-" + rest, "--", "-$");
    assert Abs(value) == a;
    assert ReplaceFirst(f, "$", "") == rest;
  }

  /** Outside the one broken case, a negative value with showSign, the code as
      written gives what the corrected function gives. */
  lemma FormatCurrencyAsWrittenAgrees(value: real, opts: CurrencyOptions, nf: NumberFormat)
    ensures !(opts.showSign && value < 0.0) ==> FormatCurrencyAsWritten(value, opts, nf) == FormatCurrency(value, opts, nf)
    ensures opts.showSign && value > 0.0 ==> FormatCurrencyAsWritten(value, opts, nf) == "+" + Formatted(value, opts.compact, opts.decimals, nf)
    ensures !opts.showSign && value < 0.0 ==> FormatCurrencyAsWritten(value, opts, nf) == "-" + Formatted(-value, opts.compact, opts.decimals, nf)
    ensures value == 0.0 ==> FormatCurrencyAsWritten(value, opts, nf) == Formatted(0.0, opts.compact, opts.decimals, nf)
  {
  }

  /** The suffix rule holds of the code as written too: the "$" it loses is at the
      front, and the suffix is at the end. */
  lemma CompactSuffixAsWritten(value: real, showSign: bool, decimals: nat, nf: NumberFormat)
    requires PlainToFixed(nf)
    requires Abs(value) < 1000000000000000000000.0
    ensures var r := FormatCurrencyAsWritten(value, CurrencyOptions(showSign, true, decimals), nf);
      && |r| >= 1
      && (r[|r| - 1] == 'M' <==> Abs(value) >= 1000000.0)
      && (r[|r| - 1] == 'K' <==> 1000.0 <= Abs(value) < 1000000.0)
  {
    var opts := CurrencyOptions(showSign, true, decimals);
    CompactSuffix(value, showSign, decimals, nf);
    if showSign && value < 0.0 {
      AsWrittenDropsDollar(value, decimals, nf);
      var f := Formatted(-value, true, decimals, nf);
      var fixed := FormatCurrency(value, opts, nf);
      assert fixed == "-" + f;
      var r := FormatCurrencyAsWritten(value, opts, nf);
      assert r == "-" + f[1..];
      if |f| >= 2 {
        assert r[|r| - 1] == f[|f| - 1] == fixed[|fixed| - 1];
      } else {
        assert r == "-" && fixed == "-$";
      }
    } else {
      FormatCurrencyAsWrittenAgrees(value, opts, nf);
    }
  }

  /** A host whose `toFixed` writes "1.50" for everything: enough to show the
      difference on one input. */
  function ExampleHost(): NumberFormat {
    NumberFormat((x: real, d: nat) => "1.50", (x: real, d: nat) => "$1,500.00", (t: int) => "1/1/2025")
  }

  lemma ExampleHostIsPlain()
    ensures PlainToFixed(ExampleHost())
  {
    var nf := ExampleHost();
    forall x: real, d: nat
      ensures NumeralChars(nf.toFixed(x, d)) && '-' !in nf.toFixed(x, d)
    {
      assert nf.toFixed(x, d) == "1.50";
    }
  }

  /** −1500 with a sign in compact mode: the code shows "-1.50K" where
      "-$1.50K" is meant, while +1500 shows "+$1.50K". */
  lemma DroppedDollarExample()
    ensures FormatCurrencyAsWritten(-1500.0, CurrencyOptions(true, true, 2), ExampleHost()) == "-1.50K"
    ensures FormatCurrency(-1500.0, CurrencyOptions(true, true, 2), ExampleHost()) == "-$1.50K"
    ensures FormatCurrencyAsWritten(1500.0, CurrencyOptions(true, true, 2), ExampleHost()) == "+$1.50K"
  {
    var nf := ExampleHost();
    ExampleHostIsPlain();
    AsWrittenDropsDollar(-1500.0, 2, nf);
    var f := Formatted(1500.0, true, 2, nf);
    assert f == "$1.50K";
    assert f[1..] == "1.50K";
  }

  // ---------------------------------------------------------------------------
  // formatPercent, formatSharpe

  /** The `decimals` a call to `formatPercent` without it gets. */
  const DefaultPercentDecimals: nat := 1

  /** `formatPercent`: "+" only for a positive value with showSign, then the
      host's fixed-point text and "%". */
  function FormatPercent(value: real, showSign: bool, decimals: nat, nf: NumberFormat): (r: string)
    ensures |r| >= 1 && r[|r| - 1] == '%'
  {
    var sign := if showSign && value > 0.0 then "+" else "";
    sign + nf.toFixed(value, decimals) + "%"
  }

  /** The percentage starts with "+" exactly when showSign holds and the value is
      positive. */
  lemma PercentPlusSign(value: real, showSign: bool, decimals: nat, nf: NumberFormat)
    requires PlainToFixed(nf) && Abs(value) < 1000000000000000000000.0
    ensures FormatPercent(value, showSign, decimals, nf)[0] == '+' <==> showSign && value > 0.0
  {
    var t := nf.toFixed(value, decimals);
    assert NumeralChars(t);
    if |t| > 0 {
      assert t[0] in "-.0123456789";
    }
  }

  /** The placeholder shown for a zero Sharpe ratio, as the source file spells it. */
  const SharpePlaceholder: string := "â€”"

  /** `formatSharpe`: the placeholder for 0, otherwise "+" for positive values and
      the host's two-decimal text. */
  function FormatSharpe(value: real, nf: NumberFormat): string {
    if value == 0.0 then SharpePlaceholder
    else (if value > 0.0 then "+" else "") + nf.toFixed(value, 2)
  }

  /** The placeholder appears exactly for 0, and "+" leads exactly for positive
      values. */
  lemma SharpeText(value: real, nf: NumberFormat)
    requires PlainToFixed(nf) && Abs(value) < 1000000000000000000000.0
    ensures FormatSharpe(value, nf) == SharpePlaceholder <==> value == 0.0
    ensures |FormatSharpe(value, nf)| > 0 && value != 0.0 ==> (FormatSharpe(value, nf)[0] == '+' <==> value > 0.0)
  {
    if value != 0.0 {
      var t := nf.toFixed(value, 2);
      assert NumeralChars(t);
      if |t| > 0 {
        assert t[0] in "-.0123456789";
      }
      assert SharpePlaceholder[0] == 'â';
    }
  }

  // ---------------------------------------------------------------------------
  // formatRelativeTime

  /** `formatRelativeTime(timestamp)` at time `now` (both in milliseconds): whole
      seconds, minutes and hours elapsed, rounded down, pick the bucket. */
  function FormatRelativeTime(timestamp: int, now: int, nf: NumberFormat): string {
    var diff := now - timestamp;
    var seconds := diff / 1000;
    var minutes := seconds / 60;
    var hours := minutes / 60;
    if seconds < 60 then "just now"
    else if minutes < 60 then IntegerString(minutes) + "m ago"
    else if hours < 24 then IntegerString(hours) + "h ago"
    else nf.localeDate(timestamp)
  }

  /** The buckets by elapsed milliseconds: under a minute (including times in the
      future) "just now", under an hour whole minutes, under a day whole hours,
      and the date otherwise. */
  lemma RelativeTimeBuckets(timestamp: int, now: int, nf: NumberFormat)
    ensures var diff, r := now - timestamp, FormatRelativeTime(timestamp, now, nf);
      && (diff < 60000 ==> r == "just now")
      && (60000 <= diff < 3600000 ==> r == IntegerString(diff / 60000) + "m ago")
      && (3600000 <= diff < 86400000 ==> r == IntegerString(diff / 3600000) + "h ago")
      && (diff >= 86400000 ==> r == nf.localeDate(timestamp))
  {
    var diff := now - timestamp;
    assert diff / 1000 / 60 == diff / 60000;
    assert diff / 1000 / 60 / 60 == diff / 3600000;
  }

  // ---------------------------------------------------------------------------
  // Colour classes

  /** `getPnLColorClass`. */
  function PnLColorClass(value: real): string {
    if value > 0.0 then "text-green-500"
    else if value < 0.0 then "text-red-500"
    else "text-muted"
  }

  /** `getSharpeColorClass`. */
  function SharpeColorClass(value: real): string {
    if value >= 2.0 then "text-green-500"
    else if value >= 1.0 then "text-yellow-500"
    else if value > 0.0 then "text-muted"
    else "text-red-500"
  }

  /** The PnL colour is a three-way split on the sign. */
  lemma PnLColorBySign(value: real)
    ensures PnLColorClass(value) == "text-green-500" <==> value > 0.0
    ensures PnLColorClass(value) == "text-red-500" <==> value < 0.0
    ensures PnLColorClass(value) == "text-muted" <==> value == 0.0
  {
  }

  /** The Sharpe colours in order of merit. */
  function SharpeTier(cls: string): int {
    if cls == "text-green-500" then 3
    else if cls == "text-yellow-500" then 2
    else if cls == "text-muted" then 1
    else 0
  }

  /** A higher Sharpe ratio never gets a lower colour tier, and the tiers change at
      2, 1 and 0. */
  lemma SharpeColorMonotone(a: real, b: real)
    requires a <= b
    ensures SharpeTier(SharpeColorClass(a)) <= SharpeTier(SharpeColorClass(b))
    ensures SharpeColorClass(a) == "text-green-500" <==> a >= 2.0
    ensures SharpeColorClass(a) == "text-yellow-500" <==> 1.0 <= a < 2.0
    ensures SharpeColorClass(a) == "text-muted" <==> 0.0 < a < 1.0
    ensures SharpeColorClass(a) == "text-red-500" <==> a <= 0.0
  {
  }
}
