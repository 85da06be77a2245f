/** The pieces of the JavaScript runtime the modelled code relies on: `slice` with
    negative and out-of-range indices, `String.prototype.replace` with a string
    pattern, integer-to-text conversion, `Math.round`, and the host's
    number-to-text conversions, which the model takes as opaque functions. */
module Js {

  /** The host's number-to-text conversions: `toFixed(digits)`, the en-US USD
      currency format of `Intl.NumberFormat`, and `toLocaleDateString` of a time
      in milliseconds. Their exact output is not modelled. */
  datatype NumberFormat = NumberFormat(
    toFixed: (real, nat) -> string,
    currency: (real, nat) -> string,
    localeDate: int -> string)

  function Abs(x: real): (r: real)
    ensures r >= 0.0 && (r == x || r == -x)
  {
    if x < 0.0 then -x else x
  }

  /** `Math.round`: the nearest integer, halves rounded up. */
  function Round(x: real): (r: int)
    ensures x - 0.5 < r as real <= x + 0.5
  {
    (x + 0.5).Floor
  }

  /** How `slice` resolves an index: negative counts from the end, and the result
      is clamped to [0, len]. */
  function RelativeIndex(i: int, len: nat): (r: nat)
    ensures r <= len
    ensures 0 <= i <= len ==> r == i
    ensures -(len as int) <= i < 0 ==> r as int == len + i
  {
    if i < 0 then (if len + i < 0 then 0 else len + i)
    else if i > len then len
    else i
  }

  /** `s.slice(start, end)` for strings and arrays. */
  function Slice<T>(s: seq<T>, start: int, end: int): (r: seq<T>)
    ensures |r| <= |s|
    ensures 0 <= start <= end <= |s| ==> r == s[start..end]
  {
    var from := RelativeIndex(start, |s|);
    var to := RelativeIndex(end, |s|);
    if from <= to then s[from..to] else []
  }

  /** `s.slice(start)`. */
  function SliceFrom<T>(s: seq<T>, start: int): (r: seq<T>)
    ensures |r| <= |s|
  {
    Slice(s, start, |s|)
  }

  /** `s.slice(0, n)` keeps the first n elements, or all of them when there are fewer. */
  lemma SlicePrefix<T>(s: seq<T>, n: int)
    requires n >= 0
    ensures Slice(s, 0, n) == s[..if n < |s| then n else |s|]
  {
  }

  /** `s.slice(-k)` keeps the last k elements for k >= 1; `s.slice(-0)` is the whole of s. */
  lemma SliceSuffix<T>(s: seq<T>, k: int)
    requires k >= 0
    ensures k == 0 ==> SliceFrom(s, -k) == s
    ensures 1 <= k <= |s| ==> SliceFrom(s, -k) == s[|s| - k..]
    ensures k > |s| ==> SliceFrom(s, -k) == s
  {
  }

  /** `s.replace(pattern, replacement)` with a string pattern: only the first
      occurrence is replaced; an empty pattern matches at the start. */
  function ReplaceFirst(s: string, pattern: string, replacement: string): (r: string)
    decreases |s|
  {
    if |s| < |pattern| then s
    else if s[..|pattern|] == pattern then replacement + s[|pattern|..]
    else [s[0]] + ReplaceFirst(s[1..], pattern, replacement)
  }

  /** Whether `pattern` occurs in `s` starting at index i. */
  predicate OccursAt(s: string, pattern: string, i: int) {
    0 <= i <= |s| - |pattern| && s[i..i + |pattern|] == pattern
  }

  /** Whether `pattern` occurs in `s` as a contiguous piece. */
  ghost predicate Contains(s: string, pattern: string) {
    exists i :: OccursAt(s, pattern, i)
  }

  /** Replacing the first occurrence leaves a string without the pattern unchanged. */
  lemma {:induction false} ReplaceFirstAbsent(s: string, pattern: string, replacement: string)
    requires !Contains(s, pattern)
    ensures ReplaceFirst(s, pattern, replacement) == s
    decreases |s|
  {
    if |s| < |pattern| {
    } else if s[..|pattern|] == pattern {
      StartsWithContains(s, pattern);
      assert false;
    } else {
      ContainsTail(s, pattern);
      ReplaceFirstAbsent(s[1..], pattern, replacement);
    }
  }

  /** A string that starts with the pattern contains it. */
  lemma StartsWithContains(s: string, pattern: string)
    requires |pattern| <= |s| && s[..|pattern|] == pattern
    ensures Contains(s, pattern)
  {
    assert OccursAt(s, pattern, 0);
  }

  /** An occurrence in the tail of s is an occurrence in s. */
  lemma ContainsTail(s: string, pattern: string)
    requires s != []
    ensures Contains(s[1..], pattern) ==> Contains(s, pattern)
  {
    if Contains(s[1..], pattern) {
      var i :| OccursAt(s[1..], pattern, i);
      assert s[i + 1..i + 1 + |pattern|] == s[1..][i..i + |pattern|];
      assert OccursAt(s, pattern, i + 1);
    }
  }

  /** A string that starts with the pattern has exactly that occurrence replaced. */
  lemma ReplaceFirstAtStart(pattern: string, rest: string, replacement: string)
    ensures ReplaceFirst(pattern + rest, pattern, replacement) == replacement + rest
  {
    assert (pattern + rest)[..|pattern|] == pattern;
    assert (pattern + rest)[|pattern|..] == rest;
  }

  function DigitChar(d: nat): (c: char)
    requires d < 10
    ensures '0' <= c <= '9'
  {
    "0123456789"[d]
  }

  predicate IsDigits(s: string) {
    forall i :: 0 <= i < |s| ==> '0' <= s[i] <= '9'
  }

  /** The decimal digits of n, as `String(n)` writes a non-negative integer. */
  function DecimalString(n: nat): (r: string)
    ensures r != [] && IsDigits(r)
  {
    if n < 10 then [DigitChar(n)] else DecimalString(n / 10) + [DigitChar(n % 10)]
  }

  /** `String(i)` for an integer: a minus sign for negative values, then the digits. */
  function IntegerString(i: int): (r: string)
    ensures i >= 0 ==> IsDigits(r)
    ensures i < 0 ==> |r| >= 2 && r[0] == '-' && IsDigits(r[1..])
  {
    if i < 0 then "-" + DecimalString(-i) else DecimalString(i)
  }

  /** The value of a string of decimal digits. */
  function DigitsValue(s: string): nat
    requires IsDigits(s)
  {
    if s == [] then 0 else 10 * DigitsValue(s[..|s| - 1]) + ((s[|s| - 1] as int) - ('0' as int))
  }

  /** Reading the digits back gives the number: the conversion loses nothing. */
  lemma {:induction false} DecimalStringRoundTrip(n: nat)
    ensures DigitsValue(DecimalString(n)) == n
  {
    if n >= 10 {
      var s := DecimalString(n);
      assert s[..|s| - 1] == DecimalString(n / 10);
      DecimalStringRoundTrip(n / 10);
    }
  }
}
