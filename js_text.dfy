/**
 * The few pieces of JavaScript string behaviour the application relies on:
 * `toLowerCase`, `includes`, the decimal text a number takes inside a
 * template literal, `parseInt` of a run of digits, and the leftmost match of
 * the number-shaped regular expressions used on user-agent strings
 * (`/Android (\d+)/`, `/OS (\d+)_(\d+)/`, `/chrome\/(\d+\.\d+)/`, ...).
 */
module JsText {
  import opened Base

  // ---------------------------------------------------------------------------
  // Case mapping and substring search

  /** `toLowerCase` on one character, for the ASCII letters the patterns use. */
  function LowerChar(c: char): char {
    if 'A' <= c <= 'Z' then (c as int - 'A' as int + 'a' as int) as char else c
  }

  function ToLower(s: string): (r: string)
    ensures |r| == |s|
    ensures forall i :: 0 <= i < |s| ==> r[i] == LowerChar(s[i])
  {
    seq(|s|, i requires 0 <= i < |s| => LowerChar(s[i]))
  }

  /** `s.includes(sub)`: `sub` occurs in `s` at some position. */
  predicate Includes(s: string, sub: string) {
    exists i :: 0 <= i <= |s| - |sub| && OccursAt(s, sub, i)
  }

  predicate OccursAt(s: string, sub: string, i: int) {
    0 <= i <= |s| - |sub| && s[i..i + |sub|] == sub
  }

  predicate HasNoNewline(s: string) {
    '\n' !in s
  }

  // ---------------------------------------------------------------------------
  // Decimal digits: `${n}` and `parseInt`

  predicate IsDigit(c: char) {
    '0' <= c <= '9'
  }

  predicate AllDigits(s: string) {
    forall i :: 0 <= i < |s| ==> IsDigit(s[i])
  }

  function DigitChar(d: nat): char
    requires d < 10
  {
    ('0' as int + d) as char
  }

  function DigitValue(c: char): nat
    requires IsDigit(c)
  {
    c as int - '0' as int
  }

  /** The decimal text of a natural number, most significant digit first. */
  function NatToString(n: nat): (s: string)
    decreases n
  {
    if n < 10 then [DigitChar(n)] else NatToString(n / 10) + [DigitChar(n % 10)]
  }

  /** The text a JavaScript integer takes inside a template literal. */
  function IntToString(i: int): string {
    if i < 0 then "-" + NatToString(-i) else NatToString(i)
  }

  /** `parseInt` of a string made only of decimal digits. */
  function DigitsValue(s: string): nat
    requires AllDigits(s)
  {
    if s == [] then 0 else DigitsValue(s[..|s| - 1]) * 10 + DigitValue(s[|s| - 1])
  }

  /** The decimal text of `n` is a non-empty run of digits that `parseInt` reads back as `n`. */
  lemma {:induction false} NatToStringRoundTrip(n: nat)
    ensures |NatToString(n)| >= 1
    ensures AllDigits(NatToString(n))
    ensures DigitsValue(NatToString(n)) == n
    decreases n
  {
    var s := NatToString(n);
    if n >= 10 {
      NatToStringRoundTrip(n / 10);
      assert s[..|s| - 1] == NatToString(n / 10);
      assert DigitsValue(s) == DigitsValue(NatToString(n / 10)) * 10 + n % 10;
    }
  }

  /** A number's text never contains a line break. */
  lemma IntToStringHasNoNewline(i: int)
    ensures HasNoNewline(IntToString(i))
  {
    NatToStringRoundTrip(if i < 0 then -i else i);
  }

  // ---------------------------------------------------------------------------
  // Number-shaped regular expressions

  /**
   * End of the run of digits that starts at `j`: every character in
   * `s[j..k]` is a digit and `s[k]`, if any, is not. The greedy `\d+` of
   * every pattern below always captures such a maximal run, because the
   * character the pattern wants next is never a digit.
   */
  function DigitRunEnd(s: string, j: nat): (k: nat)
    requires j <= |s|
    ensures j <= k <= |s|
    ensures forall t :: j <= t < k ==> IsDigit(s[t])
    ensures k == |s| || !IsDigit(s[k])
    decreases |s| - j
  {
    if j < |s| && IsDigit(s[j]) then DigitRunEnd(s, j + 1) else j
  }

  /**
   * A pattern `<prefix>(\d+)` optionally followed by a separator character,
   * and then optionally by a second group `(\d+)`:
   *   /Android (\d+)/          NumberPattern("Android ", None, false)
   *   /OS (\d+)_/              NumberPattern("OS ", Some('_'), false)
   *   /OS (\d+)_(\d+)/         NumberPattern("OS ", Some('_'), true)
   *   /Android (\d+\.\d+)/     NumberPattern("Android ", Some('.'), true)
   */
  datatype NumberPattern = NumberPattern(prefix: string, sep: Option<char>, second: bool)

  predicate WellFormed(p: NumberPattern) {
    p.second ==> p.sep.Some?
  }

  /** The pattern matches at position `i` of `s`. */
  predicate MatchesAt(s: string, p: NumberPattern, i: nat) {
    && i + |p.prefix| <= |s|
    && s[i..i + |p.prefix|] == p.prefix
    && var j := i + |p.prefix|;
       var k := DigitRunEnd(s, j);
       && k > j
       && (p.sep.Some? ==>
             && k < |s| && s[k] == p.sep.value
             && (p.second ==> DigitRunEnd(s, k + 1) > k + 1))
  }

  /** The pattern matches somewhere in `s`. */
  ghost predicate Occurs(s: string, p: NumberPattern) {
    exists t :: MatchesAt(s, p, t)
  }

  /** `i` is the leftmost position where the pattern matches. */
  predicate IsLeftmostMatch(s: string, p: NumberPattern, i: nat) {
    MatchesAt(s, p, i) && forall t :: 0 <= t < i ==> !MatchesAt(s, p, t)
  }

  /** The leftmost position at or after `from` where the pattern matches. */
  function FirstMatchFrom(s: string, p: NumberPattern, from: nat): (r: Option<nat>)
    ensures r.Some? ==> from <= r.value && MatchesAt(s, p, r.value)
    ensures r.Some? ==> forall t :: from <= t < r.value ==> !MatchesAt(s, p, t)
    ensures r.None? ==> forall t :: from <= t ==> !MatchesAt(s, p, t)
    decreases |s| - from
  {
    if from + |p.prefix| > |s| then None
    else if MatchesAt(s, p, from) then Some(from)
    else FirstMatchFrom(s, p, from + 1)
  }

  /** The groups of a match at `i`: the first `\d+` and, if present, the second. */
  function CapturesAt(s: string, p: NumberPattern, i: nat): (string, string)
    requires WellFormed(p) && MatchesAt(s, p, i)
  {
    var j := i + |p.prefix|;
    var k := DigitRunEnd(s, j);
    if p.second then (s[j..k], s[k + 1..DigitRunEnd(s, k + 1)]) else (s[j..k], "")
  }

  /** `s.match(re)`: the groups of the leftmost match, or `null`. */
  function Match(s: string, p: NumberPattern): (r: Option<(string, string)>)
    requires WellFormed(p)
    ensures r.None? <==> forall t :: !MatchesAt(s, p, t)
    ensures r.None? <==> !Occurs(s, p)
    ensures r.Some? ==> exists i :: IsLeftmostMatch(s, p, i) && r.value == CapturesAt(s, p, i)
    ensures r.Some? ==> AllDigits(r.value.0) && |r.value.0| >= 1
    ensures r.Some? && p.second ==> AllDigits(r.value.1) && |r.value.1| >= 1
  {
    var first := FirstMatchFrom(s, p, 0);
    if first.None? then None
    else
      var i := first.value;
      assert IsLeftmostMatch(s, p, i);
      assert Occurs(s, p) by { assert MatchesAt(s, p, i); }
      Some(CapturesAt(s, p, i))
  }
}
