/**
 The few members of the Arduino `String` class that the MTR parser relies on:
 `indexOf`, `lastIndexOf`, `substring` and `toInt`. A string is a `seq<char>`
 (the parser never looks at encodings), and the `size_t` variables that hold
 the result of a search are modelled by `Idx`, whose `NPos` case is the value
 `-1` stored into an unsigned variable.
 */
module ArduinoString {

  /** The result of `indexOf` / `lastIndexOf` once it is stored in a `size_t`:
      a position, or `NPos` for `-1` (all bits set). */
  datatype Idx = At(pos: nat) | NPos

  /** `i + 1` on a `size_t`: the all-ones value wraps round to 0. */
  function Succ(i: Idx): nat
  {
    match i
    case At(n) => n + 1
    case NPos => 0
  }

  /** An index used as the right end of `substring`. `NPos` is the largest
      unsigned value, which `substring` clamps to the length; by
      `SubstringClampsRight` the length itself stands for it exactly. */
  function RightEnd(i: Idx, s: string): nat
  {
    match i
    case At(n) => n
    case NPos => |s|
  }

  function Min(a: nat, b: nat): nat { if a <= b then a else b }

  function Max(a: nat, b: nat): nat { if a <= b then b else a }

  /** `s.indexOf(c, from)`: the first position at or after `from` holding `c`. */
  function IndexOf(s: string, c: char, from: nat): (r: Idx)
    ensures r.At? ==> from <= r.pos < |s| && s[r.pos] == c
    ensures r.At? ==> forall k :: from <= k < r.pos ==> s[k] != c
    ensures r.NPos? ==> forall k :: from <= k < |s| ==> s[k] != c
    decreases |s| - from
  {
    if from >= |s| then NPos
    else if s[from] == c then At(from)
    else IndexOf(s, c, from + 1)
  }

  /** The last position below `to` holding `c`. */
  function LastIndexOfBelow(s: string, c: char, to: nat): (r: Idx)
    requires to <= |s|
    ensures r.At? ==> r.pos < to && s[r.pos] == c
    ensures r.At? ==> forall k :: r.pos < k < to ==> s[k] != c
    ensures r.NPos? ==> forall k :: 0 <= k < to ==> s[k] != c
  {
    if to == 0 then NPos
    else if s[to - 1] == c then At(to - 1)
    else LastIndexOfBelow(s, c, to - 1)
  }

  /** `s.lastIndexOf(c)`: the last position holding `c`. */
  function LastIndexOf(s: string, c: char): (r: Idx)
    ensures r.At? ==> r.pos < |s| && s[r.pos] == c
    ensures r.At? ==> forall k :: r.pos < k < |s| ==> s[k] != c
    ensures r.NPos? ==> forall k :: 0 <= k < |s| ==> s[k] != c
  {
    LastIndexOfBelow(s, c, |s|)
  }

  /** `s.substring(l, r)`: the two ends are swapped when `l > r`, the right
      end is clamped to the length, and a left end at or past the length
      yields the empty string. */
  function Substring(s: string, l: nat, r: nat): (t: string)
    ensures |t| <= |s|
    ensures l <= r <= |s| ==> t == s[l..r]
    ensures r <= l <= |s| ==> t == s[r..l]
    ensures l >= |s| && r >= |s| ==> t == ""
  {
    var lo, hi := Min(l, r), Max(l, r);
    if lo >= |s| then "" else s[lo..Min(hi, |s|)]
  }

  /** Every right end at or past the length selects the same substring, so
      the all-ones `size_t` can be represented by the length. */
  lemma SubstringClampsRight(s: string, l: nat, r: nat)
    requires r >= |s|
    ensures Substring(s, l, r) == Substring(s, l, |s|)
    ensures Substring(s, l, r) == if l < |s| then s[l..] else ""
  {
  }

  /** Giving the ends in either order selects the same text. */
  lemma SubstringSwapsEnds(s: string, l: nat, r: nat)
    ensures Substring(s, l, r) == Substring(s, r, l)
  {
  }

  predicate IsDigit(c: char)
  {
    '0' <= c <= '9'
  }

  /** A character `toInt` reads as the start of a number: a digit, a sign,
      or white space, which it skips. */
  predicate MayStartNumber(c: char)
  {
    IsDigit(c) || c == '+' || c == '-' || c == ' ' || '\t' <= c <= '\r'
  }

  predicate AllDigits(s: string)
  {
    forall k :: 0 <= k < |s| ==> IsDigit(s[k])
  }

  /** The length of the longest prefix of `s` made of decimal digits. */
  function DigitPrefixLength(s: string): (n: nat)
    ensures n <= |s|
    ensures AllDigits(s[..n])
    ensures n < |s| ==> !IsDigit(s[n])
  {
    if |s| == 0 || !IsDigit(s[0]) then 0
    else
      var m := DigitPrefixLength(s[1..]);
      assert s[1..][..m] == s[1..m + 1];
      m + 1
  }

  /** The number a string of decimal digits denotes. */
  function ValueOf(digits: string): nat
    requires AllDigits(digits)
  {
    if |digits| == 0 then 0
    else ValueOf(digits[..|digits| - 1]) * 10 + (digits[|digits| - 1] as int - '0' as int)
  }

  /** `s.toInt()` on a string that does not start with a sign or white space:
      the value of its leading digits, and 0 when there are none. */
  function ToInt(s: string): (v: nat)
  {
    ValueOf(s[..DigitPrefixLength(s)])
  }

  /** The decimal representation of `n`, without leading zeros. */
  function Decimal(n: nat): (d: string)
    ensures |d| > 0 && AllDigits(d)
    ensures |d| > 1 ==> d[0] != '0'
  {
    var last := ['0' + (n % 10) as char];
    if n < 10 then last else Decimal(n / 10) + last
  }

  /** Reading back the decimal representation gives the number. */
  lemma {:induction false} ValueOfDecimal(n: nat)
    ensures ValueOf(Decimal(n)) == n
  {
    var d := Decimal(n);
    if n >= 10 {
      ValueOfDecimal(n / 10);
      assert d[..|d| - 1] == Decimal(n / 10);
    }
  }

  /** The digit prefix of a number followed by non-digit text is the number. */
  lemma {:induction false} DigitPrefixOfNumber(d: string, rest: string)
    requires AllDigits(d)
    requires |rest| == 0 || !IsDigit(rest[0])
    ensures DigitPrefixLength(d + rest) == |d|
  {
    if |d| > 0 {
      DigitPrefixOfNumber(d[1..], rest);
      assert (d + rest)[1..] == d[1..] + rest;
    }
  }

  /** `toInt` inverts `Decimal` whatever non-digit text follows the number. */
  lemma ToIntDecimal(n: nat, rest: string)
    requires |rest| == 0 || !IsDigit(rest[0])
    ensures ToInt(Decimal(n) + rest) == n
  {
    var s := Decimal(n) + rest;
    var d := Decimal(n);
    DigitPrefixOfNumber(d, rest);
    assert s[..|d|] == d;
    ValueOfDecimal(n);
  }

  /** `toInt` on text whose first character is not a digit, a sign or white
      space is 0. */
  lemma ToIntNonNumeric(s: string)
    requires |s| == 0 || !MayStartNumber(s[0])
    ensures ToInt(s) == 0
  {
  }
}
