/** The string primitives the dashboard relies on: `String.prototype.includes`,
    `String.prototype.toLowerCase` and the decimal rendering of a number in a
    template literal. */
module Text {

  /** `needle` occurs in `s` starting at index `i`. */
  ghost predicate OccursAt(s: string, needle: string, i: nat)
  {
    i + |needle| <= |s| && s[i..i + |needle|] == needle
  }

  /** `s.includes(needle)`: scans `s` from the left for `needle`. The empty
      needle is always found, and no needle longer than `s` is. */
  function Includes(s: string, needle: string): (r: bool)
    ensures needle == [] ==> r
    ensures r ==> |needle| <= |s|
    decreases |s|
  {
    if needle <= s then true
    else if |s| == 0 then false
    else Includes(s[1..], needle)
  }

  /** When the scan finds `needle`, it occurs at some index of `s`. */
  lemma {:induction false} IncludesSound(s: string, needle: string) returns (i: nat)
    requires Includes(s, needle)
    ensures OccursAt(s, needle, i)
    decreases |s|
  {
    if needle <= s {
      i := 0;
    } else {
      var t := s[1..];
      var k := IncludesSound(t, needle);
      assert s[k + 1..k + 1 + |needle|] == t[k..k + |needle|];
      i := k + 1;
    }
  }

  /** An occurrence at any index is found by the scan. */
  lemma {:induction false} IncludesComplete(s: string, needle: string, i: nat)
    requires OccursAt(s, needle, i)
    ensures Includes(s, needle)
    decreases i
  {
    if i > 0 && !(needle <= s) {
      assert s[1..][i - 1..i - 1 + |needle|] == s[i..i + |needle|];
      IncludesComplete(s[1..], needle, i - 1);
    }
  }

  /** The scan finds `needle` exactly when it occurs at some index of `s`. */
  lemma IncludesIff(s: string, needle: string)
    ensures Includes(s, needle) <==> exists i: nat :: OccursAt(s, needle, i)
  {
    if Includes(s, needle) {
      var i := IncludesSound(s, needle);
    }
    forall i: nat | OccursAt(s, needle, i) ensures Includes(s, needle) {
      IncludesComplete(s, needle, i);
    }
  }

  /** An occurrence at a known index is found by the scan. */
  lemma IncludesAt(s: string, needle: string, i: nat)
    requires OccursAt(s, needle, i)
    ensures Includes(s, needle)
  {
    IncludesIff(s, needle);
  }

  /** A string whose every occurrence of `c` is followed by a character outside
      `next` contains no needle of the shape `[c, x] + rest` with `x` in `next`. */
  lemma NotIncludedByFollower(s: string, needle: string, c: char, next: set<char>)
    requires |needle| >= 2 && needle[0] == c && needle[1] in next
    requires forall i :: 0 <= i < |s| - 1 && s[i] == c ==> s[i + 1] !in next
    ensures !Includes(s, needle)
  {
    IncludesIff(s, needle);
    forall i: nat | i + |needle| <= |s| ensures !OccursAt(s, needle, i) {
      assert s[i..i + |needle|][0] == s[i] && s[i..i + |needle|][1] == s[i + 1];
    }
  }

  predicate IsUpper(c: char)
  {
    'A' <= c <= 'Z'
  }

  /** Lower-cases one character (ASCII letters only). */
  function LowerChar(c: char): (r: char)
    ensures !IsUpper(r)
    ensures r == c || (IsUpper(c) && r as int == c as int + 32)
  {
    if IsUpper(c) then (c as int + 32) as char else c
  }

  /** `s.toLowerCase()` on ASCII letters: same length, every upper-case
      letter replaced by its lower-case letter, every other character
      unchanged. */
  function ToLower(s: string): (r: string)
    ensures |r| == |s|
    ensures forall i :: 0 <= i < |s| ==> !IsUpper(r[i])
    ensures forall i :: 0 <= i < |s| && IsUpper(s[i]) ==> r[i] as int == s[i] as int + 32
    ensures forall i :: 0 <= i < |s| && !IsUpper(s[i]) ==> r[i] == s[i]
  {
    seq(|s|, i requires 0 <= i < |s| => LowerChar(s[i]))
  }

  /** Lower-casing twice is lower-casing once. */
  lemma ToLowerIdempotent(s: string)
    ensures ToLower(ToLower(s)) == ToLower(s)
  {
    var once := ToLower(s);
    assert forall i :: 0 <= i < |s| ==> ToLower(once)[i] == once[i];
  }

  predicate IsDigit(c: char)
  {
    '0' <= c <= '9'
  }

  function DigitChar(d: nat): (c: char)
    requires d < 10
    ensures IsDigit(c) && c as int - '0' as int == d
  {
    ('0' as int + d) as char
  }

  /** The decimal text of `n`, as a template literal writes a non-negative
      integer: digits only, and no leading zero. */
  function NatToString(n: nat): (r: string)
    ensures |r| >= 1
    ensures forall i :: 0 <= i < |r| ==> IsDigit(r[i])
    ensures r[0] == '0' ==> n == 0
  {
    if n < 10 then [DigitChar(n)] else NatToString(n / 10) + [DigitChar(n % 10)]
  }

  function DigitOf(c: char): (d: nat)
    requires IsDigit(c)
    ensures d < 10
  {
    c as int - '0' as int
  }

  /** The value of a string of decimal digits, read left to right. */
  function DigitsValue(s: string): nat
    requires forall i :: 0 <= i < |s| ==> IsDigit(s[i])
  {
    if s == [] then 0
    else DigitsValue(s[..|s| - 1]) * 10 + DigitOf(s[|s| - 1])
  }

  /** Reading back the decimal text of `n` gives `n`. */
  lemma {:induction false} NatToStringRoundTrip(n: nat)
    ensures DigitsValue(NatToString(n)) == n
  {
    var r := NatToString(n);
    if n >= 10 {
      NatToStringRoundTrip(n / 10);
      assert r[..|r| - 1] == NatToString(n / 10);
    }
  }

  /** Distinct numbers have distinct decimal texts. */
  lemma NatToStringInjective(m: nat, n: nat)
    requires NatToString(m) == NatToString(n)
    ensures m == n
  {
    NatToStringRoundTrip(m);
    NatToStringRoundTrip(n);
  }
}
