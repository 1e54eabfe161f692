/** The few operations on Python `str` values that the application relies on. */
module Text {

  /** `s.startswith(prefix)` */
  predicate StartsWith(s: string, prefix: string) {
    |prefix| <= |s| && s[..|prefix|] == prefix
  }

  /** A one-character prefix is a test of the first character. */
  lemma StartsWithChar(s: string, c: char)
    ensures StartsWith(s, [c]) <==> |s| > 0 && s[0] == c
  {
    if |s| > 0 && StartsWith(s, [c]) {
      assert s[..1][0] == s[0];
    }
  }

  /** `s.endswith(suffix)`: a plain, case-sensitive suffix test. */
  predicate EndsWith(s: string, suffix: string) {
    |suffix| <= |s| && s[|s| - |suffix|..] == suffix
  }

  /** `pattern` occurs in `s` starting at index `i`. */
  predicate OccursAt(s: string, pattern: string, i: int) {
    0 <= i && i + |pattern| <= |s| && s[i..i + |pattern|] == pattern
  }

  /** `s.replace(pattern, replacement)` for a non-empty pattern: a left-to-right scan
      that replaces non-overlapping occurrences. */
  function Replace(s: string, pattern: string, replacement: string): string
    requires |pattern| > 0
    decreases |s|
  {
    if |s| < |pattern| then s
    else if s[..|pattern|] == pattern then replacement + Replace(s[|pattern|..], pattern, replacement)
    else [s[0]] + Replace(s[1..], pattern, replacement)
  }

  /** Text in which the pattern never occurs is left unchanged. */
  lemma {:induction false} ReplaceAbsent(s: string, pattern: string, replacement: string)
    requires |pattern| > 0
    requires forall i :: !OccursAt(s, pattern, i)
    ensures Replace(s, pattern, replacement) == s
  {
    if |s| >= |pattern| {
      assert !OccursAt(s, pattern, 0);
      forall i ensures !OccursAt(s[1..], pattern, i) {
        if OccursAt(s[1..], pattern, i) {
          assert s[1..][i..i + |pattern|] == s[i + 1..i + 1 + |pattern|];
          assert OccursAt(s, pattern, i + 1);
        }
      }
      ReplaceAbsent(s[1..], pattern, replacement);
      assert [s[0]] + s[1..] == s;
    }
  }

  /** No occurrence of `pattern` starts in `s` before index `k`. */
  predicate NoneBefore(s: string, pattern: string, k: int) {
    forall i :: 0 <= i < k ==> !OccursAt(s, pattern, i)
  }

  /** The leftmost occurrence is replaced and the scan resumes right after it:
      applied repeatedly, every occurrence the scan meets is replaced. */
  lemma {:induction false} ReplaceLeftmost(pre: string, pattern: string, post: string, replacement: string)
    requires |pattern| > 0
    requires NoneBefore(pre + pattern + post, pattern, |pre|)
    ensures Replace(pre + pattern + post, pattern, replacement)
         == pre + replacement + Replace(post, pattern, replacement)
  {
    var s := pre + pattern + post;
    if pre == [] {
      assert s == pattern + post;
      assert s[..|pattern|] == pattern && s[|pattern|..] == post;
    } else {
      assert !OccursAt(s, pattern, 0);
      assert s[..|pattern|] != pattern;
      var s' := pre[1..] + pattern + post;
      assert s[1..] == s' && s[0] == pre[0];
      assert Replace(s, pattern, replacement) == [pre[0]] + Replace(s', pattern, replacement);
      ShiftNoneBefore(s, pattern, |pre|);
      ReplaceLeftmost(pre[1..], pattern, post, replacement);
      var r := Replace(post, pattern, replacement);
      calc {
        [pre[0]] + (pre[1..] + replacement + r);
        ([pre[0]] + pre[1..]) + replacement + r;
        { assert [pre[0]] + pre[1..] == pre; }
        pre + replacement + r;
      }
    }
  }

  lemma ShiftNoneBefore(s: string, pattern: string, k: int)
    requires |s| > 0 && NoneBefore(s, pattern, k)
    ensures NoneBefore(s[1..], pattern, k - 1)
  {
    forall i | 0 <= i < k - 1 ensures !OccursAt(s[1..], pattern, i) {
      assert !OccursAt(s, pattern, i + 1);
      if i + |pattern| <= |s[1..]| {
        assert s[1..][i..i + |pattern|] == s[i + 1..i + 1 + |pattern|];
      }
    }
  }

  /** A pattern that occurs exactly once, at `|pre|`, is replaced there and nowhere else. */
  lemma ReplaceOnlyOccurrence(pre: string, pattern: string, post: string, replacement: string)
    requires |pattern| > 0
    requires forall i :: OccursAt(pre + pattern + post, pattern, i) ==> i == |pre|
    ensures Replace(pre + pattern + post, pattern, replacement) == pre + replacement + post
  {
    var s := pre + pattern + post;
    forall i ensures !OccursAt(post, pattern, i) {
      if OccursAt(post, pattern, i) {
        assert s[|pre| + |pattern| + i..|pre| + |pattern| + i + |pattern|] == post[i..i + |pattern|];
        assert OccursAt(s, pattern, |pre| + |pattern| + i);
      }
    }
    ReplaceLeftmost(pre, pattern, post, replacement);
    ReplaceAbsent(post, pattern, replacement);
  }

  /** `s.replace(c, '')` deletes exactly the character `c`. */
  lemma {:induction false} RemoveCharacter(s: string, c: char)
    ensures forall x :: x in Replace(s, [c], "") <==> x in s && x != c
  {
    if |s| > 0 {
      RemoveCharacter(s[1..], c);
      assert s == [s[0]] + s[1..];
      if s[..1] == [c] {
        assert Replace(s, [c], "") == Replace(s[1..], [c], "");
      } else {
        assert Replace(s, [c], "") == [s[0]] + Replace(s[1..], [c], "");
      }
    }
  }

  // ----- decimal digits -----

  predicate IsDigit(c: char) { '0' <= c <= '9' }

  predicate AllDigits(s: string) { forall i :: 0 <= i < |s| ==> IsDigit(s[i]) }

  function DigitChar(d: nat): (c: char)
    requires d < 10
    ensures IsDigit(c)
  {
    ('0' as int + d) as char
  }

  function DigitValue(c: char): nat
    requires IsDigit(c)
  {
    c as int - '0' as int
  }

  /** The number a string of decimal digits denotes (leading zeros allowed). */
  function DecimalValue(s: string): nat
    requires AllDigits(s)
  {
    if s == [] then 0 else DecimalValue(s[..|s| - 1]) * 10 + DigitValue(s[|s| - 1])
  }

  /** `str(n)` for a non-negative integer: no sign, no leading zeros. */
  function NatToDecimal(n: nat): (r: string)
    ensures |r| > 0 && AllDigits(r)
    ensures |r| > 1 ==> r[0] != '0'
    decreases n
  {
    if n < 10 then [DigitChar(n)] else NatToDecimal(n / 10) + [DigitChar(n % 10)]
  }

  lemma {:induction false} NatToDecimalRoundTrip(n: nat)
    ensures DecimalValue(NatToDecimal(n)) == n
    decreases n
  {
    if n >= 10 {
      NatToDecimalRoundTrip(n / 10);
      var r := NatToDecimal(n);
      assert r[..|r| - 1] == NatToDecimal(n / 10);
    }
  }

  function Pow10(w: nat): (p: nat)
    ensures p >= 1
  {
    if w == 0 then 1 else 10 * Pow10(w - 1)
  }

  /** `n` written with exactly `w` digits, zero-padded on the left (strftime's `%Y`, `%m`, `%d`). */
  function FixedDigits(n: nat, w: nat): (r: string)
    requires n < Pow10(w)
    ensures |r| == w && AllDigits(r)
  {
    if w == 0 then "" else FixedDigits(n / 10, w - 1) + [DigitChar(n % 10)]
  }

  lemma {:induction false} FixedDigitsRoundTrip(n: nat, w: nat)
    requires n < Pow10(w)
    ensures DecimalValue(FixedDigits(n, w)) == n
  {
    if w > 0 {
      FixedDigitsRoundTrip(n / 10, w - 1);
      var r := FixedDigits(n, w);
      assert r[..|r| - 1] == FixedDigits(n / 10, w - 1);
    }
  }

  // ----- lines -----

  /** The position of the first line feed, or the length when there is none. */
  function FirstLineFeed(s: string): (i: nat)
    ensures i <= |s| && (i < |s| ==> s[i] == '\n')
    ensures forall j :: 0 <= j < i ==> s[j] != '\n'
  {
    if s == [] || s[0] == '\n' then 0 else 1 + FirstLineFeed(s[1..])
  }

  /** The lines of a text, each without its line feed; a final line feed ends
      the last line rather than starting an empty one. */
  function Lines(s: string): seq<string>
    decreases |s|
  {
    if s == [] then []
    else
      var i := FirstLineFeed(s);
      [s[..i]] + (if i < |s| then Lines(s[i + 1..]) else [])
  }

  /** A line without a line feed, then its line feed, is the first line. */
  lemma LinesCons(x: string, rest: string)
    requires '\n' !in x
    ensures Lines(x + "\n" + rest) == [x] + Lines(rest)
  {
    var s := x + "\n" + rest;
    assert s[|x|] == '\n';
    assert forall j :: 0 <= j < |x| ==> s[j] == x[j];
    assert FirstLineFeed(s) == |x|;
    assert s[..|x|] == x && s[|x| + 1..] == rest;
  }
}
