/**
  The string operations the agent, the canister and the animation server rely on:
  case mapping, substring tests, Python's whitespace, `len(s.split())`,
  `str.isupper()`, `str.strip()`, and decimal rendering of a number.
  Case mapping covers the ASCII letters only.
 */
module Text {

  /** Python's `str.isspace()` for one character; `split()` and `strip()` use the same set. */
  predicate IsSpace(c: char) {
    ('\t' <= c <= '\r') || ('\U{1c}' <= c <= '\U{1f}') || c == ' ' || c == '\U{85}' || c == '\U{a0}'
    || c == '\U{1680}' || ('\U{2000}' <= c <= '\U{200a}') || c == '\U{2028}' || c == '\U{2029}'
    || c == '\U{202f}' || c == '\U{205f}' || c == '\U{3000}'
  }

  predicate IsUpperLetter(c: char) { 'A' <= c <= 'Z' }

  predicate IsLowerLetter(c: char) { 'a' <= c <= 'z' }

  function LowerChar(c: char): (d: char)
    ensures !IsUpperLetter(d)
    ensures IsUpperLetter(c) ==> IsLowerLetter(d) && d as int - 'a' as int == c as int - 'A' as int
    ensures !IsUpperLetter(c) ==> d == c
  {
    if IsUpperLetter(c) then ((c as int) + 32) as char else c
  }

  /** `s.lower()` (Python) and `s.to_lowercase()` (Rust), on ASCII letters. */
  function Lower(s: string): (r: string)
    ensures |r| == |s|
    ensures forall i | 0 <= i < |s| :: r[i] == LowerChar(s[i])
  {
    seq(|s|, i requires 0 <= i < |s| => LowerChar(s[i]))
  }

  /** A string without upper-case letters is its own lower case. */
  lemma LowerUnchanged(s: string)
    requires forall i | 0 <= i < |s| :: !IsUpperLetter(s[i])
    ensures Lower(s) == s
  {
  }

  lemma LowerIdempotent(s: string)
    ensures Lower(Lower(s)) == Lower(s)
  {
    var l := Lower(s);
    assert forall i | 0 <= i < |l| :: Lower(l)[i] == l[i];
  }

  /** `sub in s` for two strings in Python: `sub` occurs in `s` as a contiguous part. */
  predicate Contains(s: string, sub: string) {
    exists i | 0 <= i <= |s| - |sub| :: OccursAt(s, sub, i)
  }

  predicate OccursAt(s: string, sub: string, i: nat) {
    i + |sub| <= |s| && s[i..i + |sub|] == sub
  }

  /** A string contains every contiguous part of each of its parts. */
  lemma ContainsTransitive(s: string, mid: string, sub: string)
    requires Contains(s, mid) && Contains(mid, sub)
    ensures Contains(s, sub)
  {
    var i :| 0 <= i <= |s| - |mid| && OccursAt(s, mid, i);
    var j :| 0 <= j <= |mid| - |sub| && OccursAt(mid, sub, j);
    var part := s[i + j..i + j + |sub|];
    forall k | 0 <= k < |sub| ensures part[k] == sub[k] {
      assert sub[k] == mid[j + k] == s[i + j + k];
    }
    assert part == sub;
    assert OccursAt(s, sub, i + j);
  }

  /** True at `i` when a word of `s` starts there (a non-space preceded by a space or by nothing). */
  predicate WordStartsAt(s: string, i: nat)
    requires i < |s|
  {
    !IsSpace(s[i]) && (i == 0 || IsSpace(s[i - 1]))
  }

  /** `len(s.split())`: the number of maximal runs of non-whitespace characters. */
  function WordCount(s: string): (n: nat)
    ensures n <= |s|
    decreases |s|
  {
    if |s| == 0 then 0
    else WordCount(s[..|s| - 1]) + (if WordStartsAt(s, |s| - 1) then 1 else 0)
  }

  /** A string without whitespace is one word, or none when it is empty. */
  lemma {:induction false} WordCountNoSpace(s: string)
    requires forall i | 0 <= i < |s| :: !IsSpace(s[i])
    ensures WordCount(s) == if |s| == 0 then 0 else 1
    decreases |s|
  {
    if |s| > 1 {
      WordCountNoSpace(s[..|s| - 1]);
    }
  }

  /** A string of whitespace only has no words. */
  lemma {:induction false} WordCountAllSpace(s: string)
    requires forall i | 0 <= i < |s| :: IsSpace(s[i])
    ensures WordCount(s) == 0
    decreases |s|
  {
    if |s| > 0 {
      WordCountAllSpace(s[..|s| - 1]);
    }
  }

  /** Words on either side of a whitespace character are counted apart: the counts add up. */
  lemma {:induction false} WordCountSplit(a: string, c: char, b: string)
    requires IsSpace(c)
    ensures WordCount(a + [c] + b) == WordCount(a) + WordCount(b)
    decreases |b|
  {
    var s := a + [c] + b;
    if |b| == 0 {
      assert s[..|s| - 1] == a;
    } else {
      var init := b[..|b| - 1];
      assert s[..|s| - 1] == a + [c] + init;
      WordCountSplit(a, c, init);
      assert s[|s| - 1] == b[|b| - 1];
      if |b| == 1 {
        assert s[|s| - 2] == c;
      } else {
        assert s[|s| - 2] == b[|b| - 2];
      }
    }
  }

  /** `s.isupper()`: some letter is upper case and none is lower case. */
  function IsUpper(s: string): (r: bool)
    ensures r ==> |s| > 0
    ensures r <==> Lower(s) != s && forall i | 0 <= i < |s| :: !IsLowerLetter(s[i])
  {
    assert (exists i | 0 <= i < |s| :: IsUpperLetter(s[i])) <==> Lower(s) != s by {
      if Lower(s) != s {
        var i :| 0 <= i < |s| && Lower(s)[i] != s[i];
      }
    }
    (exists i | 0 <= i < |s| :: IsUpperLetter(s[i])) && (forall i | 0 <= i < |s| :: !IsLowerLetter(s[i]))
  }

  /** `s.lstrip()`: what is left after the leading whitespace. */
  function TrimStart(s: string): (r: string)
    ensures |r| <= |s| && r == s[|s| - |r|..]
    ensures r == [] || !IsSpace(r[0])
    ensures forall i | 0 <= i < |s| - |r| :: IsSpace(s[i])
    decreases |s|
  {
    if |s| > 0 && IsSpace(s[0]) then TrimStart(s[1..]) else s
  }

  /** `s.rstrip()`: what is left after the trailing whitespace. */
  function TrimEnd(s: string): (r: string)
    ensures |r| <= |s| && r == s[..|r|]
    ensures r == [] || !IsSpace(r[|r| - 1])
    ensures forall i | |r| <= i < |s| :: IsSpace(s[i])
    decreases |s|
  {
    if |s| > 0 && IsSpace(s[|s| - 1]) then TrimEnd(s[..|s| - 1]) else s
  }

  /** `r` stands at `a` in `s`, with only whitespace before and after it. */
  predicate StrippedAt(s: string, r: string, a: nat) {
    a + |r| <= |s| && r == s[a..a + |r|]
    && (forall i | 0 <= i < a :: IsSpace(s[i]))
    && (forall i | a + |r| <= i < |s| :: IsSpace(s[i]))
  }

  /** `s.strip()`: `s` without its leading and trailing whitespace. */
  function Strip(s: string): (r: string)
    ensures exists a | 0 <= a <= |s| - |r| :: StrippedAt(s, r, a)
    ensures r == [] || (!IsSpace(r[0]) && !IsSpace(r[|r| - 1]))
  {
    TrimmedIsStripped(s);
    TrimStart(TrimEnd(s))
  }

  /** Trimming the end and then the start leaves a part of `s` with only whitespace around it. */
  lemma TrimmedIsStripped(s: string)
    ensures var e := TrimEnd(s); var r := TrimStart(e);
      StrippedAt(s, r, |e| - |r|)
  {
    var e := TrimEnd(s);
    var r := TrimStart(e);
    var a := |e| - |r|;
    forall k | 0 <= k < |r| ensures r[k] == s[a + k] {
      assert r[k] == e[a + k] == s[a + k];
    }
    assert r == s[a..a + |r|];
    forall i | 0 <= i < a ensures IsSpace(s[i]) {
      assert s[i] == e[i];
    }
  }

  function DigitChar(d: nat): (c: char)
    requires d < 10
    ensures '0' <= c <= '9'
  {
    ((d + 48) as char)
  }

  /** `format!("{}", n)`: the decimal digits of `n`, most significant first. */
  function Decimal(n: nat): (r: string)
    ensures |r| > 0
    ensures forall i | 0 <= i < |r| :: '0' <= r[i] <= '9'
    ensures n > 0 ==> r[0] != '0'
    decreases n
  {
    if n < 10 then [DigitChar(n)] else Decimal(n / 10) + [DigitChar(n % 10)]
  }

  /** The number a string of decimal digits denotes. */
  function DecimalValue(s: string): nat
    requires forall i | 0 <= i < |s| :: '0' <= s[i] <= '9'
    decreases |s|
  {
    if |s| == 0 then 0 else 10 * DecimalValue(s[..|s| - 1]) + ((s[|s| - 1] as int) - 48)
  }

  /** Reading back a rendered number gives the number. */
  lemma {:induction false} DecimalRoundTrip(n: nat)
    ensures DecimalValue(Decimal(n)) == n
    decreases n
  {
    if n >= 10 {
      DecimalRoundTrip(n / 10);
      var r := Decimal(n);
      assert r[..|r| - 1] == Decimal(n / 10);
    }
  }
}
