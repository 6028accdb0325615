/**
 * The few `java.lang.String` operations the query builder relies on, over `string` (`seq<char>`):
 * `contains`, `replace(CharSequence, CharSequence)` and `String.valueOf(int)`.
 */
module Strings {

  /** `sub` occurs in `s` starting at index `i`. */
  predicate OccursAt(s: string, sub: string, i: nat) {
    i + |sub| <= |s| && s[i..i + |sub|] == sub
  }

  /** `s.contains(sub)`: true for the empty `sub`, as in Java. */
  function Contains(s: string, sub: string): bool
    decreases |s|
  {
    if |sub| > |s| then false
    else if sub <= s then true
    else Contains(s[1..], sub)
  }

  /** The scan in `Contains` finds an occurrence exactly when there is one at some index. */
  lemma {:induction false} ContainsIff(s: string, sub: string)
    ensures Contains(s, sub) <==> exists i: nat :: OccursAt(s, sub, i)
    decreases |s|
  {
    if |sub| > |s| {
      forall i: nat ensures !OccursAt(s, sub, i) { }
    } else if sub <= s {
      assert OccursAt(s, sub, 0);
    } else {
      ContainsIff(s[1..], sub);
      assert !OccursAt(s, sub, 0);
      forall i: nat | 1 <= i ensures OccursAt(s, sub, i) == OccursAt(s[1..], sub, i - 1) {
        if i + |sub| <= |s| {
          var tail := s[1..];
          assert tail[i - 1..i - 1 + |sub|] == s[i..i + |sub|];
        }
      }
      if Contains(s[1..], sub) {
        var j: nat :| OccursAt(s[1..], sub, j);
        assert OccursAt(s, sub, j + 1);
      } else {
        forall i: nat ensures !OccursAt(s, sub, i) {
          if i > 0 {
            assert !OccursAt(s[1..], sub, i - 1);
          }
        }
      }
    }
  }

  /** A pattern with a character that `s` lacks does not occur in `s`. */
  lemma MissingCharNotContained(s: string, pat: string, k: nat)
    requires k < |pat| && pat[k] !in s
    ensures !Contains(s, pat)
  {
    forall i: nat ensures !OccursAt(s, pat, i) {
      if i + |pat| <= |s| {
        assert s[i..i + |pat|][k] == s[i + k];
      }
    }
    ContainsIff(s, pat);
  }

  /** Wrapping a value in a quote character that the pattern lacks adds no occurrence. */
  lemma WrappedNotContained(v: string, pat: string, q: char)
    requires |pat| > 0 && q !in pat && !Contains(v, pat)
    ensures !Contains([q] + v + [q], pat)
  {
    ContainsIff(v, pat);
    forall i: nat ensures !OccursAt([q] + v + [q], pat, i) {
      WrappedNoOccurrenceAt(v, pat, q, i);
    }
    ContainsIff([q] + v + [q], pat);
  }

  lemma WrappedNoOccurrenceAt(v: string, pat: string, q: char, i: nat)
    requires |pat| > 0 && q !in pat && forall j: nat :: !OccursAt(v, pat, j)
    ensures !OccursAt([q] + v + [q], pat, i)
  {
    var w := [q] + v + [q];
    if i + |pat| <= |w| {
      if i == 0 {
        assert w[i..i + |pat|][0] == q;
      } else if i + |pat| == |w| {
        assert w[i..i + |pat|][|pat| - 1] == q;
      } else {
        WrappedSlice(v, q, i, |pat|);
        assert !OccursAt(v, pat, i - 1);
      }
    }
  }

  /** Inside the quotes, a slice of the wrapped value is a slice of the value one place left. */
  lemma WrappedSlice(v: string, q: char, i: nat, n: nat)
    requires 1 <= i && i + n <= |v| + 1
    ensures ([q] + v + [q])[i..i + n] == v[i - 1..i - 1 + n]
  {
    var w := [q] + v + [q];
    assert w[1..|v| + 1] == v;
    assert w[i..i + n] == w[1..|v| + 1][i - 1..i - 1 + n];
  }

  /**
   * `s.replace(pat, rep)`: every non-overlapping occurrence of `pat`, scanning left to right,
   * is replaced by `rep`. An empty `pat` puts `rep` before every character and at the end,
   * as Java does.
   */
  function ReplaceAll(s: string, pat: string, rep: string): string
    decreases |s|
  {
    if |pat| == 0 then
      if |s| == 0 then rep else rep + [s[0]] + ReplaceAll(s[1..], pat, rep)
    else if |s| == 0 then []
    else if pat <= s then rep + ReplaceAll(s[|pat|..], pat, rep)
    else [s[0]] + ReplaceAll(s[1..], pat, rep)
  }

  /** Replacing a pattern that does not occur leaves the string as it is. */
  lemma {:induction false} ReplaceAbsent(s: string, pat: string, rep: string)
    requires |pat| > 0 && !Contains(s, pat)
    ensures ReplaceAll(s, pat, rep) == s
    decreases |s|
  {
    if |s| > 0 {
      assert !(pat <= s);
      assert !Contains(s[1..], pat);
      ReplaceAbsent(s[1..], pat, rep);
    }
  }

  /** A prefix that does not hold the pattern's first character is copied unchanged. */
  lemma {:induction false} ReplaceSkip(a: string, b: string, pat: string, rep: string)
    requires |pat| > 0 && pat[0] !in a
    ensures ReplaceAll(a + b, pat, rep) == a + ReplaceAll(b, pat, rep)
    decreases |a|
  {
    if |a| > 0 {
      assert (a + b)[0] == a[0];
      assert (a + b)[1..] == a[1..] + b;
      ReplaceSkip(a[1..], b, pat, rep);
    } else {
      assert a + b == b;
    }
  }

  /** A template `a + pat + b` with a single placeholder becomes `a + rep + b`. */
  lemma ReplaceFill(a: string, b: string, pat: string, rep: string)
    requires |pat| > 0 && pat[0] !in a && !Contains(b, pat)
    ensures ReplaceAll(a + pat + b, pat, rep) == a + rep + b
  {
    assert a + pat + b == a + (pat + b);
    ReplaceSkip(a, pat + b, pat, rep);
    ReplaceConsumesMatch(b, pat, rep);
    ReplaceAbsent(b, pat, rep);
    assert a + (rep + b) == a + rep + b;
  }

  /**
   * Filling a template `a + pat + b` whose one placeholder `pat` is recognised by its first
   * character not occurring in `a` and by its `k`-th character not occurring in `b`.
   */
  lemma ReplacePlaceholder(template: string, a: string, pat: string, b: string, rep: string, k: nat)
    requires template == a + pat + b
    requires |pat| > 0 && pat[0] !in a && k < |pat| && pat[k] !in b
    ensures ReplaceAll(template, pat, rep) == a + rep + b
  {
    MissingCharNotContained(b, pat, k);
    ReplaceFill(a, b, pat, rep);
  }

  /**
   * A match at the scan position is consumed whole: the scan resumes after it, so the next
   * replaced occurrence cannot overlap it.
   */
  lemma ReplaceConsumesMatch(s: string, pat: string, rep: string)
    requires |pat| > 0
    ensures ReplaceAll(pat + s, pat, rep) == rep + ReplaceAll(s, pat, rep)
  {
    assert pat <= pat + s;
    assert (pat + s)[|pat|..] == s;
  }

  /** The example of the `String.replace` documentation: `"aaa".replace("aa", "b")` is `"ba"`. */
  lemma ReplaceLeftToRight()
    ensures ReplaceAll("aaa", "aa", "b") == "ba"
  {
    assert "aa" <= "aaa";
    assert "aaa"[2..] == "a";
    assert !("aa" <= "a");
    assert "a"[1..] == "";
  }

  /** Java's 32-bit `int`. */
  newtype Int32 = x: int | -0x8000_0000 <= x < 0x8000_0000

  predicate IsDigit(c: char) {
    '0' <= c <= '9'
  }

  function DigitChar(d: nat): (c: char)
    requires d < 10
    ensures IsDigit(c) && c as int - '0' as int == d
  {
    ('0' as int + d) as char
  }

  /** Decimal digits of `n`, most significant first, without leading zeros. */
  function NatToString(n: nat): (r: string)
    ensures |r| > 0 && (forall k :: 0 <= k < |r| ==> IsDigit(r[k]))
    ensures r[0] == '0' ==> n == 0
    decreases n
  {
    if n < 10 then [DigitChar(n)] else NatToString(n / 10) + [DigitChar(n % 10)]
  }

  /** The value of a string of decimal digits. */
  function ParseNat(s: string): nat
    requires forall k :: 0 <= k < |s| ==> IsDigit(s[k])
  {
    if s == [] then 0
    else
      assert IsDigit(s[|s| - 1]);
      ParseNat(s[..|s| - 1]) * 10 + (s[|s| - 1] as int - '0' as int)
  }

  lemma {:induction false} ParseNatToString(n: nat)
    ensures ParseNat(NatToString(n)) == n
    decreases n
  {
    if n >= 10 {
      var s := NatToString(n);
      assert s[..|s| - 1] == NatToString(n / 10);
      ParseNatToString(n / 10);
    }
  }

  /** `String.valueOf(int)`: an optional minus sign followed by the digits of the magnitude. */
  function IntToString(n: Int32): (r: string)
    ensures |r| > 0 && (forall k :: 0 <= k < |r| ==> IsDigit(r[k]) || r[k] == '-')
    ensures (r[0] == '-') == (n < 0)
  {
    if n < 0 then "-" + NatToString(-(n as int)) else NatToString(n as int)
  }

  /** Inverse of `IntToString` on the strings it produces. */
  function ParseInt(s: string): int
    requires forall k :: 0 <= k < |s| ==> IsDigit(s[k]) || s[k] == '-'
    requires forall k :: 1 <= k < |s| ==> IsDigit(s[k])
  {
    if |s| > 0 && s[0] == '-' then -(ParseNat(s[1..]) as int) else ParseNat(s)
  }

  /** `String.valueOf(int)` loses nothing: the printed number reads back as the same value. */
  lemma IntToStringRoundTrip(n: Int32)
    ensures ParseInt(IntToString(n)) == n as int
  {
    if n < 0 {
      var digits := NatToString(-(n as int));
      assert IntToString(n)[1..] == digits;
      ParseNatToString(-(n as int));
    } else {
      ParseNatToString(n as int);
    }
  }
}
