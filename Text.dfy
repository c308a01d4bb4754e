/** The string operations the pages rely on: ordinal case-insensitive search,
    `string.IsNullOrWhiteSpace` and the decimal form of an `int`. */
module Text {

  /** Folds one character for an ordinal case-insensitive comparison (ASCII letters only). */
  function FoldChar(c: char): char
  {
    if 'a' <= c <= 'z' then (c as int - 32) as char else c
  }

  /** Folds every character of `s`. */
  function Fold(s: string): string
  {
    seq(|s|, i requires 0 <= i < |s| => FoldChar(s[i]))
  }

  /** `a` occurs in `b` as a contiguous block: the search `b.Contains(a)` performs. */
  predicate IsSubstring(a: string, b: string)
    decreases |b|
  {
    |a| <= |b| && (b[..|a|] == a || (|b| > 0 && IsSubstring(a, b[1..])))
  }

  /** A copy of `a` starts at position `i` of `b`. */
  predicate OccursAt(a: string, b: string, i: int)
  {
    0 <= i <= |b| - |a| && b[i..i + |a|] == a
  }

  /** The search finds `a` exactly when some position of `b` starts a copy of `a`. */
  lemma {:induction false} IsSubstringIff(a: string, b: string)
    ensures IsSubstring(a, b) <==> exists i :: OccursAt(a, b, i)
    decreases |b|
  {
    if |a| <= |b| && b[..|a|] == a {
      assert OccursAt(a, b, 0);
    } else if |a| <= |b| && |b| > 0 {
      IsSubstringIff(a, b[1..]);
      if IsSubstring(a, b[1..]) {
        var i :| OccursAt(a, b[1..], i);
        assert b[1..][i..i + |a|] == b[i + 1..i + 1 + |a|];
        assert OccursAt(a, b, i + 1);
      }
      if exists i :: OccursAt(a, b, i) {
        var i :| OccursAt(a, b, i);
        assert i != 0;
        assert b[1..][i - 1..i - 1 + |a|] == b[i..i + |a|];
        assert OccursAt(a, b[1..], i - 1);
      }
    }
  }

  /** C#'s `s.Contains(value, StringComparison.OrdinalIgnoreCase)`. */
  predicate ContainsIgnoreCase(s: string, value: string)
  {
    IsSubstring(Fold(value), Fold(s))
  }

  /** The block of `s` starting at `i` equals `value` up to letter case. */
  predicate MatchesAt(s: string, value: string, i: int)
  {
    0 <= i <= |s| - |value| && Fold(s[i..i + |value|]) == Fold(value)
  }

  /** The case-insensitive search finds `value` exactly when some block of `s` equals it up to letter case. */
  lemma ContainsIgnoreCaseIff(s: string, value: string)
    ensures ContainsIgnoreCase(s, value) <==> exists i :: MatchesAt(s, value, i)
  {
    IsSubstringIff(Fold(value), Fold(s));
    forall i | 0 <= i <= |s| - |value|
      ensures OccursAt(Fold(value), Fold(s), i) <==> MatchesAt(s, value, i)
    {
      assert Fold(s)[i..i + |value|] == Fold(s[i..i + |value|]);
    }
  }

  /** Every string contains the empty string. */
  lemma ContainsEmpty(s: string)
    ensures ContainsIgnoreCase(s, "")
  {
  }

  /** A text longer than `s` never occurs in it. */
  lemma LongerIsNotContained(s: string, value: string)
    requires |value| > |s|
    ensures !ContainsIgnoreCase(s, value)
  {
  }

  /** Every text contains itself. */
  lemma ContainsItself(s: string)
    ensures ContainsIgnoreCase(s, s)
  {
    assert Fold(s)[..|Fold(s)|] == Fold(s);
  }

  /** Changing the letter case of the searched-for text does not change the outcome. */
  lemma ContainsIgnoresQueryCase(s: string, value: string)
    ensures ContainsIgnoreCase(s, Fold(value)) == ContainsIgnoreCase(s, value)
  {
    assert Fold(Fold(value)) == Fold(value);
  }

  /** `char.IsWhiteSpace`: the Unicode space, line and paragraph separators and the
      control characters U+0009 to U+000D and U+0085. */
  predicate IsWhiteSpace(c: char)
  {
    || '\U{0009}' <= c <= '\U{000D}' || c == '\U{0020}' || c == '\U{0085}' || c == '\U{00A0}'
    || c == '\U{1680}' || '\U{2000}' <= c <= '\U{200A}' || c == '\U{2028}' || c == '\U{2029}'
    || c == '\U{202F}' || c == '\U{205F}' || c == '\U{3000}'
  }

  /** `string.IsNullOrWhiteSpace` on a non-null string: empty, or white space only. */
  predicate IsNullOrWhiteSpace(s: string)
  {
    forall i :: 0 <= i < |s| ==> IsWhiteSpace(s[i])
  }

  function DigitChar(d: int): char
    requires 0 <= d < 10
  {
    ('0' as int + d) as char
  }

  predicate IsDigit(c: char)
  {
    '0' <= c <= '9'
  }

  /** The decimal digits of a natural number, most significant first, without leading zeros. */
  function NatToString(n: nat): (r: string)
    ensures |r| > 0 && forall i :: 0 <= i < |r| ==> IsDigit(r[i])
    decreases n
  {
    if n < 10 then [DigitChar(n)] else NatToString(n / 10) + [DigitChar(n % 10)]
  }

  /** `int.ToString()`: the decimal form, with a leading '-' when negative. */
  function IntToString(n: int): string
  {
    if n < 0 then "-" + NatToString(-n) else NatToString(n)
  }

  /** Reads a string of decimal digits back as a number. */
  function ParseDigits(s: string): int
    decreases |s|
  {
    if s == [] then 0
    else 10 * ParseDigits(s[..|s| - 1]) + (s[|s| - 1] as int - '0' as int)
  }

  /** Reads an optionally negative decimal number. */
  function ParseInt(s: string): int
  {
    if |s| > 0 && s[0] == '-' then -ParseDigits(s[1..]) else ParseDigits(s)
  }

  lemma {:induction false} ParseNatToString(n: nat)
    ensures ParseDigits(NatToString(n)) == n
    decreases n
  {
    if n >= 10 {
      ParseNatToString(n / 10);
      var s := NatToString(n);
      assert s[..|s| - 1] == NatToString(n / 10);
    }
  }

  /** Parsing undoes `IntToString`. */
  lemma ParseIntToString(n: int)
    ensures ParseInt(IntToString(n)) == n
  {
    if n < 0 {
      ParseNatToString(-n);
      assert ("-" + NatToString(-n))[1..] == NatToString(-n);
    } else {
      ParseNatToString(n);
      assert IsDigit(NatToString(n)[0]);
    }
  }

  /** Distinct numbers have distinct decimal forms, so a query equals the decimal form of at most one number. */
  lemma IntToStringInjective(a: int, b: int)
    requires IntToString(a) == IntToString(b)
    ensures a == b
  {
    ParseIntToString(a);
    ParseIntToString(b);
  }
}
