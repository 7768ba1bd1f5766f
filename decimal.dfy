/**
  Decimal text of non-negative integers: what Python's `int(...)` reads from a
  string of ASCII digits and what an f-string writes for an `int`.
  The `Retry-After` header value is read with the first, status codes and wait
  times are written into log lines with the second.
 */
module Decimal {

  predicate IsDigit(c: char) {
    '0' <= c <= '9'
  }

  predicate IsDigits(s: string) {
    forall i :: 0 <= i < |s| ==> IsDigit(s[i])
  }

  /** The delay-seconds form of `Retry-After` (section 10.2.3 of RFC 9110): one or more digits. */
  predicate IsDelaySeconds(s: string) {
    |s| > 0 && IsDigits(s)
  }

  /** No leading zero: the form in which Python writes an `int`. */
  predicate IsCanonical(s: string) {
    IsDelaySeconds(s) && (s[0] != '0' || |s| == 1)
  }

  function DigitValue(c: char): (d: nat)
    requires IsDigit(c)
    ensures d < 10
  {
    (c as int - '0' as int) as nat
  }

  function DigitChar(d: nat): (c: char)
    requires d < 10
    ensures IsDigit(c) && DigitValue(c) == d
  {
    ('0' as int + d) as char
  }

  /** The number a digit string denotes, most significant digit first (leading zeros allowed). */
  function Value(s: string): (v: nat)
    requires IsDigits(s)
    ensures v < Pow10(|s|)
  {
    if s == [] then 0 else Value(s[..|s| - 1]) * 10 + DigitValue(s[|s| - 1])
  }

  function Pow10(k: nat): (p: nat)
    ensures p >= 1
  {
    if k == 0 then 1 else 10 * Pow10(k - 1)
  }

  /** The decimal text of `n`, as Python's `str(n)` writes it. */
  function Text(n: nat): (s: string)
    ensures IsCanonical(s)
  {
    if n < 10 then [DigitChar(n)] else Text(n / 10) + [DigitChar(n % 10)]
  }

  /** Reading back the text of a number gives that number. */
  lemma {:induction false} ValueOfText(n: nat)
    ensures Value(Text(n)) == n
  {
    var s := Text(n);
    if n >= 10 {
      assert s[..|s| - 1] == Text(n / 10);
      ValueOfText(n / 10);
    }
  }

  /** A string of two or more digits without a leading zero denotes at least 10. */
  lemma {:induction false} CanonicalValueBound(s: string)
    requires IsCanonical(s) && |s| >= 2
    ensures Value(s) >= 10
  {
    var p := s[..|s| - 1];
    assert p[0] == s[0];
    if |p| >= 2 {
      CanonicalValueBound(p);
    } else {
      assert Value(p) == Value(p[..0]) * 10 + DigitValue(p[0]);
      assert p[..0] == [];
    }
  }

  /** Writing out the number a canonical digit string denotes gives back that string. */
  lemma {:induction false} TextOfValue(s: string)
    requires IsCanonical(s)
    ensures Text(Value(s)) == s
  {
    var p := s[..|s| - 1];
    var d := DigitValue(s[|s| - 1]);
    if |s| == 1 {
      assert p == [];
      assert Value(s) == d;
      assert [DigitChar(d)] == s;
    } else {
      CanonicalValueBound(s);
      assert p[0] == s[0];
      if |p| >= 2 {
        CanonicalValueBound(p);
      } else {
        assert p[..0] == [];
        assert Value(p) == DigitValue(p[0]);
      }
      assert Value(p) > 0;
      assert Value(s) / 10 == Value(p) && Value(s) % 10 == d;
      TextOfValue(p);
      assert DigitChar(d) == s[|s| - 1];
      assert s == p + [s[|s| - 1]];
    }
  }

  /** A number written between a prefix and a suffix can be read back from between them. */
  lemma FramedValue(prefix: string, n: nat, suffix: string)
    ensures var m := prefix + Text(n) + suffix;
            |prefix| + |suffix| <= |m| &&
            IsDigits(m[|prefix|..|m| - |suffix|]) &&
            Value(m[|prefix|..|m| - |suffix|]) == n
  {
    var m := prefix + Text(n) + suffix;
    assert m[|prefix|..|m| - |suffix|] == Text(n);
    ValueOfText(n);
  }
}
