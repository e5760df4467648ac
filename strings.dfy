/** The few JavaScript string operations the application relies on: `startsWith`,
    `includes`, `trim` and the decimal rendering of an integer inside a template literal. */
module Strings {

  /** `s.startsWith(p)` */
  predicate StartsWith(s: string, p: string)
  {
    |p| <= |s| && s[..|p|] == p
  }

  /** `t` occurs in `s` starting at index `i`. */
  predicate OccursAt(s: string, t: string, i: int)
  {
    0 <= i <= |s| - |t| && s[i..i + |t|] == t
  }

  /** `s.includes(t)` */
  predicate Contains(s: string, t: string)
  {
    exists i :: 0 <= i <= |s| - |t| && OccursAt(s, t, i)
  }

  lemma StartsWithContains(s: string, t: string)
    requires StartsWith(s, t)
    ensures Contains(s, t)
  {
    assert OccursAt(s, t, 0);
  }

  lemma AppendAssoc(a: string, b: string, c: string)
    ensures (a + b) + c == a + (b + c)
  {
  }

  /** A prefix of `y` is a prefix of any extension of `y`. */
  lemma StartsWithAppend(y: string, p: string, z: string)
    requires StartsWith(y, p)
    ensures StartsWith(y + z, p)
  {
    assert (y + z)[..|p|] == y[..|p|];
  }

  /** Prepending the same text keeps a prefix a prefix. */
  lemma StartsWithExtend(x: string, y: string, p: string)
    requires StartsWith(y, p)
    ensures StartsWith(x + y, x + p)
  {
    assert (x + y)[..|x + p|] == x + y[..|p|];
  }

  /** A string lacking one of the characters of `t` cannot contain `t`. */
  lemma NotContainsMissingChar(s: string, t: string, k: nat)
    requires k < |t| && t[k] !in s
    ensures !Contains(s, t)
  {
    forall i | 0 <= i <= |s| - |t| ensures !OccursAt(s, t, i) {
      assert s[i..i + |t|][k] == s[i + k];
    }
  }

  /** An occurrence in a slice is an occurrence in the whole string. */
  lemma ContainsInSlice(s: string, lo: nat, hi: nat, t: string)
    requires lo <= hi <= |s|
    ensures Contains(s[lo..hi], t) ==> Contains(s, t)
  {
    forall i | 0 <= i <= |s[lo..hi]| - |t| && OccursAt(s[lo..hi], t, i)
      ensures OccursAt(s, t, lo + i)
    {
      forall j | 0 <= j < |t| ensures s[lo + i..lo + i + |t|][j] == t[j] {
        assert s[lo..hi][i..i + |t|][j] == t[j];
      }
    }
  }

  /** A string containing `t` contains every prefix of `t`. */
  lemma ContainsPrefixOfPattern(s: string, t: string, p: nat)
    requires p <= |t|
    ensures Contains(s, t) ==> Contains(s, t[..p])
  {
    forall i | 0 <= i <= |s| - |t| && OccursAt(s, t, i) ensures OccursAt(s, t[..p], i) {
      assert s[i..i + p] == s[i..i + |t|][..p];
    }
  }

  // ---------------------------------------------------------------------------
  // String.prototype.trim

  /** The characters `trim` removes: ECMAScript WhiteSpace and LineTerminator. */
  predicate IsSpace(c: char)
  {
    c == ' ' || c == '\t' || c == '\n' || c == '\r' || c == '\U{000B}' || c == '\U{000C}'
    || c == '\U{00A0}' || c == '\U{1680}' || ('\U{2000}' <= c <= '\U{200A}')
    || c == '\U{2028}' || c == '\U{2029}' || c == '\U{202F}' || c == '\U{205F}'
    || c == '\U{3000}' || c == '\U{FEFF}'
  }

  /** Neither end of `s` is a space. */
  predicate Trimmed(s: string)
  {
    s == [] || (!IsSpace(s[0]) && !IsSpace(s[|s| - 1]))
  }

  /** `trimStart`: drops the leading spaces. */
  function TrimStart(s: string): string
  {
    if |s| > 0 && IsSpace(s[0]) then TrimStart(s[1..]) else s
  }

  /** What `TrimStart` keeps is a suffix of `s` that does not start with a space, and only
      spaces were dropped. */
  lemma {:induction false} TrimStartKeepsSuffix(s: string)
    ensures |TrimStart(s)| <= |s| && TrimStart(s) == s[|s| - |TrimStart(s)|..]
    ensures TrimStart(s) == [] || !IsSpace(TrimStart(s)[0])
    ensures forall k :: 0 <= k < |s| - |TrimStart(s)| ==> IsSpace(s[k])
  {
    if |s| > 0 && IsSpace(s[0]) {
      TrimStartKeepsSuffix(s[1..]);
      assert forall k :: 1 <= k < |s| ==> s[1..][k - 1] == s[k];
    }
  }

  /** `trimEnd`: drops the trailing spaces. */
  function TrimEnd(s: string): string
  {
    if |s| > 0 && IsSpace(s[|s| - 1]) then TrimEnd(s[..|s| - 1]) else s
  }

  /** What `TrimEnd` keeps is a prefix of `s` that does not end with a space, and only spaces
      were dropped. */
  lemma {:induction false} TrimEndKeepsPrefix(s: string)
    ensures |TrimEnd(s)| <= |s| && TrimEnd(s) == s[..|TrimEnd(s)|]
    ensures TrimEnd(s) == [] || !IsSpace(TrimEnd(s)[|TrimEnd(s)| - 1])
    ensures forall k :: |TrimEnd(s)| <= k < |s| ==> IsSpace(s[k])
  {
    if |s| > 0 && IsSpace(s[|s| - 1]) {
      TrimEndKeepsPrefix(s[..|s| - 1]);
      assert forall k :: 0 <= k < |s| - 1 ==> s[..|s| - 1][k] == s[k];
    }
  }

  /** `s.trim()` */
  function Trim(s: string): (r: string)
  {
    TrimEnd(TrimStart(s))
  }

  /** `trim` returns a slice of its input with no space at either end. */
  lemma TrimIsTrimmedSlice(s: string)
    ensures Trimmed(Trim(s))
    ensures exists lo, hi :: 0 <= lo <= hi <= |s| && Trim(s) == s[lo..hi]
  {
    var a := TrimStart(s);
    TrimStartKeepsSuffix(s);
    var lo := |s| - |a|;
    var b := TrimEnd(a);
    TrimEndKeepsPrefix(a);
    if b != [] {
      assert b[0] == a[0];
    }
    assert b == s[lo..lo + |b|];
  }

  /** `trim` leaves an already trimmed string alone. */
  lemma TrimOfTrimmed(s: string)
    requires Trimmed(s)
    ensures Trim(s) == s
  {
  }

  /** A trailing space is dropped by `trimEnd` whatever precedes it. */
  lemma TrimEndDropsSpace(s: string, c: char)
    requires IsSpace(c)
    ensures TrimEnd(s + [c]) == TrimEnd(s)
  {
    assert (s + [c])[..|s|] == s;
  }

  // ---------------------------------------------------------------------------
  // Number to string, as a template literal renders an integral number

  function Digit(d: nat): (c: char)
    requires d < 10
    ensures '0' <= c <= '9'
  {
    "0123456789"[d]
  }

  /** A digit character denotes its digit. */
  lemma DigitValue(d: nat)
    requires d < 10
    ensures (Digit(d) as int) - ('0' as int) == d
  {
  }

  /** Every character of `s` is a decimal digit. */
  predicate AllDigits(s: string)
  {
    forall k :: 0 <= k < |s| ==> '0' <= s[k] <= '9'
  }

  /** The number a string of decimal digits denotes, most significant digit first. */
  function DigitsValue(s: string): nat
    requires AllDigits(s)
  {
    if s == [] then 0
    else DigitsValue(s[..|s| - 1]) * 10 + ((s[|s| - 1] as int) - ('0' as int))
  }

  /** Decimal digits of `n`, most significant first, with no leading zero. */
  function NatToString(n: nat): (r: string)
    ensures |r| >= 1
    ensures forall k :: 0 <= k < |r| ==> '0' <= r[k] <= '9'
    ensures |r| > 1 ==> r[0] != '0'
  {
    if n < 10 then [Digit(n)] else NatToString(n / 10) + [Digit(n % 10)]
  }

  /** The digits of `n` denote `n`. */
  lemma {:induction false} NatToStringValue(n: nat)
    ensures DigitsValue(NatToString(n)) == n
  {
    if n >= 10 {
      var r := NatToString(n);
      NatToStringValue(n / 10);
      DigitValue(n % 10);
      assert r[..|r| - 1] == NatToString(n / 10);
    } else {
      DigitValue(n);
    }
  }

  /** `${i}` for an integral number `i`. */
  function IntToString(i: int): (r: string)
    ensures |r| >= 1
    ensures i < 0 <==> r[0] == '-'
  {
    if i < 0 then "-" + NatToString(-i) else NatToString(i)
  }

  /** The rendering is an optional minus sign followed by the decimal digits of the
      magnitude. */
  lemma IntToStringValue(i: int)
    ensures i >= 0 ==> AllDigits(IntToString(i)) && DigitsValue(IntToString(i)) == i
    ensures i < 0 ==> AllDigits(IntToString(i)[1..]) && DigitsValue(IntToString(i)[1..]) == -i
  {
    if i < 0 {
      var digits := NatToString(-i);
      assert IntToString(i) == "-" + digits;
      assert ("-" + digits)[1..] == digits;
      NatToStringValue(-i);
    } else {
      NatToStringValue(i);
    }
  }

  /** The rendering has no leading zero: a lone "0", or digits starting with a non-zero one,
      after the minus sign of a negative number. */
  lemma IntToStringCanonical(i: int)
    ensures i >= 0 ==> |IntToString(i)| == 1 || IntToString(i)[0] != '0'
    ensures i < 0 ==> |IntToString(i)| >= 2 && IntToString(i)[1] != '0'
  {
    if i < 0 {
      var digits := NatToString(-i);
      assert IntToString(i) == "-" + digits;
      if |digits| == 1 {
        assert digits == [Digit(-i)];
      }
    }
  }
}
