/**
 * The parts of java.lang.Character, java.lang.String and java.lang.Long that the
 * asset resolver relies on, over Dafny strings (sequences of Unicode scalar values).
 */
module JavaLang {

  /**
   * Character.isWhitespace: the Unicode space, line and paragraph separators except
   * the non-breaking ones (U+00A0, U+2007, U+202F), plus U+0009..U+000D and U+001C..U+001F.
   */
  predicate IsWhitespace(c: char) {
    || ('\t' <= c <= '\r')
    || ('\U{1C}' <= c <= '\U{1F}')
    || c == ' '
    || c == '\U{1680}'
    || ('\U{2000}' <= c <= '\U{2006}')
    || ('\U{2008}' <= c <= '\U{200A}')
    || c == '\U{2028}' || c == '\U{2029}' || c == '\U{205F}' || c == '\U{3000}'
  }

  /** String.lastIndexOf(char): the position of the last `c` in `s`, or -1. */
  function LastIndexOf(s: string, c: char): (i: int)
    ensures -1 <= i < |s|
    ensures 0 <= i ==> s[i] == c
    ensures forall j :: i < j < |s| ==> s[j] != c
  {
    if |s| == 0 then -1
    else if s[|s| - 1] == c then |s| - 1
    else LastIndexOf(s[..|s| - 1], c)
  }

  /** The last `c` of `a + b` lies in `b` when `b` has one, and otherwise is the last `c` of `a`. */
  lemma LastIndexOfConcat(a: string, b: string, c: char)
    ensures LastIndexOf(a + b, c) == if c in b then |a| + LastIndexOf(b, c) else LastIndexOf(a, c)
  {
    var r := LastIndexOf(a + b, c);
    if c in b {
      var k := LastIndexOf(b, c);
      var w :| 0 <= w < |b| && b[w] == c;
      assert k >= w;
      assert (a + b)[|a| + k] == c;
    } else {
      var k := LastIndexOf(a, c);
      if k >= 0 {
        assert (a + b)[k] == c;
      }
      if r >= 0 {
        assert a[r] == (a + b)[r];
      }
    }
  }

  /** Character.toUpperCase, restricted to the ASCII letters. */
  function ToUpperAscii(c: char): char {
    if 'a' <= c <= 'z' then (c as int - 32) as char else c
  }

  /** Character.toLowerCase, restricted to the ASCII letters. */
  function ToLowerAscii(c: char): char {
    if 'A' <= c <= 'Z' then (c as int + 32) as char else c
  }

  /** The per-character test of String.equalsIgnoreCase. */
  predicate CharEqualsIgnoreCase(x: char, y: char) {
    || x == y
    || ToUpperAscii(x) == ToUpperAscii(y)
    || ToLowerAscii(ToUpperAscii(x)) == ToLowerAscii(ToUpperAscii(y))
  }

  /** String.equalsIgnoreCase: same length and pairwise equal up to case. */
  predicate EqualsIgnoreCase(a: string, b: string) {
    |a| == |b| && forall k :: 0 <= k < |a| ==> CharEqualsIgnoreCase(a[k], b[k])
  }

  /** `s` with every ASCII capital replaced by its small letter. */
  function LowerAscii(s: string): (r: string)
    ensures |r| == |s|
    ensures forall k :: 0 <= k < |s| ==> r[k] == ToLowerAscii(s[k])
  {
    seq(|s|, k requires 0 <= k < |s| => ToLowerAscii(s[k]))
  }

  lemma CharEqualsIgnoreCaseIsLowerEquality(x: char, y: char)
    ensures CharEqualsIgnoreCase(x, y) <==> ToLowerAscii(x) == ToLowerAscii(y)
  {
  }

  /** Two strings are equal ignoring case exactly when their lower-case forms are equal. */
  lemma EqualsIgnoreCaseIsLowerEquality(a: string, b: string)
    ensures EqualsIgnoreCase(a, b) <==> LowerAscii(a) == LowerAscii(b)
  {
    if |a| == |b| {
      forall k | 0 <= k < |a|
        ensures CharEqualsIgnoreCase(a[k], b[k]) <==> LowerAscii(a)[k] == LowerAscii(b)[k]
      {
        CharEqualsIgnoreCaseIsLowerEquality(a[k], b[k]);
      }
    }
  }

  /** The decimal digit for `d`. */
  function DigitChar(d: nat): (c: char)
    requires d < 10
    ensures '0' <= c <= '9' && c as int - '0' as int == d
  {
    (48 + d) as char
  }

  /** String.valueOf(long) for a non-negative value: its decimal digits, without leading zeros. */
  function ValueOf(n: nat): (s: string)
    ensures |s| > 0
    ensures forall k :: 0 <= k < |s| ==> '0' <= s[k] <= '9'
    ensures s[0] == '0' <==> n == 0
  {
    if n < 10 then [DigitChar(n)] else ValueOf(n / 10) + [DigitChar(n % 10)]
  }

  /** Long.parseLong for a string of decimal digits. */
  function ParseLong(s: string): nat
    requires forall k :: 0 <= k < |s| ==> '0' <= s[k] <= '9'
  {
    if s == [] then 0 else 10 * ParseLong(s[..|s| - 1]) + (s[|s| - 1] as int - '0' as int)
  }

  /** Reading back the decimal rendering of `n` gives `n`. */
  lemma {:induction false} ValueOfRoundTrip(n: nat)
    ensures ParseLong(ValueOf(n)) == n
  {
    if n >= 10 {
      var s := ValueOf(n);
      assert s[..|s| - 1] == ValueOf(n / 10);
      ValueOfRoundTrip(n / 10);
    }
  }
}
