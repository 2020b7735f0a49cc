/** Text helpers the scraper relies on: Python's `str.isspace`, `str.strip`,
    `str.replace(c, '')` and the decimal formatting of an `int` in an f-string. */
module Strings {

  /** Python's `str.isspace()` for one character: the characters that
      `str.strip()` with no argument removes. The no-break space U+00A0 is one of them. */
  predicate IsSpace(c: char) {
    || c == ' '
    || ('\t' <= c <= '\r')
    || ('\U{1C}' <= c <= '\U{1F}')
    || c == '\U{85}'
    || c == '\U{A0}'
    || c == '\U{1680}'
    || ('\U{2000}' <= c <= '\U{200A}')
    || c == '\U{2028}'
    || c == '\U{2029}'
    || c == '\U{202F}'
    || c == '\U{205F}'
    || c == '\U{3000}'
  }

  /** The no-break space that the view counter removes. */
  const Nbsp: char := '\U{A0}'

  /** Every character of `s` at an index in [lo, hi) is whitespace. */
  ghost predicate SpaceBetween(s: string, lo: int, hi: int) {
    forall k :: lo <= k < hi && 0 <= k < |s| ==> IsSpace(s[k])
  }

  /** Neither the first nor the last character is whitespace. */
  ghost predicate NoEdgeSpace(s: string) {
    s == [] || (!IsSpace(s[0]) && !IsSpace(s[|s| - 1]))
  }

  /** Python's `s.lstrip()`. */
  function StripLeft(s: string): string {
    if s != [] && IsSpace(s[0]) then StripLeft(s[1..]) else s
  }

  /** Python's `s.rstrip()`. */
  function StripRight(s: string): string {
    if s != [] && IsSpace(s[|s| - 1]) then StripRight(s[..|s| - 1]) else s
  }

  /** Python's `s.strip()`. */
  function Strip(s: string): string {
    StripRight(StripLeft(s))
  }

  /** `lstrip` leaves the suffix that follows the leading whitespace. */
  lemma {:induction false} StripLeftSpec(s: string)
    ensures var r := StripLeft(s);
      && |r| <= |s| && r == s[|s| - |r|..]
      && SpaceBetween(s, 0, |s| - |r|)
      && (r == [] || !IsSpace(r[0]))
  {
    if s != [] && IsSpace(s[0]) {
      StripLeftSpec(s[1..]);
    }
  }

  /** `rstrip` leaves the prefix that precedes the trailing whitespace. */
  lemma {:induction false} StripRightSpec(s: string)
    ensures var r := StripRight(s);
      && |r| <= |s| && r == s[..|r|]
      && SpaceBetween(s, |r|, |s|)
      && (r == [] || !IsSpace(r[|r| - 1]))
  {
    if s != [] && IsSpace(s[|s| - 1]) {
      StripRightSpec(s[..|s| - 1]);
    }
  }

  /** `s` is `r` with only whitespace before it (the first `i` characters) and after it. */
  ghost predicate IsTrimAt(s: string, r: string, i: int) {
    && 0 <= i <= |s| - |r|
    && r == s[i..i + |r|]
    && SpaceBetween(s, 0, i)
    && SpaceBetween(s, i + |r|, |s|)
  }

  /** `strip` removes the surrounding whitespace: `s` is the result surrounded by
      whitespace only, and the result neither starts nor ends with whitespace. */
  lemma StripSpec(s: string)
    ensures NoEdgeSpace(Strip(s))
    ensures exists i :: IsTrimAt(s, Strip(s), i)
  {
    var l := StripLeft(s);
    StripLeftSpec(s);
    StripRightSpec(l);
    assert IsTrimAt(s, Strip(s), |s| - |l|);
  }

  /** Stripping is exactly "remove the surrounding whitespace": any `r` without
      whitespace at its ends that `s` holds between two runs of whitespace is `Strip(s)`. */
  lemma StripUnique(s: string, r: string, i: int)
    requires NoEdgeSpace(r) && IsTrimAt(s, r, i)
    ensures r == Strip(s)
  {
    var r' := Strip(s);
    StripSpec(s);
    var i' :| IsTrimAt(s, r', i');
    if r != [] && r' != [] {
      // Both start at the first non-space character of `s` and end at its last one.
      assert !IsSpace(s[i]) && !IsSpace(s[i']);
      assert !IsSpace(s[i + |r| - 1]) && !IsSpace(s[i' + |r'| - 1]);
      assert i == i' && |r| == |r'|;
    } else {
      // One of them is empty, so `s` is whitespace only and the other is empty too.
      assert SpaceBetween(s, 0, |s|);
    }
  }

  /** Python's `s.replace(c, '')`. */
  function RemoveAll(s: string, c: char): string {
    if s == [] then [] else (if s[0] == c then [] else [s[0]]) + RemoveAll(s[1..], c)
  }

  /** `s.replace(c, '')` is `s` with every occurrence of `c` removed and nothing else:
      every other character keeps its multiplicity. */
  lemma {:induction false} RemoveAllSpec(s: string, c: char)
    ensures var r := RemoveAll(s, c);
      && c !in r
      && multiset(r) == multiset(s)[c := 0]
      && |r| == |s| - multiset(s)[c]
  {
    if s != [] {
      assert s == [s[0]] + s[1..];
      RemoveAllSpec(s[1..], c);
      var head := if s[0] == c then [] else [s[0]];
      assert multiset(RemoveAll(s, c)) == multiset(head) + multiset(RemoveAll(s[1..], c));
    }
  }

  /** `replace(c, '')` works character by character and keeps the order of what it
      keeps: it distributes over concatenation. */
  lemma {:induction false} RemoveAllConcat(a: string, b: string, c: char)
    ensures RemoveAll(a + b, c) == RemoveAll(a, c) + RemoveAll(b, c)
  {
    if a == [] {
      assert a + b == b;
    } else {
      var head := if a[0] == c then [] else [a[0]];
      assert (a + b)[0] == a[0] && (a + b)[1..] == a[1..] + b;
      assert RemoveAll(a + b, c) == head + RemoveAll(a[1..] + b, c);
      RemoveAllConcat(a[1..], b, c);
      assert RemoveAll(a, c) == head + RemoveAll(a[1..], c);
    }
  }

  /** On one character, `replace(c, '')` drops it when it is `c` and keeps it otherwise. */
  lemma RemoveAllChar(x: char, c: char)
    ensures RemoveAll([x], c) == if x == c then [] else [x]
  {
    assert [x][1..] == [];
  }

  /** The decimal digit for `d` < 10. */
  function Digit(d: nat): (c: char)
    requires d < 10
    ensures '0' <= c <= '9'
  {
    "0123456789"[d]
  }

  /** The value of a decimal digit character. */
  function DigitValue(c: char): nat {
    if '0' <= c <= '9' then (c - '0') as nat else 0
  }

  /** How `f"{n}"` renders a non-negative `int`: decimal digits, no sign, no leading zero. */
  function DecimalString(n: nat): (s: string)
    ensures |s| >= 1
    ensures forall k :: 0 <= k < |s| ==> '0' <= s[k] <= '9'
    ensures |s| > 1 ==> s[0] != '0'
  {
    if n < 10 then [Digit(n)] else DecimalString(n / 10) + [Digit(n % 10)]
  }

  /** Reads a string of decimal digits back as a number. */
  function ParseDecimal(s: string): nat {
    if s == [] then 0 else ParseDecimal(s[..|s| - 1]) * 10 + DigitValue(s[|s| - 1])
  }

  /** The decimal rendering is read back as the number it renders. */
  lemma {:induction false} DecimalRoundTrip(n: nat)
    ensures ParseDecimal(DecimalString(n)) == n
  {
    var s := DecimalString(n);
    if n < 10 {
      assert s[..|s| - 1] == [];
      assert DigitValue(Digit(n)) == n by { DigitRoundTrip(n); }
    } else {
      assert s[..|s| - 1] == DecimalString(n / 10);
      DecimalRoundTrip(n / 10);
      DigitRoundTrip(n % 10);
    }
  }

  lemma DigitRoundTrip(d: nat)
    requires d < 10
    ensures DigitValue(Digit(d)) == d
  {
  }

  /** Different numbers render as different strings. */
  lemma DecimalInjective(a: nat, b: nat)
    requires DecimalString(a) == DecimalString(b)
    ensures a == b
  {
    DecimalRoundTrip(a);
    DecimalRoundTrip(b);
  }
}
