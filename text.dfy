/**
 * The pieces of Python's `str` behaviour that the daemon and the table
 * generator rely on: `lower()`, the `in` substring test, `replace()`,
 * `split(':')`, `int()` on a string and the `%02d` format.
 * Only ASCII letters, digits and whitespace are given their Python meaning.
 */
module Text {
  import opened Wrappers

  // ---------------------------------------------------------------- lower()

  function LowerChar(c: char): char {
    if 'A' <= c <= 'Z' then (c as int - 'A' as int + 'a' as int) as char else c
  }

  /** `s.lower()` on ASCII letters. */
  function Lower(s: string): string {
    seq(|s|, i requires 0 <= i < |s| => LowerChar(s[i]))
  }

  // ------------------------------------------------------- `t in s` for str

  /** Python's substring test `t in s`. */
  predicate Contains(s: string, t: string)
    decreases |s|
  {
    (|t| <= |s| && s[..|t|] == t) || (|s| > 0 && Contains(s[1..], t))
  }

  lemma {:induction false} ContainsInfix(a: string, t: string, b: string)
    ensures Contains(a + t + b, t)
    decreases |a|
  {
    if a == [] {
      assert (a + t + b)[..|t|] == t;
    } else {
      assert (a + t + b)[1..] == a[1..] + t + b;
      ContainsInfix(a[1..], t, b);
    }
  }

  // -------------------------------------------------------------- replace()

  /**
   * `s.replace(pat, rep)`: every non-overlapping occurrence of `pat`,
   * scanning left to right, is replaced; an empty `pat` inserts `rep`
   * before every character and at the end.
   */
  function Replace(s: string, pat: string, rep: string): string
    decreases |s|
  {
    if pat == [] then
      (if s == [] then rep else rep + [s[0]] + Replace(s[1..], pat, rep))
    else if |pat| <= |s| && s[..|pat|] == pat then
      rep + Replace(s[|pat|..], pat, rep)
    else if s == [] then []
    else [s[0]] + Replace(s[1..], pat, rep)
  }

  /** A string without the pattern comes back from `replace` unchanged. */
  lemma {:induction false} ReplaceAbsent(s: string, pat: string, rep: string)
    requires pat != [] && !Contains(s, pat)
    ensures Replace(s, pat, rep) == s
    decreases |s|
  {
    if s != [] {
      ReplaceAbsent(s[1..], pat, rep);
    }
  }

  /** A leading occurrence is rewritten and the rest is scanned on. */
  lemma ReplaceLeading(pat: string, t: string, rep: string)
    requires pat != []
    ensures Replace(pat + t, pat, rep) == rep + Replace(t, pat, rep)
  {
    assert (pat + t)[..|pat|] == pat;
    assert (pat + t)[|pat|..] == t;
  }

  // ------------------------------------------------------------ split(':')

  /** `s.split(sep)`: always at least one part, empty parts kept. */
  function Split(s: string, sep: char): (parts: seq<string>)
    ensures |parts| >= 1
    decreases |s|
  {
    if s == [] then [""]
    else
      var rest := Split(s[1..], sep);
      if s[0] == sep then [""] + rest else [[s[0]] + rest[0]] + rest[1..]
  }

  lemma {:induction false} SplitWhole(a: string, sep: char)
    requires sep !in a
    ensures Split(a, sep) == [a]
    decreases |a|
  {
    if a != [] {
      assert a[0] != sep && [a[0]] + a[1..] == a;
      SplitWhole(a[1..], sep);
    }
  }

  lemma {:induction false} SplitFirst(a: string, sep: char, rest: string)
    requires sep !in a
    ensures Split(a + [sep] + rest, sep) == [a] + Split(rest, sep)
    decreases |a|
  {
    if a == [] {
      assert (a + [sep] + rest)[1..] == rest;
    } else {
      assert (a + [sep] + rest)[1..] == a[1..] + [sep] + rest;
      assert a[0] != sep && [a[0]] + a[1..] == a;
      SplitFirst(a[1..], sep, rest);
    }
  }

  // ------------------------------------------------------- decimal numbers

  predicate IsDigit(c: char) { '0' <= c <= '9' }

  predicate AllDigits(s: string) { forall i :: 0 <= i < |s| ==> IsDigit(s[i]) }

  function DigitValue(c: char): nat
    requires IsDigit(c)
  {
    c as int - '0' as int
  }

  function DigitChar(d: nat): (c: char)
    requires d < 10
    ensures IsDigit(c) && DigitValue(c) == d
  {
    ('0' as int + d) as char
  }

  /** The value of a string of decimal digits, leading zeros allowed. */
  function DigitsValue(s: string): nat
    requires AllDigits(s)
    decreases |s|
  {
    if s == [] then 0 else DigitsValue(s[..|s| - 1]) * 10 + DigitValue(s[|s| - 1])
  }

  /** `str(n)` for a natural number. */
  function ShowNat(n: nat): (r: string)
    ensures |r| >= 1 && AllDigits(r)
    decreases n
  {
    if n < 10 then [DigitChar(n)] else ShowNat(n / 10) + [DigitChar(n % 10)]
  }

  /** `str(i)` for an integer. */
  function ShowInt(i: int): string {
    if i < 0 then "-" + ShowNat(-i) else ShowNat(i)
  }

  lemma {:induction false} ShowNatRoundTrip(n: nat)
    ensures DigitsValue(ShowNat(n)) == n
    decreases n
  {
    if n >= 10 {
      var s := ShowNat(n / 10);
      assert (s + [DigitChar(n % 10)])[..|s|] == s;
      ShowNatRoundTrip(n / 10);
    }
  }

  /** ASCII whitespace, which `int()` strips from both ends. */
  predicate IsSpace(c: char) { c == ' ' || 9 <= c as int <= 13 }

  function TrimLeft(s: string): (r: string)
    ensures |r| <= |s|
    decreases |s|
  {
    if s != [] && IsSpace(s[0]) then TrimLeft(s[1..]) else s
  }

  function TrimRight(s: string): (r: string)
    ensures |r| <= |s|
    decreases |s|
  {
    if s != [] && IsSpace(s[|s| - 1]) then TrimRight(s[..|s| - 1]) else s
  }

  function Strip(s: string): string { TrimRight(TrimLeft(s)) }

  /**
   * `int(s)` for a string: surrounding whitespace, one optional sign, then
   * one or more decimal digits; anything else is the `ValueError`, `None`.
   */
  function ParseInt(s: string): Option<int> {
    var t := Strip(s);
    if |t| > 0 && (t[0] == '-' || t[0] == '+') then
      if |t| > 1 && AllDigits(t[1..]) then
        var v: int := DigitsValue(t[1..]);
        Some(if t[0] == '-' then -v else v)
      else None
    else if |t| > 0 && AllDigits(t) then Some(DigitsValue(t))
    else None
  }

  lemma StripNoSpace(s: string)
    requires s != [] && !IsSpace(s[0]) && !IsSpace(s[|s| - 1])
    ensures Strip(s) == s
  {
  }

  /** `int(str(i)) == i`. */
  lemma ParseShowInt(i: int)
    ensures ParseInt(ShowInt(i)) == Some(i)
  {
    var s := ShowInt(i);
    if i < 0 {
      var d := ShowNat(-i);
      assert s == "-" + d && s[1..] == d;
      StripNoSpace(s);
      ShowNatRoundTrip(-i);
    } else {
      StripNoSpace(s);
      ShowNatRoundTrip(i);
    }
  }

  /** `f"{i:02d}"`: zero-padded to two characters, a sign counting as one. */
  function Pad2(i: int): string {
    if 0 <= i < 10 then "0" + ShowNat(i) else ShowInt(i)
  }

  lemma Pad2TwoDigits(i: int)
    requires 0 <= i < 100
    ensures |Pad2(i)| == 2 && AllDigits(Pad2(i))
  {
    if i >= 10 {
      assert ShowNat(i / 10) == [DigitChar(i / 10)];
    }
  }

  lemma TwoDigitsValue(dd: string)
    requires |dd| == 2 && AllDigits(dd)
    ensures DigitsValue(dd) == DigitValue(dd[0]) * 10 + DigitValue(dd[1])
  {
    assert |dd[..1]| == 1 && dd[..1][0] == dd[0] && dd[..1][..0] == [];
    assert DigitsValue(dd[..1]) == DigitValue(dd[0]);
    assert dd[..|dd| - 1] == dd[..1];
  }

  /** Every two-digit field is its own `%02d` rendering. */
  lemma Pad2OfDigits(dd: string)
    requires |dd| == 2 && AllDigits(dd)
    ensures Pad2(DigitsValue(dd)) == dd
  {
    var hi, lo := DigitValue(dd[0]), DigitValue(dd[1]);
    TwoDigitsValue(dd);
    DigitCharValue(dd[0]);
    DigitCharValue(dd[1]);
    assert dd == [DigitChar(hi), DigitChar(lo)];
    var v := hi * 10 + lo;
    assert DigitsValue(dd) == v;
    if hi == 0 {
      assert v == lo && 0 <= v < 10;
      assert ShowNat(v) == [DigitChar(lo)];
      assert Pad2(v) == "0" + [DigitChar(lo)];
    } else {
      assert 10 <= v && v / 10 == hi && v % 10 == lo;
      assert ShowNat(hi) == [DigitChar(hi)];
      assert ShowNat(v) == ShowNat(hi) + [DigitChar(lo)];
      assert Pad2(v) == ShowInt(v) == ShowNat(v);
    }
  }

  lemma DigitCharValue(c: char)
    requires IsDigit(c)
    ensures DigitChar(DigitValue(c)) == c
  {
  }
}
