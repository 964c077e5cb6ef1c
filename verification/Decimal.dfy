/** Decimal numbers in strings: zero-padded formatting as in `f"{n:04d}"`, and reading a number
    back from the end of a string. */
module Decimal {
  import opened Wrappers

  predicate IsDigit(c: char) {
    '0' <= c <= '9'
  }

  predicate AllDigits(s: string) {
    forall i | 0 <= i < |s| :: IsDigit(s[i])
  }

  function DigitOf(n: nat): (c: char)
    requires n < 10
    ensures IsDigit(c)
  {
    (n + '0' as int) as char
  }

  function DigitValue(c: char): (n: nat)
    requires IsDigit(c)
    ensures n < 10 && DigitOf(n) == c
  {
    (c as int) - ('0' as int)
  }

  function Digits(n: nat): (s: string)
    ensures s != [] && AllDigits(s)
  {
    if n < 10 then [DigitOf(n)] else Digits(n / 10) + [DigitOf(n % 10)]
  }

  function Value(s: string): nat
    requires AllDigits(s)
  {
    if s == [] then 0 else 10 * Value(s[..|s| - 1]) + DigitValue(s[|s| - 1])
  }

  function Zeros(n: nat): (s: string)
    ensures |s| == n && AllDigits(s)
  {
    seq(n, _ => '0')
  }

  function Pad(s: string, width: int): string {
    if |s| < width then Zeros(width - |s|) + s else s
  }

  /** `format(n, "0<width>d")`: the sign counts towards the width. */
  function Format(n: int, width: nat): string {
    if n < 0 then ['-'] + Pad(Digits(-n), width - 1) else Pad(Digits(n), width)
  }

  lemma ValueSnoc(s: string, c: char)
    requires AllDigits(s) && IsDigit(c)
    ensures AllDigits(s + [c]) && Value(s + [c]) == 10 * Value(s) + DigitValue(c)
  {
    assert (s + [c])[..|s|] == s;
  }

  lemma {:induction false} ValueOfDigits(n: nat)
    ensures Value(Digits(n)) == n
  {
    if n < 10 {
      ValueSnoc("", DigitOf(n));
      assert "" + [DigitOf(n)] == [DigitOf(n)];
    } else {
      ValueOfDigits(n / 10);
      ValueSnoc(Digits(n / 10), DigitOf(n % 10));
      assert Digits(n) == Digits(n / 10) + [DigitOf(n % 10)];
      assert DigitValue(DigitOf(n % 10)) == n % 10;
    }
  }

  lemma {:induction false} ValueOfPadded(k: nat, s: string)
    requires AllDigits(s)
    ensures AllDigits(Zeros(k) + s) && Value(Zeros(k) + s) == Value(s)
  {
    if s == [] {
      assert Zeros(k) + s == Zeros(k);
      if k > 0 {
        assert Zeros(k)[..k - 1] == Zeros(k - 1) + s;
        ValueOfPadded(k - 1, s);
      }
    } else {
      var t := Zeros(k) + s;
      assert t[..|t| - 1] == Zeros(k) + s[..|s| - 1];
      ValueOfPadded(k, s[..|s| - 1]);
    }
  }

  lemma PadValue(s: string, width: int)
    requires s != [] && AllDigits(s)
    ensures Pad(s, width) != [] && AllDigits(Pad(s, width)) && Value(Pad(s, width)) == Value(s)
  {
    if |s| < width { ValueOfPadded(width - |s|, s); }
  }

  lemma PadRoundTrip(n: nat, width: int)
    ensures var s := Pad(Digits(n), width); s != [] && AllDigits(s) && Value(s) == n
  {
    PadValue(Digits(n), width);
    ValueOfDigits(n);
  }

  // ---------------------------------------------------------------- reading from the right

  /** Where the longest run of digits at the end of `s` begins. */
  function DigitsStart(s: string): (i: nat)
    ensures i <= |s| && AllDigits(s[i..]) && (i > 0 ==> !IsDigit(s[i - 1]))
  {
    if s == [] || !IsDigit(s[|s| - 1]) then |s|
    else
      var i := DigitsStart(s[..|s| - 1]);
      assert s[i..] == s[..|s| - 1][i..] + [s[|s| - 1]];
      i
  }

  lemma DigitsStartUnique(a: string, d: string)
    requires a != [] && !IsDigit(a[|a| - 1]) && AllDigits(d)
    ensures DigitsStart(a + d) == |a|
  {
    var s := a + d;
    var i := DigitsStart(s);
    assert forall k | |a| <= k < |s| :: s[k] == d[k - |a|];
    assert forall k | i <= k < |s| :: s[k] == s[i..][k - i];
    assert s[|a| - 1] == a[|a| - 1];
  }

  /** The number in `s` from position `i` on, and what stands in front of it. */
  function NumberFrom(s: string, i: nat): Option<(string, int)>
    requires i <= |s| && AllDigits(s[i..])
  {
    if i == |s| then None
    else if i > 0 && s[i - 1] == '-' then Some((s[..i - 1], 0 - Value(s[i..])))
    else Some((s[..i], Value(s[i..])))
  }

  /** A signed number at the end of `s` and what stands in front of it. */
  function SplitNumber(s: string): Option<(string, int)> {
    NumberFrom(s, DigitsStart(s))
  }

  lemma TakeOfConcat(a: string, d: string, k: nat)
    requires k <= |a|
    ensures (a + d)[..k] == a[..k] && (a + d)[|a|..] == d
  {
  }

  lemma SplitUnsigned(a: string, d: string)
    requires a != [] && !IsDigit(a[|a| - 1]) && a[|a| - 1] != '-' && AllDigits(d) && d != []
    ensures SplitNumber(a + d) == Some((a, Value(d)))
  {
    DigitsStartUnique(a, d);
    TakeOfConcat(a, d, |a|);
  }

  lemma NumberFromSigned(s: string, a: string, d: string)
    requires |s| > |a| + 1 && s[..|a|] == a && s[|a|] == '-' && s[|a| + 1..] == d && AllDigits(d)
    ensures NumberFrom(s, |a| + 1) == Some((a, 0 - Value(d)))
  {
  }

  lemma SplitSigned(a: string, d: string)
    requires AllDigits(d) && d != []
    ensures SplitNumber((a + ['-']) + d) == Some((a, 0 - Value(d)))
  {
    var m := a + ['-'];
    DigitsStartUnique(m, d);
    TakeOfConcat(m, d, |a|);
    TakeOfConcat(a, ['-'], |a|);
    NumberFromSigned(m + d, a, d);
  }

  lemma ConcatAssociative(a: string, b: string, c: string)
    ensures a + (b + c) == (a + b) + c
  {
  }

  lemma FormatNegative(n: int, width: nat) returns (d: string)
    requires n < 0
    ensures d != [] && AllDigits(d) && Format(n, width) == ['-'] + d && Value(d) == 0 - n
  {
    d := Pad(Digits(-n), width - 1);
    PadRoundTrip(-n, width - 1);
  }

  /** `format` yields an optional minus and digits worth the number. */
  lemma FormatParts(n: int, width: nat) returns (d: string)
    ensures d != [] && AllDigits(d)
    ensures n < 0 ==> Format(n, width) == ['-'] + d && Value(d) == 0 - n
    ensures n >= 0 ==> Format(n, width) == d && Value(d) == n
  {
    if n < 0 {
      d := FormatNegative(n, width);
    } else {
      d := Pad(Digits(n), width);
      PadRoundTrip(n, width);
    }
  }

  lemma {:induction false} NoLeadingZero(n: nat)
    ensures |Digits(n)| > 1 ==> Digits(n)[0] != '0'
    ensures n < 10 <==> |Digits(n)| == 1
    ensures 0 < n < 10 ==> Digits(n)[0] != '0'
  {
    if n < 10 {
    } else {
      NoLeadingZero(n / 10);
    }
  }

  /** `format` yields the shortest numeral of at least `width` characters: a number is padded with
      zeros up to the width and never beyond it, and a minus counts as one of the characters. */
  lemma FormatShape(n: int, width: nat)
    ensures var s := Format(n, width);
            && |s| >= width && s != []
            && (n >= 0 ==> AllDigits(s) && Value(s) == n && (|s| > width && |s| > 1 ==> s[0] != '0'))
            && (n < 0 ==> |s| > 1 && s[0] == '-' && AllDigits(s[1..]) && Value(s[1..]) == 0 - n
                          && (|s| > width ==> s[1] != '0'))
  {
    var d := FormatParts(n, width);
    NoLeadingZero(if n < 0 then -n else n);
    if n < 0 { assert Format(n, width)[1..] == d; }
  }

  /** A formatted number is read back from behind any text that ends in neither digit nor minus. */
  lemma NumberRoundTrip(a: string, n: int, width: nat)
    requires a != [] && !IsDigit(a[|a| - 1]) && a[|a| - 1] != '-'
    ensures SplitNumber(a + Format(n, width)) == Some((a, n))
  {
    var d := FormatParts(n, width);
    if n < 0 {
      SplitSigned(a, d);
      ConcatAssociative(a, ['-'], d);
    } else {
      SplitUnsigned(a, d);
    }
  }

  // ---------------------------------------------------------------- suffixes

  predicate EndsWith(s: string, suffix: string) {
    |s| >= |suffix| && s[|s| - |suffix|..] == suffix
  }

  function Chop(s: string, suffix: string): string
    requires EndsWith(s, suffix)
  {
    s[..|s| - |suffix|]
  }

  lemma ChopConcat(a: string, suffix: string)
    ensures EndsWith(a + suffix, suffix) && Chop(a + suffix, suffix) == a
  {
  }

  /** Texts that end in different characters do not end in the same suffix. */
  lemma LastCharDecides(s: string, suffix: string)
    requires s != [] && suffix != [] && s[|s| - 1] != suffix[|suffix| - 1]
    ensures !EndsWith(s, suffix)
  {
    assert |s| >= |suffix| ==> s[|s| - |suffix|..][|suffix| - 1] == s[|s| - 1];
  }
}
