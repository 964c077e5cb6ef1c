/** The string normalisation the domain package applies to names, for ASCII text. */
module Text {
  function LowerChar(c: char): char {
    if 'A' <= c <= 'Z' then ((c as int) + 32) as char else c
  }

  function Lower(s: string): (r: string)
    ensures |r| == |s|
  {
    seq(|s|, i requires 0 <= i < |s| => LowerChar(s[i]))
  }

  function UpperChar(c: char): char {
    if 'a' <= c <= 'z' then ((c as int) - 32) as char else c
  }

  function Upper(s: string): (r: string)
    ensures |r| == |s|
  {
    seq(|s|, i requires 0 <= i < |s| => UpperChar(s[i]))
  }

  predicate IsBlank(c: char) {
    9 <= c as int <= 13 || 28 <= c as int <= 32
  }

  function Strip(s: string): string {
    if s != [] && IsBlank(s[0]) then Strip(s[1..])
    else if s != [] && IsBlank(s[|s| - 1]) then Strip(s[..|s| - 1])
    else s
  }

  /** A name in lower case without blanks at its ends is normal already. */
  lemma NormalName(s: string)
    requires s != [] && !IsBlank(s[0]) && !IsBlank(s[|s| - 1]) && forall c <- s :: !('A' <= c <= 'Z')
    ensures Strip(s) == s && Lower(s) == s
  {
    forall i | 0 <= i < |s| ensures Lower(s)[i] == s[i] {
      assert s[i] in s;
    }
  }

  const CAPITALS := "ABCDEFGHIJKLMNOPQRSTUVWXYZ"
  const SMALL := "abcdefghijklmnopqrstuvwxyz"

  /** Letters change case in alphabetical order, and nothing else changes. */
  lemma CaseMeaning(i: nat, c: char)
    requires i < 26
    ensures LowerChar(CAPITALS[i]) == SMALL[i] && UpperChar(SMALL[i]) == CAPITALS[i]
    ensures !('A' <= c <= 'Z') ==> LowerChar(c) == c
    ensures !('a' <= c <= 'z') ==> UpperChar(c) == c
  {
  }

  /** Tab, line feed, vertical tab, form feed, carriage return, the four separators, and the space. */
  lemma BlankMeaning(c: char)
    ensures IsBlank(c) <==>
              c == '\t' || c == '\n' || c == '\U{0b}' || c == '\U{0c}' || c == '\r'
              || c == '\U{1c}' || c == '\U{1d}' || c == '\U{1e}' || c == '\U{1f}' || c == ' '
  {
  }

  predicate AllBlank(s: string) {
    forall c <- s :: IsBlank(c)
  }

  lemma Regroup(c: string, before: string, middle: string, after: string, d: string)
    ensures c + (before + middle + after) == (c + before) + middle + after
    ensures (before + middle + after) + d == before + middle + (after + d)
  {
  }

  /** Stripping takes blanks off both ends, all of them and nothing else. */
  lemma {:induction false} StripMeaning(s: string) returns (before: string, after: string)
    ensures s == before + Strip(s) + after && AllBlank(before) && AllBlank(after)
    ensures Strip(s) != [] ==> !IsBlank(Strip(s)[0]) && !IsBlank(Strip(s)[|Strip(s)| - 1])
  {
    if s != [] && IsBlank(s[0]) {
      before, after := StripMeaning(s[1..]);
      Regroup([s[0]], before, Strip(s), after, []);
      assert s == [s[0]] + s[1..];
      before := [s[0]] + before;
    } else if s != [] && IsBlank(s[|s| - 1]) {
      var n := |s| - 1;
      before, after := StripMeaning(s[..n]);
      Regroup([], before, Strip(s), after, [s[n]]);
      assert s == s[..n] + [s[n]];
      after := after + [s[n]];
    } else {
      before, after := [], [];
      assert s == before + Strip(s) + after;
    }
  }
}
