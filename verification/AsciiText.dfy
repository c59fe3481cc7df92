/** Letter case of ASCII text, and truth values as JavaScript writes them. */
module AsciiText {
  function LowerChar(c: char): char {
    if 'A' <= c <= 'Z' then c + ('a' - 'A') else c
  }

  function UpperChar(c: char): char {
    if 'a' <= c <= 'z' then c - ('a' - 'A') else c
  }

  function Lower(s: string): (r: string)
    ensures |r| == |s|
  {
    seq(|s|, i requires 0 <= i < |s| => LowerChar(s[i]))
  }

  function Upper(s: string): (r: string)
    ensures |r| == |s|
  {
    seq(|s|, i requires 0 <= i < |s| => UpperChar(s[i]))
  }

  lemma CaseRoundTrip(a: string, b: string)
    requires Upper(b) == b
    ensures Upper(Lower(b)) == b
    ensures Upper(a) == b ==> Lower(a) == Lower(b)
  {
    forall i | 0 <= i < |b|
      ensures UpperChar(LowerChar(b[i])) == b[i]
      ensures |a| == |b| && Upper(a)[i] == b[i] ==> LowerChar(a[i]) == LowerChar(b[i])
    {
      assert UpperChar(b[i]) == Upper(b)[i] == b[i];
    }
    if Upper(a) == b {
      assert forall i :: 0 <= i < |b| ==> Upper(a)[i] == b[i];
    }
  }

  lemma LowerTwice(s: string)
    ensures Lower(Lower(s)) == Lower(s)
  {
    assert forall i :: 0 <= i < |s| ==> LowerChar(LowerChar(s[i])) == LowerChar(s[i]);
  }

  function BoolText(b: bool): string {
    if b then "true" else "false"
  }

  lemma BoolTextInjective(a: bool, b: bool)
    requires BoolText(a) == BoolText(b)
    ensures a == b
  {
    assert |"true"| != |"false"|;
  }
}
