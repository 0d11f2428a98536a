/** ASCII text as the program compares and scans it. */
module Text {

  /** The ASCII lower-case form of a character. */
  function LowerChar(c: char): char {
    if 'A' <= c <= 'Z' then c - 'A' + 'a' else c
  }

  function Lower(s: string): (r: string)
    ensures |r| == |s|
    ensures forall i :: 0 <= i < |s| ==> r[i] == LowerChar(s[i])
  {
    if s == [] then [] else [LowerChar(s[0])] + Lower(s[1..])
  }

  /** Equality that ignores ASCII letter case. */
  predicate EqIgnoreAsciiCase(a: string, b: string) {
    |a| == |b| && forall i :: 0 <= i < |a| ==> LowerChar(a[i]) == LowerChar(b[i])
  }

  /** Two letters in which a capital may stand for the small letter 32 above it. */
  predicate IsSameLetter(a: char, b: char) {
    || a == b
    || (65 <= a as int <= 90 && b as int == a as int + 32)
    || (65 <= b as int <= 90 && a as int == b as int + 32)
  }

  lemma EqIgnoreAsciiCaseMeaning(a: string, b: string)
    ensures EqIgnoreAsciiCase(a, b) <==> |a| == |b| && forall i :: 0 <= i < |a| ==> IsSameLetter(a[i], b[i])
  {
    assert forall x: char, y: char :: LowerChar(x) == LowerChar(y) <==> IsSameLetter(x, y);
  }

  /** `small` is `s` with each capital replaced by the letter 32 above it. */
  predicate IsInSmall(small: string, s: string) {
    && |small| == |s|
    && forall i :: 0 <= i < |s| ==>
         small[i] as int == if 65 <= s[i] as int <= 90 then s[i] as int + 32 else s[i] as int
  }

  lemma LowerMeaning(s: string, small: string)
    ensures small == Lower(s) <==> IsInSmall(small, s)
  {
  }
}
