/** ASCII case mapping: the part of JavaScript's `String.prototype.toLowerCase`
    that the environment resolver relies on (letters `A`..`Z` become `a`..`z`,
    every other character is left as it is). */
module AsciiCase {

  predicate IsUpper(c: char)
  {
    'A' <= c <= 'Z'
  }

  /** No character of `s` is an upper-case ASCII letter. */
  predicate IsLowerString(s: string)
  {
    forall i :: 0 <= i < |s| ==> !IsUpper(s[i])
  }

  function LowerChar(c: char): (r: char)
    ensures !IsUpper(r)
    ensures IsUpper(c) ==> r as int == c as int + ('a' as int - 'A' as int)
    ensures !IsUpper(c) ==> r == c
  {
    if IsUpper(c) then (c as int - 'A' as int + 'a' as int) as char else c
  }

  /** Lower-cases every character of `s`, keeping its length. */
  function ToLower(s: string): (r: string)
    ensures |r| == |s|
    ensures forall i :: 0 <= i < |s| ==> r[i] == LowerChar(s[i])
    ensures IsLowerString(r)
  {
    if s == [] then [] else [LowerChar(s[0])] + ToLower(s[1..])
  }

  /** A string that has no upper-case letter is its own lower-case form. */
  lemma ToLowerFixesLower(s: string)
    requires IsLowerString(s)
    ensures ToLower(s) == s
  {
  }

  /** Lower-casing twice is lower-casing once. */
  lemma ToLowerIdempotent(s: string)
    ensures ToLower(ToLower(s)) == ToLower(s)
  {
    ToLowerFixesLower(ToLower(s));
  }

  /** Reference definition of case-insensitive equality of two characters,
      by cases: they are equal, or one is an upper-case letter and the other
      is the letter at the same place in the lower-case alphabet. */
  predicate SameLetterIgnoringCase(x: char, y: char)
  {
    || x == y
    || (IsUpper(x) && y as int == x as int + ('a' as int - 'A' as int))
    || (IsUpper(y) && x as int == y as int + ('a' as int - 'A' as int))
  }

  /** Two characters are equal ignoring case exactly when `LowerChar` maps
      them to the same character. */
  lemma SameLetterIffSameLower(x: char, y: char)
    ensures SameLetterIgnoringCase(x, y) <==> LowerChar(x) == LowerChar(y)
  {
  }

  /** Case-insensitive equality of strings: the same length, and the
      characters agree pairwise ignoring case. */
  predicate EqualIgnoringCase(a: string, b: string)
  {
    if a == [] || b == [] then a == b
    else SameLetterIgnoringCase(a[0], b[0]) && EqualIgnoringCase(a[1..], b[1..])
  }

  /** Two strings are equal ignoring case exactly when their lower-case
      forms are equal. */
  lemma {:induction false} EqualIgnoringCaseIffSameLower(a: string, b: string)
    ensures EqualIgnoringCase(a, b) <==> ToLower(a) == ToLower(b)
  {
    if a == [] || b == [] {
    } else {
      EqualIgnoringCaseIffSameLower(a[1..], b[1..]);
      SameLetterIffSameLower(a[0], b[0]);
      assert ToLower(a) == [LowerChar(a[0])] + ToLower(a[1..]);
      assert ToLower(b) == [LowerChar(b[0])] + ToLower(b[1..]);
      if ToLower(a) == ToLower(b) {
        assert ToLower(a)[1..] == ToLower(a[1..]);
        assert ToLower(b)[1..] == ToLower(b[1..]);
      }
    }
  }
}
