/** The three string operations the link heuristics are built from:
    ASCII lower-casing (`str.lower`), substring search (`in`) and
    prefix/suffix tests (`startswith`, `endswith`). */
module Strings {

  /** Lower-cases one character; only the ASCII letters A-Z change. */
  function LowerChar(c: char): (r: char) {
    if 'A' <= c <= 'Z' then (c as int + 32) as char else c
  }

  /** The small letters, in the order of the capitals 'A' to 'Z'. */
  const SmallLetters: string := "abcdefghijklmnopqrstuvwxyz"

  /** `s.lower()` restricted to ASCII: same length, each capital replaced by
      the small letter at the same place in the alphabet, no upper-case
      letter left, and every other character untouched. */
  function Lower(s: string): (r: string)
    ensures |r| == |s|
    ensures forall i :: 0 <= i < |s| && 'A' <= s[i] <= 'Z' ==> r[i] == SmallLetters[s[i] as int - 'A' as int]
    ensures forall i :: 0 <= i < |r| ==> !('A' <= r[i] <= 'Z')
    ensures forall i :: 0 <= i < |s| && !('A' <= s[i] <= 'Z') ==> r[i] == s[i]
  {
    seq(|s|, i requires 0 <= i < |s| => LowerChar(s[i]))
  }

  /** Lower-casing a string that is already lower-case changes nothing. */
  lemma LowerIdempotent(s: string)
    ensures Lower(Lower(s)) == Lower(s)
  {
  }

  /** Python truthiness of a string: non-empty. */
  predicate NonEmpty(s: string) {
    s != ""
  }

  /** `s.startswith(p)` */
  predicate StartsWith(s: string, p: string) {
    |p| <= |s| && s[..|p|] == p
  }

  /** `s.endswith(p)` */
  predicate EndsWith(s: string, p: string) {
    |p| <= |s| && s[|s| - |p|..] == p
  }

  /** `needle` occurs in `hay` starting at position `i`. */
  predicate OccursAt(needle: string, hay: string, i: int) {
    0 <= i && i + |needle| <= |hay| && hay[i..i + |needle|] == needle
  }

  /** The declarative meaning of `needle in hay`: some window of `hay`
      spells `needle`. */
  ghost predicate IsInfix(needle: string, hay: string) {
    exists i :: OccursAt(needle, hay, i)
  }

  /** `needle in hay`, computed by trying each start position in turn. */
  function Contains(hay: string, needle: string): (b: bool)
    ensures b <==> IsInfix(needle, hay)
    decreases |hay|
  {
    if StartsWith(hay, needle) then
      assert OccursAt(needle, hay, 0);
      true
    else if |hay| <= |needle| then
      InfixTooShort(hay, needle);
      false
    else
      InfixStep(hay, needle);
      Contains(hay[1..], needle)
  }

  /** A window no longer than the needle can only hold it at position 0. */
  lemma InfixTooShort(hay: string, needle: string)
    requires |hay| <= |needle| && !StartsWith(hay, needle)
    ensures !IsInfix(needle, hay)
  {
  }

  /** `needle` occurs in `hay` exactly when it starts `hay` or occurs in
      the rest of `hay` after the first character. */
  lemma InfixStep(hay: string, needle: string)
    requires |hay| > 0
    ensures IsInfix(needle, hay) <==> OccursAt(needle, hay, 0) || IsInfix(needle, hay[1..])
  {
    if IsInfix(needle, hay) {
      var i :| OccursAt(needle, hay, i);
      if i > 0 {
        assert hay[1..][i - 1..i - 1 + |needle|] == hay[i..i + |needle|];
        assert OccursAt(needle, hay[1..], i - 1);
      }
    }
    if IsInfix(needle, hay[1..]) {
      var j :| OccursAt(needle, hay[1..], j);
      assert hay[j + 1..j + 1 + |needle|] == hay[1..][j..j + |needle|];
      assert OccursAt(needle, hay, j + 1);
    }
  }
}
