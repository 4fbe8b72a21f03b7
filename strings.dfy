/** The two string operations the sidebar search and the upload filter are
    built from: lowering a string and testing whether one string occurs in
    another (`String.prototype.includes`). */
module Strings {

  /** Lowering of one character, restricted to ASCII: 'A'..'Z' become
      'a'..'z' and every other character is left as it is. */
  function LowerChar(c: char): (r: char)
    ensures 'A' <= c <= 'Z' ==> 'a' <= r <= 'z' && r as int - c as int == 32
    ensures !('A' <= c <= 'Z') ==> r == c
  {
    if 'A' <= c <= 'Z' then (c as int + 32) as char else c
  }

  /** `String.prototype.toLowerCase`, character by character. */
  function ToLower(s: string): (r: string)
    ensures |r| == |s|
    ensures forall i :: 0 <= i < |s| ==> r[i] == LowerChar(s[i])
  {
    seq(|s|, i requires 0 <= i < |s| => LowerChar(s[i]))
  }

  /** Lowering twice is lowering once. */
  lemma ToLowerIdempotent(s: string)
    ensures ToLower(ToLower(s)) == ToLower(s)
  {
    assert forall i :: 0 <= i < |s| ==> ToLower(ToLower(s))[i] == ToLower(s)[i];
  }

  /** `needle` occurs in `hay` starting at index `i`. */
  ghost predicate OccursAt(hay: string, needle: string, i: int) {
    0 <= i && i + |needle| <= |hay| && hay[i..i + |needle|] == needle
  }

  lemma OccursShift(hay: string, needle: string)
    requires hay != []
    ensures forall i :: OccursAt(hay[1..], needle, i) ==> OccursAt(hay, needle, i + 1)
    ensures forall j :: 1 <= j && OccursAt(hay, needle, j) ==> OccursAt(hay[1..], needle, j - 1)
  {
    forall i | OccursAt(hay[1..], needle, i)
      ensures OccursAt(hay, needle, i + 1)
    {
      assert hay[i + 1..i + 1 + |needle|] == hay[1..][i..i + |needle|];
    }
    forall j | 1 <= j && OccursAt(hay, needle, j)
      ensures OccursAt(hay[1..], needle, j - 1)
    {
      var k := j - 1;
      assert hay[k + 1..k + 1 + |needle|] == hay[1..][k..k + |needle|];
    }
  }

  /** `hay.includes(needle)`: some position of `hay` starts a copy of `needle`. */
  function Contains(hay: string, needle: string): (r: bool)
    ensures r <==> exists i :: OccursAt(hay, needle, i)
    decreases |hay|
  {
    if needle <= hay then
      assert OccursAt(hay, needle, 0);
      true
    else if hay == [] then
      false
    else
      OccursShift(hay, needle);
      Contains(hay[1..], needle)
  }

  /** The empty string occurs in every string. */
  lemma ContainsEmpty(hay: string)
    ensures Contains(hay, "")
  {
    assert OccursAt(hay, "", 0);
  }

  /** A string placed anywhere inside a longer one is found there. */
  lemma ContainsInside(pre: string, needle: string, post: string)
    ensures Contains(pre + needle + post, needle)
  {
    assert (pre + needle + post)[|pre|..|pre| + |needle|] == needle;
    assert OccursAt(pre + needle + post, needle, |pre|);
  }
}
