/** The string operations the calendar code uses, with the meaning JavaScript gives
    them: toLowerCase and toUpperCase (on the ASCII letters), indexOf and includes,
    and String.prototype.replace with a string pattern, which replaces the first
    occurrence only. */
module Text {

  function LowerChar(c: char): char
  {
    if 'A' <= c <= 'Z' then (c as int + 32) as char else c
  }

  function UpperChar(c: char): char
  {
    if 'a' <= c <= 'z' then (c as int - 32) as char else c
  }

  predicate IsUpperAscii(c: char)
  {
    'A' <= c <= 'Z'
  }

  /** s.toLowerCase() */
  function Lower(s: string): (r: string)
    ensures |r| == |s|
  {
    seq(|s|, i requires 0 <= i < |s| => LowerChar(s[i]))
  }

  /** Lower leaves no upper-case letter, changes nothing else, and is idempotent. */
  lemma LowerMeaning(s: string)
    ensures forall i :: 0 <= i < |s| ==> !IsUpperAscii(Lower(s)[i])
    ensures forall i :: 0 <= i < |s| && !IsUpperAscii(s[i]) ==> Lower(s)[i] == s[i]
    ensures forall i :: 0 <= i < |s| && IsUpperAscii(s[i]) ==> UpperChar(Lower(s)[i]) == s[i]
    ensures Lower(Lower(s)) == Lower(s)
  {
  }

  /** needle occurs in hay at index i. */
  predicate OccursAt(hay: string, needle: string, i: int)
  {
    0 <= i && i + |needle| <= |hay| && hay[i..i + |needle|] == needle
  }

  /** hay.indexOf(needle, from): the first index at or after from where needle
      occurs, or -1. */
  function IndexFrom(hay: string, needle: string, from: nat): (r: int)
    requires from <= |hay|
    ensures r == -1 || (from <= r && OccursAt(hay, needle, r))
    ensures forall j :: from <= j && (r == -1 || j < r) ==> !OccursAt(hay, needle, j)
    decreases |hay| - from
  {
    if from + |needle| > |hay| then -1
    else if hay[from..from + |needle|] == needle then from
    else IndexFrom(hay, needle, from + 1)
  }

  /** hay.indexOf(needle) */
  function IndexOf(hay: string, needle: string): (r: int)
    ensures r == -1 || OccursAt(hay, needle, r)
    ensures forall j :: 0 <= j && (r == -1 || j < r) ==> !OccursAt(hay, needle, j)
  {
    IndexFrom(hay, needle, 0)
  }

  /** hay.includes(needle) */
  function Includes(hay: string, needle: string): (r: bool)
    ensures r <==> exists i :: OccursAt(hay, needle, i)
  {
    IndexOf(hay, needle) >= 0
  }

  /** s.replace(needle, replacement) for a string needle: the first occurrence is
      replaced, and a needle that does not occur leaves s as it is. */
  function ReplaceFirst(s: string, needle: string, replacement: string): (r: string)
    ensures (forall i :: !OccursAt(s, needle, i)) ==> r == s
    ensures forall i ::
      OccursAt(s, needle, i) && (forall j :: 0 <= j < i ==> !OccursAt(s, needle, j)) ==>
      r == s[..i] + replacement + s[i + |needle|..]
  {
    var i := IndexOf(s, needle);
    if i < 0 then s else s[..i] + replacement + s[i + |needle|..]
  }

  /** The empty needle occurs at 0, so replacing it prefixes the replacement. */
  lemma ReplaceEmptyNeedle(s: string, replacement: string)
    ensures ReplaceFirst(s, "", replacement) == replacement + s
  {
    assert s[0..0] == "";
    assert IndexFrom(s, "", 0) == 0;
    assert s[..0] + replacement + s[0..] == replacement + s;
  }
}
