/**
  Case-insensitive substring search, as the job search (`contains` with
  `mode: "insensitive"`) and the inbox search (`toLowerCase().includes(..)`)
  use it. Lower-casing is modelled on ASCII letters only.
*/
module Text {

  function LowerChar(c: char): char
  {
    if 'A' <= c <= 'Z' then (c as int + 32) as char else c
  }

  /** `s.toLowerCase()`, restricted to ASCII. */
  function Lower(s: string): (r: string)
    ensures |r| == |s|
    ensures forall i :: 0 <= i < |s| ==> r[i] == LowerChar(s[i])
  {
    seq(|s|, i requires 0 <= i < |s| => LowerChar(s[i]))
  }

  /** `needle` occurs in `hay` starting at position `i`. */
  predicate OccursAt(hay: string, needle: string, i: int)
  {
    0 <= i && i + |needle| <= |hay| && hay[i..i + |needle|] == needle
  }

  /** `hay.includes(needle)`. */
  predicate Contains(hay: string, needle: string)
  {
    exists i | 0 <= i <= |hay| :: OccursAt(hay, needle, i)
  }

  predicate ContainsIgnoreCase(hay: string, needle: string)
  {
    Contains(Lower(hay), Lower(needle))
  }

  /** The empty string occurs in every string, so an empty search matches everything. */
  lemma EmptyMatchesAll(hay: string)
    ensures ContainsIgnoreCase(hay, "")
  {
    assert Lower("") == [];
    assert OccursAt(Lower(hay), Lower(""), 0);
  }

  /** Lower-casing twice is lower-casing once. */
  lemma LowerIdempotent(s: string)
    ensures Lower(Lower(s)) == Lower(s)
  {
  }

  /** Lower-casing commutes with taking a slice. */
  lemma LowerSlice(s: string, i: int, j: int)
    requires 0 <= i <= j <= |s|
    ensures Lower(s[i..j]) == Lower(s)[i..j]
  {
  }

  /** An exact occurrence is also a case-insensitive one. */
  lemma ExactMatchIgnoresCase(hay: string, needle: string)
    requires Contains(hay, needle)
    ensures ContainsIgnoreCase(hay, needle)
  {
    var i :| 0 <= i <= |hay| && OccursAt(hay, needle, i);
    LowerSlice(hay, i, i + |needle|);
    assert OccursAt(Lower(hay), Lower(needle), i);
  }

  /** The case of the query does not matter. */
  lemma QueryCaseIrrelevant(hay: string, needle: string)
    ensures ContainsIgnoreCase(hay, Lower(needle)) == ContainsIgnoreCase(hay, needle)
  {
    LowerIdempotent(needle);
  }
}
