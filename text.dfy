/** The two string operations the name searches use: lower-casing and substring
  * containment. Lower-casing is restricted to the ASCII letters. */
module Text {

  /** `c` lower-cased if it is an ASCII capital, unchanged otherwise. */
  function LowerChar(c: char): (r: char)
    ensures !('A' <= r <= 'Z')
    ensures r == c || ('A' <= c <= 'Z' && r as int == c as int + 32)
  {
    if 'A' <= c <= 'Z' then (c as int + 32) as char else c
  }

  function Lower(s: string): (r: string)
    ensures |r| == |s|
    ensures forall i :: 0 <= i < |s| ==> r[i] == LowerChar(s[i])
  {
    if s == [] then [] else [LowerChar(s[0])] + Lower(s[1..])
  }

  /** `needle` occurs in `hay` at some position (`includes` in JavaScript, `in` in Python). */
  function Contains(hay: string, needle: string): (r: bool)
    ensures needle <= hay ==> r
    ensures r ==> |needle| <= |hay|
  {
    needle <= hay || (hay != [] && Contains(hay[1..], needle))
  }

  /** Every text contains the empty text, and lower-casing leaves it empty. */
  lemma EmptyIsEverywhere(hay: string)
    ensures Contains(hay, Lower(""))
  {}

  /** `needle` stands in `hay` starting at offset `k`. */
  predicate OccursAt(hay: string, needle: string, k: int)
  {
    0 <= k <= |hay| - |needle| && hay[k..k + |needle|] == needle
  }

  /** Containment means an occurrence at some offset, and back. */
  lemma {:induction false} ContainsAt(hay: string, needle: string)
    ensures Contains(hay, needle) <==> exists k :: OccursAt(hay, needle, k)
  {
    if needle <= hay {
      assert OccursAt(hay, needle, 0);
    } else if hay != [] {
      ContainsAt(hay[1..], needle);
      if Contains(hay[1..], needle) {
        var k :| OccursAt(hay[1..], needle, k);
        assert hay[k + 1..k + 1 + |needle|] == hay[1..][k..k + |needle|];
        assert OccursAt(hay, needle, k + 1);
      }
      if exists k :: OccursAt(hay, needle, k) {
        var k :| OccursAt(hay, needle, k);
        if k > 0 {
          assert hay[1..][k - 1..k - 1 + |needle|] == hay[k..k + |needle|];
          assert OccursAt(hay[1..], needle, k - 1);
        }
      }
    }
  }
}
