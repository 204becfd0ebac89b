/** The two string operations the search filters use: lower() and `in`. */
module Text {

  /** str.lower() on one character, for the ASCII letters. */
  function LowerChar(c: char): char {
    if 'A' <= c <= 'Z' then (c as int - 'A' as int + 'a' as int) as char else c
  }

  /** str.lower(): every character lowered, length kept. */
  function Lower(s: string): (r: string)
    ensures |r| == |s|
    ensures forall i :: 0 <= i < |s| ==> r[i] == LowerChar(s[i])
  {
    seq(|s|, i requires 0 <= i < |s| => LowerChar(s[i]))
  }

  /** `needle` occurs in `hay` starting at position i. */
  predicate OccursAt(hay: string, needle: string, i: int) {
    0 <= i && i + |needle| <= |hay| && hay[i..i + |needle|] == needle
  }

  predicate IsPrefix(needle: string, hay: string) {
    |needle| <= |hay| && hay[..|needle|] == needle
  }

  /** Python's `needle in hay` on strings: try every start position in turn. */
  function Contains(hay: string, needle: string): (r: bool)
    ensures r ==> |needle| <= |hay|
    decreases |hay|
  {
    IsPrefix(needle, hay) || (|hay| > 0 && Contains(hay[1..], needle))
  }

  /** Contains agrees with the positional definition of a substring, both ways. */
  lemma {:induction false} ContainsIff(hay: string, needle: string)
    ensures Contains(hay, needle) <==> exists i :: OccursAt(hay, needle, i)
    decreases |hay|
  {
    if IsPrefix(needle, hay) {
      assert OccursAt(hay, needle, 0);
    } else if |hay| > 0 {
      ContainsIff(hay[1..], needle);
      if exists i :: OccursAt(hay[1..], needle, i) {
        var i :| OccursAt(hay[1..], needle, i);
        assert hay[i + 1..i + 1 + |needle|] == hay[1..][i..i + |needle|];
        assert OccursAt(hay, needle, i + 1);
      }
      if exists i :: OccursAt(hay, needle, i) {
        var i :| OccursAt(hay, needle, i);
        assert hay[1..][i - 1..i - 1 + |needle|] == hay[i..i + |needle|];
        assert OccursAt(hay[1..], needle, i - 1);
      }
    }
  }

  /** The empty search text is found in every string, so it hides no row. */
  lemma {:induction false} EmptyIsContained(hay: string)
    ensures Contains(hay, "")
  {
    assert IsPrefix("", hay);
  }

  /** A search text longer than the cell text is never found in it. */
  lemma {:induction false} LongerNotContained(hay: string, needle: string)
    requires |needle| > |hay|
    ensures !Contains(hay, needle)
    decreases |hay|
  {
    if |hay| > 0 {
      LongerNotContained(hay[1..], needle);
    }
  }
}
