/** The string primitives the command classifier is built from: ASCII
    `str.lower()`, `str.strip()` with no argument, and Python's substring test
    `needle in haystack`. */
module Text {

  /** The ASCII characters Python's `str.isspace()` accepts, which are the ones
      `str.strip()` removes from either end. */
  predicate IsSpace(c: char) {
    c == ' ' || ('\t' <= c <= '\r') || ('\U{1C}' <= c <= '\U{1F}')
  }

  predicate IsUpper(c: char) {
    'A' <= c <= 'Z'
  }

  /** `str.lower()` on one ASCII character; every other character is kept. */
  function LowerChar(c: char): (r: char)
    ensures !IsUpper(r)
    ensures IsUpper(c) ==> 'a' <= r <= 'z' && r as int - c as int == 32
    ensures !IsUpper(c) ==> r == c
    ensures IsSpace(r) <==> IsSpace(c)
  {
    if IsUpper(c) then (c as int + 32) as char else c
  }

  /** True when the text has no upper-case ASCII letter. */
  predicate IsLowerCase(s: string) {
    forall i :: 0 <= i < |s| ==> !IsUpper(s[i])
  }

  /** `s.lower()`: lower-cases every character in place. */
  function Lower(s: string): (r: string)
    ensures |r| == |s|
    ensures forall i :: 0 <= i < |s| ==> r[i] == LowerChar(s[i])
    ensures IsLowerCase(r)
  {
    if s == [] then [] else [LowerChar(s[0])] + Lower(s[1..])
  }

  /** Lower-casing text that is already lower-case changes nothing. */
  lemma LowerOfLowerCase(s: string)
    requires IsLowerCase(s)
    ensures Lower(s) == s
  {
  }

  /** Lower-casing is determined character by character. */
  lemma LowerIs(s: string, t: string)
    requires |s| == |t|
    requires forall i :: 0 <= i < |s| ==> LowerChar(s[i]) == t[i]
    ensures Lower(s) == t
  {
  }

  /** Removes leading whitespace. */
  function StripLeft(s: string): (r: string)
    ensures |r| <= |s| && r == s[|s| - |r|..]
    ensures forall i :: 0 <= i < |s| - |r| ==> IsSpace(s[i])
    ensures r == [] || !IsSpace(r[0])
  {
    if |s| > 0 && IsSpace(s[0]) then StripLeft(s[1..]) else s
  }

  /** Removes trailing whitespace. */
  function StripRight(s: string): (r: string)
    ensures |r| <= |s| && r == s[..|r|]
    ensures forall i :: |r| <= i < |s| ==> IsSpace(s[i])
    ensures r == [] || !IsSpace(r[|r| - 1])
  {
    if |s| > 0 && IsSpace(s[|s| - 1]) then StripRight(s[..|s| - 1]) else s
  }

  /** `r` is the slice of `s` at offset `a`, with only whitespace before and
      after it. */
  predicate SpaceAround(s: string, r: string, a: int) {
    0 <= a && a + |r| <= |s| && r == s[a..a + |r|]
    && (forall i :: 0 <= i < a ==> IsSpace(s[i]))
    && (forall i :: a + |r| <= i < |s| ==> IsSpace(s[i]))
  }

  /** `r` is `s` with nothing but whitespace removed from either end. */
  ghost predicate StripsTo(s: string, r: string) {
    exists a :: SpaceAround(s, r, a)
  }

  /** `s.strip()`: removes whitespace from both ends. */
  function Strip(s: string): (r: string)
    ensures StripsTo(s, r)
    ensures r == [] || (!IsSpace(r[0]) && !IsSpace(r[|r| - 1]))
  {
    StripRemovesOnlyEnds(s);
    StripRight(StripLeft(s))
  }

  /** The two halves of the strip together remove only edge whitespace. */
  lemma StripRemovesOnlyEnds(s: string)
    ensures StripsTo(s, StripRight(StripLeft(s)))
  {
    var l := StripLeft(s);
    var r := StripRight(l);
    var a := |s| - |l|;
    assert r == s[a..a + |r|];
    forall i | a + |r| <= i < |s|
      ensures IsSpace(s[i])
    {
      assert s[i] == l[i - a];
    }
    assert SpaceAround(s, r, a);
  }

  /** Text without whitespace at either end is its own strip. */
  lemma StripOfTrimmed(s: string)
    requires s == [] || (!IsSpace(s[0]) && !IsSpace(s[|s| - 1]))
    ensures Strip(s) == s
  {
  }

  /** Stripping keeps a middle slice, so it keeps lower-case text lower-case. */
  lemma StripKeepsLowerCase(s: string)
    requires IsLowerCase(s)
    ensures IsLowerCase(Strip(s))
  {
    var r := Strip(s);
    var a :| SpaceAround(s, r, a);
    forall i | 0 <= i < |r|
      ensures !IsUpper(r[i])
    {
      assert r[i] == s[a + i];
    }
  }

  /** `needle` occurs in `hay` starting at position `i`. */
  predicate OccursAt(hay: string, needle: string, i: int) {
    0 <= i && i + |needle| <= |hay| && hay[i..i + |needle|] == needle
  }

  /** Python's `needle in hay` for strings, scanning left to right. */
  function Contains(hay: string, needle: string): bool
    decreases |hay|
  {
    if |needle| > |hay| then false
    else if hay[..|needle|] == needle then true
    else Contains(hay[1..], needle)
  }

  /** The scan agrees with the positional definition of a substring, in both directions. */
  lemma {:induction false} ContainsIffOccurs(hay: string, needle: string)
    ensures Contains(hay, needle) <==> exists i :: OccursAt(hay, needle, i)
    decreases |hay|
  {
    if |needle| > |hay| {
    } else if hay[..|needle|] == needle {
      assert OccursAt(hay, needle, 0);
    } else {
      ContainsIffOccurs(hay[1..], needle);
      forall i | OccursAt(hay[1..], needle, i)
        ensures OccursAt(hay, needle, i + 1)
      {
        assert hay[1..][i..i + |needle|] == hay[i + 1..i + 1 + |needle|];
      }
      forall i | OccursAt(hay, needle, i)
        ensures OccursAt(hay[1..], needle, i - 1)
      {
        assert i != 0;
        assert hay[1..][i - 1..i - 1 + |needle|] == hay[i..i + |needle|];
      }
    }
  }

  /** A needle holding a character the haystack lacks cannot occur in it. */
  lemma MissingCharRulesOut(hay: string, needle: string, c: char)
    requires c in needle && c !in hay
    ensures !Contains(hay, needle)
  {
    ContainsIffOccurs(hay, needle);
    var k :| 0 <= k < |needle| && needle[k] == c;
    forall i | 0 <= i && i + |needle| <= |hay|
      ensures !OccursAt(hay, needle, i)
    {
      assert hay[i..i + |needle|][k] == hay[i + k];
    }
  }

  /** Leading whitespace never holds part of an occurrence of a needle that
      starts with a non-space character. */
  lemma StripLeftKeepsOccurrences(s: string, needle: string)
    requires needle != [] && !IsSpace(needle[0])
    ensures Contains(StripLeft(s), needle) <==> Contains(s, needle)
  {
    ContainsIffOccurs(s, needle);
    ContainsIffOccurs(StripLeft(s), needle);
    if Contains(s, needle) {
      var i :| OccursAt(s, needle, i);
      OccurrenceSurvivesStripLeft(s, needle, i);
    }
    if Contains(StripLeft(s), needle) {
      var j :| OccursAt(StripLeft(s), needle, j);
      OccurrenceInStripLeft(s, needle, j);
    }
  }

  /** An occurrence in `s` lies wholly after the stripped prefix. */
  lemma OccurrenceSurvivesStripLeft(s: string, needle: string, i: int)
    requires needle != [] && !IsSpace(needle[0])
    requires OccursAt(s, needle, i)
    ensures OccursAt(StripLeft(s), needle, i - (|s| - |StripLeft(s)|))
  {
    var l := StripLeft(s);
    var k := |s| - |l|;
    assert s[i] == needle[0];
    assert i >= k;
    assert l[i - k..i - k + |needle|] == s[i..i + |needle|];
  }

  /** An occurrence in the stripped text is one in `s`, shifted by the prefix. */
  lemma OccurrenceInStripLeft(s: string, needle: string, j: int)
    requires OccursAt(StripLeft(s), needle, j)
    ensures OccursAt(s, needle, j + (|s| - |StripLeft(s)|))
  {
    var l := StripLeft(s);
    var k := |s| - |l|;
    assert s[j + k..j + k + |needle|] == l[j..j + |needle|];
  }

  /** Trailing whitespace never holds part of an occurrence of a needle that
      ends with a non-space character. */
  lemma StripRightKeepsOccurrences(s: string, needle: string)
    requires needle != [] && !IsSpace(needle[|needle| - 1])
    ensures Contains(StripRight(s), needle) <==> Contains(s, needle)
  {
    ContainsIffOccurs(s, needle);
    ContainsIffOccurs(StripRight(s), needle);
    if Contains(s, needle) {
      var i :| OccursAt(s, needle, i);
      OccurrenceSurvivesStripRight(s, needle, i);
    }
    if Contains(StripRight(s), needle) {
      var j :| OccursAt(StripRight(s), needle, j);
      OccurrenceInStripRight(s, needle, j);
    }
  }

  /** An occurrence in `s` lies wholly before the stripped suffix. */
  lemma OccurrenceSurvivesStripRight(s: string, needle: string, i: int)
    requires needle != [] && !IsSpace(needle[|needle| - 1])
    requires OccursAt(s, needle, i)
    ensures OccursAt(StripRight(s), needle, i)
  {
    var r := StripRight(s);
    assert s[i + |needle| - 1] == needle[|needle| - 1];
    assert r[i..i + |needle|] == s[i..i + |needle|];
  }

  /** An occurrence in the stripped text is one in `s` at the same position. */
  lemma OccurrenceInStripRight(s: string, needle: string, j: int)
    requires OccursAt(StripRight(s), needle, j)
    ensures OccursAt(s, needle, j)
  {
    var r := StripRight(s);
    assert s[j..j + |needle|] == r[j..j + |needle|];
  }

  /** A needle that starts and ends with a non-space character occurs in `s`
      exactly when it occurs in `s.strip()`. */
  lemma StripKeepsOccurrences(s: string, needle: string)
    requires needle != [] && !IsSpace(needle[0]) && !IsSpace(needle[|needle| - 1])
    ensures Contains(Strip(s), needle) <==> Contains(s, needle)
  {
    StripLeftKeepsOccurrences(s, needle);
    StripRightKeepsOccurrences(StripLeft(s), needle);
  }

  /** True when some phrase of `phrases` occurs in `t`. */
  predicate MentionsAny(t: string, phrases: seq<string>) {
    exists j :: 0 <= j < |phrases| && Contains(t, phrases[j])
  }

  /** The chained `p1 in t or p2 in t or ...` test, evaluated left to right. */
  function ContainsAny(t: string, phrases: seq<string>): (r: bool)
    ensures r <==> MentionsAny(t, phrases)
  {
    if phrases == [] then false
    else Contains(t, phrases[0]) || ContainsAny(t, phrases[1..])
  }

  /** Python's `sep.join(xs)`. */
  function Join(xs: seq<string>, sep: string): string {
    if |xs| == 0 then ""
    else if |xs| == 1 then xs[0]
    else xs[0] + sep + Join(xs[1..], sep)
  }
}
