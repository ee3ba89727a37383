/**
 * The `java.lang.String` operations the standings filter relies on: `isBlank`,
 * `toLowerCase` (restricted to ASCII letters) and `contains`.
 */
module Text {

  /** `Character.isWhitespace`: the ASCII controls 9-13 and 28-31, and the Unicode
      space, line and paragraph separators other than the no-break spaces.  No ASCII letter
      is whitespace; space, tab, newline and carriage return are. */
  function IsWhitespace(c: char): (ws: bool)
    ensures ws ==> !('A' <= c <= 'Z') && !('a' <= c <= 'z')
    ensures c == ' ' || c == '\t' || c == '\n' || c == '\r' ==> ws
  {
    var n := c as int;
    || 9 <= n <= 13
    || 28 <= n <= 32
    || n == 0x1680
    || 0x2000 <= n <= 0x2006
    || 0x2008 <= n <= 0x200A
    || n == 0x2028 || n == 0x2029
    || n == 0x205F || n == 0x3000
  }

  /** `String.isBlank`: empty or whitespace only, so a blank string holds no ASCII letter. */
  function IsBlank(s: string): (blank: bool)
    ensures s == [] ==> blank
    ensures blank ==> forall i :: 0 <= i < |s| ==> !('A' <= s[i] <= 'Z') && !('a' <= s[i] <= 'z')
  {
    forall i :: 0 <= i < |s| ==> IsWhitespace(s[i])
  }

  /** Lower-casing of one character, for the letters 'A' to 'Z'. */
  function ToLower(c: char): (d: char)
    ensures 'A' <= c <= 'Z' ==> 'a' <= d <= 'z' && d as int - c as int == 32
    ensures !('A' <= c <= 'Z') ==> d == c
  {
    if 'A' <= c <= 'Z' then (c as int + 32) as char else c
  }

  /** `String.toLowerCase`, character by character. */
  function Lower(s: string): (r: string)
    ensures |r| == |s|
    ensures forall i :: 0 <= i < |s| ==> r[i] == ToLower(s[i])
  {
    seq(|s|, i requires 0 <= i < |s| => ToLower(s[i]))
  }

  /** `needle` occurs in `hay` starting at index `i`. */
  ghost predicate OccursAt(hay: string, needle: string, i: int)
  {
    0 <= i && i + |needle| <= |hay| && hay[i..i + |needle|] == needle
  }

  /** `String.contains`: `needle` occurs in `hay` at some position. */
  function Contains(hay: string, needle: string): (found: bool)
    ensures found <==> exists i :: OccursAt(hay, needle, i)
    decreases |hay|
  {
    if needle <= hay then
      assert OccursAt(hay, needle, 0);
      true
    else if hay == [] then
      false
    else
      ContainsShift(hay, needle);
      Contains(hay[1..], needle)
  }

  /** When the needle is not a prefix of a non-empty haystack, it occurs in the
      haystack exactly when it occurs in the haystack's tail. */
  lemma ContainsShift(hay: string, needle: string)
    requires hay != [] && !(needle <= hay)
    ensures (exists i :: OccursAt(hay, needle, i)) <==> exists i :: OccursAt(hay[1..], needle, i)
  {
    if exists i :: OccursAt(hay[1..], needle, i) {
      var i :| OccursAt(hay[1..], needle, i);
      assert hay[i + 1..i + 1 + |needle|] == hay[1..][i..i + |needle|];
      assert OccursAt(hay, needle, i + 1);
    }
    if exists i :: OccursAt(hay, needle, i) {
      var i :| OccursAt(hay, needle, i);
      assert i > 0;
      assert hay[1..][i - 1..i - 1 + |needle|] == hay[i..i + |needle|];
      assert OccursAt(hay[1..], needle, i - 1);
    }
  }

  /** Lower-casing a second time changes nothing. */
  lemma LowerIdempotent(s: string)
    ensures Lower(Lower(s)) == Lower(s)
  {
  }

  /** Lower-casing keeps a string blank or non-blank. */
  lemma LowerKeepsBlank(s: string)
    ensures IsBlank(Lower(s)) <==> IsBlank(s)
  {
  }

  /** A needle with a character the haystack lacks does not occur in it. */
  lemma MissingCharNotContained(hay: string, needle: string, j: int)
    requires 0 <= j < |needle| && needle[j] !in hay
    ensures !Contains(hay, needle)
  {
  }
}
