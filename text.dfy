/** String operations the popup's match test is built from: ASCII
    lowercasing (the model of `String.prototype.toLowerCase`) and substring
    search (the model of `String.prototype.includes`). */
module Text {

  predicate IsUpper(c: char) {
    'A' <= c <= 'Z'
  }

  predicate IsLowerLetter(c: char) {
    'a' <= c <= 'z'
  }

  /** ASCII lowercasing of one character; every other character is kept. */
  function LowerChar(c: char): (d: char)
    ensures !IsUpper(d)
    ensures IsUpper(c) ==> IsLowerLetter(d) && d as int == c as int + 32
    ensures !IsUpper(c) ==> d == c
  {
    if IsUpper(c) then (c as int + 32) as char else c
  }

  /** ASCII uppercasing of one character, used only to state what
      "the same letter in another case" means independently of LowerChar. */
  function UpperChar(c: char): char {
    if IsLowerLetter(c) then (c as int - 32) as char else c
  }

  /** Two characters that differ at most in the case of an ASCII letter. */
  predicate SameIgnoringCase(x: char, y: char) {
    x == y || x == UpperChar(y) || UpperChar(x) == y
  }

  /** Two strings that differ at most in the case of their ASCII letters. */
  predicate CaseVariants(a: string, b: string) {
    |a| == |b| && forall i :: 0 <= i < |a| ==> SameIgnoringCase(a[i], b[i])
  }

  /** `s.toLowerCase()`, restricted to ASCII: every character is lowercased
      and the length is kept. */
  function Lower(s: string): (r: string)
    ensures |r| == |s|
    ensures forall i :: 0 <= i < |s| ==> r[i] == LowerChar(s[i])
  {
    if s == [] then [] else [LowerChar(s[0])] + Lower(s[1..])
  }

  /** A string in which no ASCII upper-case letter occurs. */
  predicate IsLowerCase(s: string) {
    forall i :: 0 <= i < |s| ==> !IsUpper(s[i])
  }

  /** `needle` occurs in `hay` starting at position `i`. */
  predicate OccursAt(hay: string, needle: string, i: int) {
    0 <= i && i + |needle| <= |hay| && hay[i..i + |needle|] == needle
  }

  /** `needle` occurs somewhere in `hay`. */
  ghost predicate Occurs(hay: string, needle: string) {
    exists i :: OccursAt(hay, needle, i)
  }

  /** `hay.includes(needle)`: tries every start position from the left, and
      holds exactly when the needle occurs at some position. */
  function Contains(hay: string, needle: string): (found: bool)
    ensures found <==> Occurs(hay, needle)
    decreases |hay|
  {
    if |needle| > |hay| then false
    else if hay[..|needle|] == needle then assert OccursAt(hay, needle, 0); true
    else OccursInTail(hay, needle); Contains(hay[1..], needle)
  }

  /** When the needle is not a prefix, it occurs in the text exactly when it
      occurs in the text without its first character. */
  lemma OccursInTail(hay: string, needle: string)
    requires |needle| <= |hay| && hay[..|needle|] != needle
    ensures Occurs(hay, needle) <==> Occurs(hay[1..], needle)
  {
    if exists i :: OccursAt(hay[1..], needle, i) {
      var i :| OccursAt(hay[1..], needle, i);
      assert hay[i + 1..i + 1 + |needle|] == hay[1..][i..i + |needle|];
      assert OccursAt(hay, needle, i + 1);
    }
    if exists i :: OccursAt(hay, needle, i) {
      var i :| OccursAt(hay, needle, i);
      assert i != 0;
      assert hay[1..][i - 1..i - 1 + |needle|] == hay[i..i + |needle|];
      assert OccursAt(hay[1..], needle, i - 1);
    }
  }

  // ---------------------------------------------------------------------
  // Properties of Lower
  // ---------------------------------------------------------------------

  /** Lowercasing leaves no upper-case ASCII letter behind. */
  lemma LowerIsLowerCase(s: string)
    ensures IsLowerCase(Lower(s))
  {
  }

  /** Lowercasing twice is lowercasing once. */
  lemma LowerIdempotent(s: string)
    ensures Lower(Lower(s)) == Lower(s)
  {
  }

  /** Lowercasing empties exactly the empty string: a query made only of
      blanks stays non-empty. */
  lemma LowerEmptyIff(s: string)
    ensures Lower(s) == [] <==> s == []
  {
  }

  /** Lowercasing changes no character that is not an ASCII capital, so a
      blank-only query passes through unchanged. */
  lemma LowerFixesNonUpper(s: string)
    requires IsLowerCase(s)
    ensures Lower(s) == s
  {
  }

  /** Two characters lowercase alike exactly when they differ at most in
      the case of an ASCII letter. */
  lemma SameIgnoringCaseIff(x: char, y: char)
    ensures SameIgnoringCase(x, y) <==> LowerChar(x) == LowerChar(y)
  {
  }

  /** Two strings lowercase alike exactly when they differ at most in the
      case of their ASCII letters. */
  lemma CaseVariantsIff(a: string, b: string)
    ensures CaseVariants(a, b) <==> Lower(a) == Lower(b)
  {
    if CaseVariants(a, b) {
      forall i | 0 <= i < |a| ensures Lower(a)[i] == Lower(b)[i] {
        SameIgnoringCaseIff(a[i], b[i]);
      }
    }
    if Lower(a) == Lower(b) {
      forall i | 0 <= i < |a| ensures SameIgnoringCase(a[i], b[i]) {
        assert Lower(a)[i] == Lower(b)[i];
        SameIgnoringCaseIff(a[i], b[i]);
      }
    }
  }

  // ---------------------------------------------------------------------
  // Properties of Contains
  // ---------------------------------------------------------------------

  /** The empty string occurs in every string, and only the empty string
      occurs in the empty string. */
  lemma ContainsEmpty(hay: string, needle: string)
    ensures Contains(hay, [])
    ensures Contains([], needle) <==> needle == []
  {
  }
}
