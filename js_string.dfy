/**
 * The part of JavaScript's `String.prototype.trim` that the chat component
 * relies on: removing white space from both ends of the text box contents.
 *
 * White space is what ECMAScript (ECMA-262, sections 12.2 "White Space" and
 * 12.3 "Line Terminators") lets `trim` strip: TAB, VT, FF, SP, NBSP, ZWNBSP,
 * every Unicode "Space_Separator" (Zs) code point, LF, CR, LS and PS.
 */
module JsString {

  /**
   * A code point that `String.prototype.trim` strips. Among ASCII these are
   * exactly TAB, LF, VT, FF, CR and SP; NEL (U+0085), ZERO WIDTH SPACE
   * (U+200B) and MONGOLIAN VOWEL SEPARATOR (U+180E) are not stripped.
   */
  predicate IsWhitespace(c: char)
    ensures c < '\U{0080}' ==> (IsWhitespace(c) <==> c in "\t\n\U{000B}\U{000C}\r ")
    ensures IsWhitespace(c) ==> c != '\U{0085}' && c != '\U{200B}' && c != '\U{180E}'
  {
    // WhiteSpace
    c == '\t' || c == '\U{000B}' || c == '\U{000C}' || c == ' ' ||
    c == '\U{00A0}' || c == '\U{FEFF}' ||
    // remaining Space_Separator (Zs) code points
    c == '\U{1680}' || ('\U{2000}' <= c <= '\U{200A}') ||
    c == '\U{202F}' || c == '\U{205F}' || c == '\U{3000}' ||
    // LineTerminator
    c == '\n' || c == '\r' || c == '\U{2028}' || c == '\U{2029}'
  }

  /** Every character of `s` from index `lo` up to (not including) `hi` is white space. */
  predicate WhitespaceIn(s: string, lo: nat, hi: nat)
    requires lo <= hi <= |s|
  {
    forall k :: lo <= k < hi ==> IsWhitespace(s[k])
  }

  /** Every character of `s` is white space (vacuously so for ""). */
  predicate AllWhitespace(s: string)
  {
    WhitespaceIn(s, 0, |s|)
  }

  /** `s` neither starts nor ends with white space. */
  predicate Trimmed(s: string)
  {
    s == [] || (!IsWhitespace(s[0]) && !IsWhitespace(s[|s| - 1]))
  }

  /** The index of the first character at or after `i` that is not white space (or `|s|`). */
  function SkipLeading(s: string, i: nat): (n: nat)
    requires i <= |s|
    ensures i <= n <= |s|
    ensures WhitespaceIn(s, i, n)
    ensures n < |s| ==> !IsWhitespace(s[n])
    decreases |s| - i
  {
    if i < |s| && IsWhitespace(s[i]) then SkipLeading(s, i + 1) else i
  }

  /**
   * The end of `s[lo..j]` once its white-space suffix is dropped: the index
   * just past the last character in that range that is not white space (or `lo`).
   */
  function SkipTrailing(s: string, lo: nat, j: nat): (n: nat)
    requires lo <= j <= |s|
    ensures lo <= n <= j
    ensures WhitespaceIn(s, n, j)
    ensures lo < n ==> !IsWhitespace(s[n - 1])
    decreases j
  {
    if lo < j && IsWhitespace(s[j - 1]) then SkipTrailing(s, lo, j - 1) else j
  }

  /**
   * `s.trim()`: `s` without its white-space prefix and suffix. The result is
   * a slice of `s` flanked by white space only, it has no white space at
   * either end, and it is empty exactly when `s` is all white space.
   */
  function Trim(s: string): (r: string)
    ensures |r| <= |s|
    ensures Trimmed(r)
    ensures r == [] <==> AllWhitespace(s)
    ensures exists i, j :: 0 <= i <= j <= |s| && r == s[i..j]
                           && WhitespaceIn(s, 0, i) && WhitespaceIn(s, j, |s|)
  {
    var i := SkipLeading(s, 0);
    var j := SkipTrailing(s, i, |s|);
    s[i..j]
  }

  /**
   * Trim is determined by its characterisation: any slice `s[i..j]` with only
   * white space outside it and none at its ends is `Trim(s)`.
   */
  lemma TrimUnique(s: string, i: nat, j: nat)
    requires i <= j <= |s|
    requires WhitespaceIn(s, 0, i) && WhitespaceIn(s, j, |s|)
    requires Trimmed(s[i..j])
    ensures Trim(s) == s[i..j]
  {
    var a := SkipLeading(s, 0);
    var b := SkipTrailing(s, a, |s|);
    assert Trim(s) == s[a..b];
    if i == j {
      assert forall k :: 0 <= k < |s| ==> (k < i ==> IsWhitespace(s[k])) && (k >= j ==> IsWhitespace(s[k]));
      assert AllWhitespace(s);
    } else {
      // Both slices start at the first character that is not white space ...
      assert s[i] == s[i..j][0];
      assert a == i;
      // ... and end just past the last one.
      assert s[j - 1] == s[i..j][j - 1 - i];
      assert b == j;
    }
  }

  /** Trimming already-trimmed text changes nothing, so `trim` is idempotent. */
  lemma TrimIdempotent(s: string)
    ensures Trim(Trim(s)) == Trim(s)
  {
    var r := Trim(s);
    assert r[0..|r|] == r;
    TrimUnique(r, 0, |r|);
  }
}
