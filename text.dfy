/**
 * The two string operations the filter is built from: lower-casing
 * (`str.lower()`) and the substring test (`needle in text`).
 *
 * Lower-casing is modelled on ASCII only: 'A'..'Z' become 'a'..'z' and every
 * other character is left alone. Python's `str.lower()` follows the Unicode
 * case tables, so this is an approximation.
 */
module Text {

  predicate IsUpper(c: char) {
    'A' <= c <= 'Z'
  }

  /** One character of `str.lower()`, ASCII approximation. */
  function LowerChar(c: char): (d: char)
    ensures !IsUpper(d)
    ensures IsUpper(c) ==> d as int == c as int - 'A' as int + 'a' as int
    ensures !IsUpper(c) ==> d == c
  {
    if IsUpper(c) then (c as int - 'A' as int + 'a' as int) as char else c
  }

  /** `s.lower()`: lower-cases every character, keeping the length. */
  function Lower(s: string): (t: string)
    ensures |t| == |s|
    ensures forall i :: 0 <= i < |s| ==> t[i] == LowerChar(s[i])
  {
    if s == [] then [] else [LowerChar(s[0])] + Lower(s[1..])
  }

  /** A string that `str.lower()` leaves unchanged (no upper-case letter). */
  predicate IsLower(s: string) {
    forall i :: 0 <= i < |s| ==> !IsUpper(s[i])
  }

  /** Lower-casing leaves a lower-case string alone. */
  lemma LowerOfLowerCase(s: string)
    requires IsLower(s)
    ensures Lower(s) == s
  {
  }

  lemma LowerIsLower(s: string)
    ensures IsLower(Lower(s))
    ensures IsLower(s) <==> Lower(s) == s
  {
    if IsLower(s) {
      LowerOfLowerCase(s);
    } else {
      var i :| 0 <= i < |s| && IsUpper(s[i]);
      assert Lower(s)[i] != s[i];
    }
  }

  /** Lower-casing twice is lower-casing once. */
  lemma LowerIdempotent(s: string)
    ensures Lower(Lower(s)) == Lower(s)
  {
    LowerIsLower(s);
    LowerIsLower(Lower(s));
  }

  /** `needle` occurs in `text` starting at position `i`. */
  predicate OccursAt(needle: string, text: string, i: int) {
    0 <= i && i + |needle| <= |text| && text[i..i + |needle|] == needle
  }

  /**
   * Python's `needle in text` for strings: does `needle` start at the first
   * position of `text` or somewhere in the rest of it? The empty needle is in
   * every string, the empty one included.
   */
  predicate IsSubstring(needle: string, text: string)
    decreases |text|
  {
    (|needle| <= |text| && text[..|needle|] == needle)
    || (text != [] && IsSubstring(needle, text[1..]))
  }

  /** The recursive test agrees with "there is a position where it occurs". */
  lemma {:induction false} IsSubstringIff(needle: string, text: string)
    ensures IsSubstring(needle, text) <==> exists i :: OccursAt(needle, text, i)
    decreases |text|
  {
    if text != [] {
      IsSubstringIff(needle, text[1..]);
      if IsSubstring(needle, text[1..]) {
        var i :| OccursAt(needle, text[1..], i);
        assert text[1..][i..i + |needle|] == text[i + 1..i + 1 + |needle|];
        assert OccursAt(needle, text, i + 1);
      }
      if i :| OccursAt(needle, text, i) && i > 0 {
        assert text[1..][i - 1..i - 1 + |needle|] == text[i..i + |needle|];
        assert OccursAt(needle, text[1..], i - 1);
      }
    }
    if |needle| <= |text| && text[..|needle|] == needle {
      assert OccursAt(needle, text, 0);
    }
  }

  /** The empty string is a substring of every string (Python: `'' in s`). */
  lemma EmptyIsSubstring(text: string)
    ensures IsSubstring("", text)
  {
  }
}
