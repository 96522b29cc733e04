/**
 * Character classes and string helpers shared by the keyword heuristic and the
 * extractor. The model works on ASCII: Python's `str.lower()`, `\d`, `\w` and `\s`
 * are Unicode-aware, and only their behaviour on code points below 128 is modelled.
 */
module Text {

  predicate IsDigit(c: char) { '0' <= c <= '9' }

  predicate IsUpper(c: char) { 'A' <= c <= 'Z' }

  predicate IsAsciiLetter(c: char) { 'a' <= c <= 'z' || IsUpper(c) }

  /** Python's `\w` on ASCII: letters, digits and the underscore. */
  predicate IsWordChar(c: char) { IsAsciiLetter(c) || IsDigit(c) || c == '_' }

  /** Python's `\s` on ASCII: what `str.isspace` accepts below 128 (tab to carriage
      return, the four separators 0x1C-0x1F, and the space). */
  predicate IsSpace(c: char) { 9 <= c as int <= 13 || 28 <= c as int <= 32 }

  /** `str.lower()` on one character: ASCII upper-case letters move to lower case. */
  function LowerChar(c: char): (r: char)
    ensures !IsUpper(r)
    ensures IsUpper(c) ==> IsAsciiLetter(r) && r as int == c as int + 32
    ensures !IsUpper(c) ==> r == c
  {
    if IsUpper(c) then (c as int + 32) as char else c
  }

  /** `str.lower()`, applied character by character. */
  function Lower(s: string): (r: string)
    ensures |r| == |s|
    ensures forall k :: 0 <= k < |s| ==> r[k] == LowerChar(s[k])
  {
    seq(|s|, k requires 0 <= k < |s| => LowerChar(s[k]))
  }

  /** `w` occurs in `s` starting at index `i`. */
  predicate OccursAt(w: string, s: string, i: int)
  {
    0 <= i <= |s| - |w| && s[i..i + |w|] == w
  }

  /** Python's `w in s` for strings: `w` occurs somewhere in `s` as a contiguous piece. */
  predicate IsSubstring(w: string, s: string)
  {
    exists i :: 0 <= i <= |s| - |w| && OccursAt(w, s, i)
  }

  /** A piece of `t` is still a piece of any text that contains `t`. */
  lemma SubstringExtends(w: string, t: string, u: string, v: string)
    requires IsSubstring(w, t)
    ensures IsSubstring(w, u + t + v)
  {
    var i :| 0 <= i <= |t| - |w| && OccursAt(w, t, i);
    var big := u + t + v;
    assert big[|u| + i..|u| + i + |w|] == w by {
      forall k | 0 <= k < |w| ensures big[|u| + i + k] == w[k] {
        assert big[|u| + i + k] == t[i + k];
      }
    }
    assert OccursAt(w, big, |u| + i);
  }

  /** A word holding a character the text lacks cannot occur in that text. */
  lemma MissingCharNotSubstring(w: string, s: string, k: nat)
    requires k < |w| && w[k] !in s
    ensures !IsSubstring(w, s)
  {
  }

  lemma LowerIdempotent(s: string)
    ensures Lower(Lower(s)) == Lower(s)
  {
  }

  lemma LowerConcat(a: string, b: string)
    ensures Lower(a + b) == Lower(a) + Lower(b)
  {
    assert forall k :: 0 <= k < |a + b| ==> Lower(a + b)[k] == (Lower(a) + Lower(b))[k];
  }
}
