/**
 * The two string operations the status classifier relies on: lower-casing
 * (`str.lower`) and the substring test (`sub in s`).
 */
module Text {

  /** An upper-case ASCII letter. */
  predicate IsUpper(c: char) {
    'A' <= c <= 'Z'
  }

  /** Lower-cases one character; only the ASCII letters 'A'..'Z' change. */
  function LowerChar(c: char): (d: char)
    ensures !IsUpper(d)
    ensures IsUpper(c) ==> 'a' <= d <= 'z' && d as int == c as int + ('a' as int - 'A' as int)
    ensures !IsUpper(c) ==> d == c
  {
    if IsUpper(c) then (c as int + ('a' as int - 'A' as int)) as char else c
  }

  /** Lower-cases a whole string, character by character. */
  function ToLower(s: string): (r: string)
    ensures |r| == |s|
    ensures forall i :: 0 <= i < |s| ==> r[i] == LowerChar(s[i])
  {
    if s == [] then [] else [LowerChar(s[0])] + ToLower(s[1..])
  }

  /** A string with no upper-case ASCII letter in it. */
  ghost predicate IsLowerCase(s: string) {
    forall i :: 0 <= i < |s| ==> !IsUpper(s[i])
  }

  /** Lower-casing leaves nothing upper-case behind, and lower-case strings are left alone. */
  lemma ToLowerNormalises(s: string)
    ensures IsLowerCase(ToLower(s))
    ensures IsLowerCase(s) ==> ToLower(s) == s
  {
  }

  /** Lower-casing twice is lower-casing once. */
  lemma ToLowerIdempotent(s: string)
    ensures ToLower(ToLower(s)) == ToLower(s)
  {
    ToLowerNormalises(s);
    ToLowerNormalises(ToLower(s));
  }

  /** `sub` occurs in `s` starting at position `i`. */
  ghost predicate OccursAt(sub: string, s: string, i: int) {
    0 <= i && i + |sub| <= |s| && s[i..i + |sub|] == sub
  }

  /** The declarative meaning of Python's `sub in s`: some position holds a copy of `sub`. */
  ghost predicate IsSubstring(sub: string, s: string) {
    exists i :: OccursAt(sub, s, i)
  }

  /**
   * One step of the scan: `sub` occurs in `s` exactly when it sits at the
   * front or occurs in the rest of `s` after the first character.
   */
  lemma SubstringStep(sub: string, s: string)
    requires |sub| <= |s|
    ensures IsSubstring(sub, s) <==> s[..|sub|] == sub || (0 < |s| && IsSubstring(sub, s[1..]))
  {
    if s[..|sub|] == sub {
      assert OccursAt(sub, s, 0);
    } else {
      var t := s[1..];
      if 0 < |s| && IsSubstring(sub, t) {
        var i :| OccursAt(sub, t, i);
        assert t[i..i + |sub|] == s[1..][i..i + |sub|] == s[i + 1..i + 1 + |sub|];
        assert OccursAt(sub, s, i + 1);
      }
      if IsSubstring(sub, s) {
        var i :| OccursAt(sub, s, i);
        if i > 0 {
          assert t[i - 1..i - 1 + |sub|] == s[1..][i - 1..i - 1 + |sub|] == s[i..i + |sub|];
          assert OccursAt(sub, t, i - 1);
        }
      }
    }
  }

  /**
   * Python's `sub in s` for strings: compare at the front, otherwise move one
   * character on. It holds exactly when some position of `s` holds a copy of `sub`.
   */
  function Contains(sub: string, s: string): (found: bool)
    ensures found <==> IsSubstring(sub, s)
    decreases |s|
  {
    if |s| < |sub| then false
    else
      SubstringStep(sub, s);
      if s[..|sub|] == sub then true
      else Contains(sub, s[1..])
  }
}
