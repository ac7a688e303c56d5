/**
 * The two string operations the image resolver applies to an `alt_text`:
 * lower-casing (`String.prototype.toLowerCase`, restricted here to ASCII
 * letters) and the substring test (`String.prototype.includes`).
 */
module AsciiText {

  predicate IsUpper(c: char) { 'A' <= c <= 'Z' }

  predicate IsLower(c: char) { 'a' <= c <= 'z' }

  /** Lower-cases one character: only the ASCII letters A-Z change. */
  function LowerChar(c: char): (r: char)
    ensures !IsUpper(r)
    ensures IsUpper(c) ==> IsLower(r) && r as int - c as int == 'a' as int - 'A' as int
    ensures !IsUpper(c) ==> r == c
  {
    if IsUpper(c) then (c as int - 'A' as int + 'a' as int) as char else c
  }

  /** Flips the case of an ASCII letter; every other character is kept. */
  function SwapCase(c: char): (r: char)
    ensures IsUpper(c) ==> IsLower(r)
    ensures IsLower(c) ==> IsUpper(r)
    ensures !IsUpper(c) && !IsLower(c) ==> r == c
  {
    if IsUpper(c) then (c as int - 'A' as int + 'a' as int) as char
    else if IsLower(c) then (c as int - 'a' as int + 'A' as int) as char
    else c
  }

  /** Lower-cases a whole string, character by character. */
  function ToLower(s: string): (r: string)
    ensures |r| == |s|
    ensures forall i :: 0 <= i < |s| ==> r[i] == LowerChar(s[i])
    ensures forall i :: 0 <= i < |r| ==> !IsUpper(r[i])
  {
    seq(|s|, i requires 0 <= i < |s| => LowerChar(s[i]))
  }

  /**
   * `b` is `a` with the letter case of some of its ASCII letters changed:
   * position by position, each character is kept or has its case flipped.
   */
  ghost predicate Recased(a: string, b: string)
  {
    |a| == |b| && forall i :: 0 <= i < |a| ==> b[i] == a[i] || b[i] == SwapCase(a[i])
  }

  /** Changing the case of ASCII letters does not change the lower-cased string. */
  lemma {:induction false} RecasedLowerEqual(a: string, b: string)
    requires Recased(a, b)
    ensures ToLower(a) == ToLower(b)
  {
    forall i | 0 <= i < |a|
      ensures LowerChar(a[i]) == LowerChar(b[i])
    {
      if b[i] != a[i] {
        assert b[i] == SwapCase(a[i]);
      }
    }
  }

  /** `sub` occurs in `s` starting at position `i`. */
  ghost predicate OccursAt(s: string, sub: string, i: int)
  {
    0 <= i && i + |sub| <= |s| && s[i..i + |sub|] == sub
  }

  /** The substring test `s.includes(sub)`, scanning `s` from the left. */
  function Contains(s: string, sub: string): (r: bool)
    ensures r <==> exists i :: OccursAt(s, sub, i)
    decreases |s|
  {
    if |sub| > |s| then false
    else if s[..|sub|] == sub then
      assert OccursAt(s, sub, 0);
      true
    else
      var r := Contains(s[1..], sub);
      assert r ==> exists i :: OccursAt(s, sub, i) by {
        if r {
          var j :| OccursAt(s[1..], sub, j);
          assert s[1..][j..j + |sub|] == s[j + 1..j + 1 + |sub|];
          assert OccursAt(s, sub, j + 1);
        }
      }
      assert (exists i :: OccursAt(s, sub, i)) ==> r by {
        if exists i :: OccursAt(s, sub, i) {
          var i :| OccursAt(s, sub, i);
          assert i != 0;
          assert s[1..][i - 1..i - 1 + |sub|] == s[i..i + |sub|];
          assert OccursAt(s[1..], sub, i - 1);
        }
      }
      r
  }
}
