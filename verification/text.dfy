/**
 The case folding the calculator applies to the marital status before
 comparing it with "casado".
 */
module Text {

  /** Lower-cases an ASCII capital letter and leaves every other character alone. */
  function LowerChar(c: char): char {
    if 'A' <= c <= 'Z' then (c as int + 32) as char else c
  }

  /** Lowers every ASCII capital of `s`: no capital survives, every other
      character is kept, and each capital becomes the letter 32 code points
      above it. */
  function Lower(s: string): (r: string)
    ensures |r| == |s|
    ensures forall k :: 0 <= k < |s| ==> r[k] == LowerChar(s[k])
    ensures forall k :: 0 <= k < |r| ==> !('A' <= r[k] <= 'Z')
    ensures forall k :: 0 <= k < |s| && !('A' <= s[k] <= 'Z') ==> r[k] == s[k]
    ensures forall k :: 0 <= k < |s| && 'A' <= s[k] <= 'Z' ==> 'a' <= r[k] <= 'z' && r[k] as int == s[k] as int + 32
  {
    seq(|s|, k requires 0 <= k < |s| => LowerChar(s[k]))
  }

  /** Lowering an already lowered string changes nothing. */
  lemma LowerIdempotent(s: string)
    ensures Lower(Lower(s)) == Lower(s)
  {
    var r := Lower(s);
    assert forall k :: 0 <= k < |r| ==> Lower(r)[k] == r[k];
  }

  /** A character lowers to a given lower-case ASCII letter exactly when it
      is that letter or its capital. */
  lemma LowerCharIsLetter(c: char, lower: char)
    requires 'a' <= lower <= 'z'
    ensures LowerChar(c) == lower <==> c == lower || c as int == lower as int - 32
  {
  }

  /** `s` lowers to the lower-case ASCII word `w` exactly when every
      character of `s` is the matching letter of `w` or its capital. */
  lemma {:induction false} LowerEqualsIgnoringCase(s: string, w: string)
    requires forall k :: 0 <= k < |w| ==> 'a' <= w[k] <= 'z'
    ensures Lower(s) == w <==>
      |s| == |w| && forall k :: 0 <= k < |s| ==> s[k] == w[k] || s[k] as int == w[k] as int - 32
  {
    if |s| == |w| {
      forall k | 0 <= k < |s|
        ensures LowerChar(s[k]) == w[k] <==> s[k] == w[k] || s[k] as int == w[k] as int - 32
      {
        LowerCharIsLetter(s[k], w[k]);
      }
      if forall k :: 0 <= k < |s| ==> s[k] == w[k] || s[k] as int == w[k] as int - 32 {
        assert Lower(s) == w;
      }
    }
  }
}
