/** Facts about strings used to state what the rule's messages say. */
module Strings {

  /** `t` ends with `s`. */
  predicate EndsWith(t: string, s: string) {
    |s| <= |t| && t[|t| - |s|..] == s
  }

  /** `t` starts with `s`. */
  predicate StartsWith(t: string, s: string) {
    |s| <= |t| && t[..|s|] == s
  }

  /** `s` occurs somewhere inside `t`. */
  predicate Contains(t: string, s: string) {
    exists i :: 0 <= i <= |t| && StartsWith(t[i..], s)
  }

  /** `b` occurs in `a + b + c`. */
  lemma ContainsMiddle(a: string, b: string, c: string)
    ensures Contains(a + b + c, b)
  {
    assert (a + b + c)[|a|..] == b + c;
    assert (b + c)[..|b|] == b;
  }

  /** `b` occurs in `a + b + c + d`. */
  lemma ContainsSecond(a: string, b: string, c: string, d: string)
    ensures Contains(a + b + c + d, b)
  {
    assert (a + b + c + d)[|a|..] == b + c + d;
    assert (b + c + d)[..|b|] == b;
  }

  /** `a + b` ends with `b`. */
  lemma EndsWithLast(a: string, b: string)
    ensures EndsWith(a + b, b)
  {
    assert (a + b)[|a + b| - |b|..] == b;
  }
}
