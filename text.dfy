/** String predicates the worker relies on: JavaScript's `startsWith`,
    `includes`, and the end-of-string anchor of the `/sw.js` pattern. */
module Text {

  /** `s.startsWith(prefix)` */
  predicate StartsWith(s: string, prefix: string)
  {
    |prefix| <= |s| && s[..|prefix|] == prefix
  }

  /** `s` ends with `suffix`: what a regular expression `suffix$` matches. */
  predicate EndsWith(s: string, suffix: string)
  {
    |suffix| <= |s| && s[|s| - |suffix|..] == suffix
  }

  /** `s.includes(part)`: `part` occurs somewhere in `s`, at any offset. */
  predicate Contains(s: string, part: string)
    decreases |s|
  {
    StartsWith(s, part) || (|s| > 0 && Contains(s[1..], part))
  }

  /** An occurrence at offset `i` is enough for `Contains`. */
  lemma {:induction false} ContainsAt(s: string, part: string, i: nat)
    requires i <= |s| && StartsWith(s[i..], part)
    ensures Contains(s, part)
    decreases i
  {
    if i > 0 {
      assert s[1..][i - 1..] == s[i..];
      ContainsAt(s[1..], part, i - 1);
    } else {
      assert s[0..] == s;
    }
  }

  /** Every occurrence found by `Contains` sits at some offset of `s`. */
  lemma {:induction false} ContainsHasOffset(s: string, part: string) returns (i: nat)
    requires Contains(s, part)
    ensures i <= |s| && StartsWith(s[i..], part)
    decreases |s|
  {
    if StartsWith(s, part) {
      i := 0;
      assert s[0..] == s;
    } else {
      var j := ContainsHasOffset(s[1..], part);
      assert s[1..][j..] == s[j + 1..];
      i := j + 1;
    }
  }

  /** A string holding `p + q` also holds `p`. */
  lemma ContainsPrefixOfPart(s: string, p: string, q: string)
    requires Contains(s, p + q)
    ensures Contains(s, p)
  {
    var i := ContainsHasOffset(s, p + q);
    assert (p + q)[..|p|] == p;
    assert s[i..][..|p|] == (p + q)[..|p|];
    ContainsAt(s, p, i);
  }
}
