/** Substring membership on strings, the `needle in haystack` test the label
    filter applies to limit labels. */
module Substrings {

  /** `p` is a prefix of `s`. */
  predicate IsPrefixOf(p: string, s: string) {
    |p| <= |s| && s[..|p|] == p
  }

  /** The declarative meaning: `sub` occurs in `s` at some offset. */
  ghost predicate IsSubstring(sub: string, s: string) {
    exists k :: 0 <= k <= |s| && IsPrefixOf(sub, s[k..])
  }

  /** Left-to-right search for `sub` in `s`. */
  function Contains(s: string, sub: string): bool
    decreases |s|
  {
    IsPrefixOf(sub, s) || (|s| > 0 && Contains(s[1..], sub))
  }

  /** The search finds `sub` exactly when it occurs somewhere in `s`. */
  lemma {:induction false} ContainsIsSubstring(s: string, sub: string)
    ensures Contains(s, sub) <==> IsSubstring(sub, s)
    decreases |s|
  {
    if |s| > 0 {
      ContainsIsSubstring(s[1..], sub);
      assert s[0..] == s;
      if IsSubstring(sub, s[1..]) {
        var k :| 0 <= k <= |s[1..]| && IsPrefixOf(sub, s[1..][k..]);
        assert s[1..][k..] == s[k + 1..];
      }
      if IsSubstring(sub, s) && !IsPrefixOf(sub, s) {
        var k :| 0 <= k <= |s| && IsPrefixOf(sub, s[k..]);
        assert k != 0;
        assert s[1..][k - 1..] == s[k..];
      }
    } else {
      assert s[0..] == s;
      if IsSubstring(sub, s) {
        var k :| 0 <= k <= |s| && IsPrefixOf(sub, s[k..]);
        assert s[k..] == s;
      }
    }
  }
}
