/** The substring test the recipe filter applies (`recipe_filter in recipe_name`). */
module Text {

  /** `f` occurs in `s` starting at some offset `k`. */
  ghost predicate OccursIn(f: string, s: string) {
    exists k :: 0 <= k <= |s| && f <= s[k..]
  }

  /** Executable substring test: try every offset from the left. */
  function Contains(s: string, f: string): bool
  {
    if f <= s then true
    else if s == [] then false
    else Contains(s[1..], f)
  }

  lemma {:induction false} ContainsIsOccurrence(s: string, f: string)
    ensures Contains(s, f) <==> OccursIn(f, s)
  {
    if f <= s {
      assert s[0..] == s;
    } else if s == [] {
    } else {
      ContainsIsOccurrence(s[1..], f);
      if OccursIn(f, s[1..]) {
        var k :| 0 <= k <= |s[1..]| && f <= s[1..][k..];
        assert s[1..][k..] == s[k + 1..];
      }
      if OccursIn(f, s) {
        var k :| 0 <= k <= |s| && f <= s[k..];
        assert k != 0 by { assert s[0..] == s; }
        assert s[1..][k - 1..] == s[k..];
      }
    }
  }
}
