/** Finding one text in another. */
module TextSearch {

  predicate OccursAt(s: string, pat: string, i: int) {
    0 <= i && i + |pat| <= |s| && s[i..i + |pat|] == pat
  }

  /** `strings.Contains`. */
  predicate Contains(s: string, pat: string) {
    exists i :: 0 <= i <= |s| && OccursAt(s, pat, i)
  }

  lemma Occurrence(s: string, pat: string) returns (i: nat)
    requires Contains(s, pat)
    ensures OccursAt(s, pat, i)
  {
    i :| 0 <= i <= |s| && OccursAt(s, pat, i);
  }

  lemma OccursShifted(p: string, s: string, pat: string, k: nat)
    ensures OccursAt(p + s, pat, |p| + k) <==> OccursAt(s, pat, k)
  {
    if k + |pat| <= |s| {
      assert (p + s)[|p| + k..|p| + k + |pat|] == s[k..k + |pat|];
    }
  }

  /** Read from the front: at the first place, or further on. */
  lemma ContainsFromFront(s: string, pat: string)
    requires s != ""
    ensures Contains(s, pat) <==> pat <= s || Contains(s[1..], pat)
  {
    assert [s[0]] + s[1..] == s;
    if pat <= s {
      assert OccursAt(s, pat, 0);
    }
    if Contains(s, pat) && !(pat <= s) {
      var i :| 0 <= i <= |s| && OccursAt(s, pat, i);
      OccursShifted([s[0]], s[1..], pat, i - 1);
    }
    if Contains(s[1..], pat) {
      var k :| 0 <= k <= |s[1..]| && OccursAt(s[1..], pat, k);
      OccursShifted([s[0]], s[1..], pat, k);
    }
  }
}
