/** SQL `LIKE` as the registry's database evaluates it: `%` stands for any text, `_` for one
    character, and ASCII letters match regardless of case. */
module SqlLike {

  function Lower(c: char): char {
    if 'A' <= c <= 'Z' then c + ('a' - 'A') else c
  }

  predicate SameLetter(a: char, b: char) {
    Lower(a) == Lower(b)
  }

  predicate Like(s: string, pat: string)
    decreases |s| + |pat|
  {
    if pat == "" then s == ""
    else if pat[0] == '%' then Like(s, pat[1..]) || (s != "" && Like(s[1..], pat))
    else s != "" && (pat[0] == '_' || SameLetter(s[0], pat[0])) && Like(s[1..], pat[1..])
  }

  predicate WildcardFree(p: string) {
    forall i :: 0 <= i < |p| ==> p[i] != '%' && p[i] != '_'
  }

  /** Equal up to the case of ASCII letters. */
  predicate SameLetters(a: string, b: string) {
    |a| == |b| && forall i :: 0 <= i < |a| ==> SameLetter(a[i], b[i])
  }

  lemma {:induction false} PercentMatchesAll(s: string)
    ensures Like(s, "%")
  {
    if s != "" {
      PercentMatchesAll(s[1..]);
    }
  }

  /** A text is matched by each of its prefixes followed by `%`, wildcards in the prefix or not. */
  lemma {:induction false} LikeOwnPrefix(p: string, rest: string)
    ensures Like(p + rest, p + "%")
  {
    if p == "" {
      PercentMatchesAll(rest);
      assert p + rest == rest && p + "%" == "%";
    } else {
      LikeOwnPrefix(p[1..], rest);
      assert (p + rest)[1..] == p[1..] + rest;
      assert (p + "%")[1..] == p[1..] + "%";
    }
  }

  /** Without wildcards the pattern `p%` still ignores case: it matches more than the prefix `p`. */
  lemma {:induction false} LikePrefixIff(s: string, p: string)
    requires WildcardFree(p)
    ensures Like(s, p + "%") <==> |p| <= |s| && SameLetters(s[..|p|], p)
  {
    if p == "" {
      PercentMatchesAll(s);
      assert p + "%" == "%";
    } else {
      assert (p + "%")[1..] == p[1..] + "%";
      if s != "" {
        LikePrefixIff(s[1..], p[1..]);
        if |p| <= |s| {
          assert s[1..][..|p| - 1] == s[..|p|][1..];
        }
      }
    }
  }

  // ----- what a pattern means, piece by piece

  /** A letter matches itself and the same ASCII letter in the other case, nothing else. */
  lemma SameLetterIff(a: char, b: char)
    ensures SameLetter(a, b) <==>
            || a == b
            || ('A' <= a <= 'Z' && b as int == a as int + 32)
            || ('A' <= b <= 'Z' && a as int == b as int + 32)
  {
  }

  /** The text falls into two parts at `k`, one for each part of the pattern. */
  ghost predicate SplitsAt(s: string, p: string, q: string, k: nat) {
    k <= |s| && Like(s[..k], p) && Like(s[k..], q)
  }

  ghost predicate Splits(s: string, p: string, q: string) {
    exists k: nat :: SplitsAt(s, p, q, k)
  }

  lemma SplitsLater(s: string, c: char, rest: string, p: string, q: string, k: nat)
    requires s == [c] + rest && k <= |rest|
    ensures s[..k + 1] == [c] + rest[..k] && s[k + 1..] == rest[k..]
  {
  }

  /** One turn of the matcher on a wildcard. */
  lemma PercentStep(s: string, pat: string)
    requires pat != "" && pat[0] == '%'
    ensures Like(s, pat) <==> Like(s, pat[1..]) || (s != "" && Like(s[1..], pat))
  {
  }

  lemma SplitsMove(s: string, p: string, p': string, q: string)
    requires s != "" && Splits(s[1..], p', q)
    requires forall t :: Like(t, p') ==> Like([s[0]] + t, p)
    ensures Splits(s, p, q)
  {
    var k: nat :| SplitsAt(s[1..], p', q, k);
    SplitsLater(s, s[0], s[1..], p, q, k);
    assert SplitsAt(s, p, q, k + 1);
  }

  lemma {:induction false} LikeSplits(s: string, p: string, q: string)
    requires Like(s, p + q)
    ensures Splits(s, p, q)
    decreases |s| + |p|
  {
    if p == "" {
      assert p + q == q && s[..0] == "" && s[0..] == s;
      assert SplitsAt(s, p, q, 0);
    } else {
      assert (p + q)[1..] == p[1..] + q && (p + q)[0] == p[0];
      if p[0] == '%' {
        if Like(s, p[1..] + q) {
          LikeSplits(s, p[1..], q);
          var k: nat :| SplitsAt(s, p[1..], q, k);
          assert SplitsAt(s, p, q, k);
        } else {
          LikeSplits(s[1..], p, q);
          forall t | Like(t, p) ensures Like([s[0]] + t, p) {
            assert ([s[0]] + t)[1..] == t;
          }
          SplitsMove(s, p, p, q);
        }
      } else {
        LikeSplits(s[1..], p[1..], q);
        forall t | Like(t, p[1..]) ensures Like([s[0]] + t, p) {
          assert ([s[0]] + t)[1..] == t;
        }
        SplitsMove(s, p, p[1..], q);
      }
    }
  }

  lemma {:induction false} SplitsLike(a: string, b: string, p: string, q: string)
    requires Like(a, p) && Like(b, q)
    ensures Like(a + b, p + q)
    decreases |a| + |p|
  {
    if p == "" {
      assert p + q == q && a + b == b;
    } else {
      assert (p + q)[1..] == p[1..] + q && (p + q)[0] == p[0];
      if p[0] == '%' && Like(a, p[1..]) {
        SplitsLike(a, b, p[1..], q);
      } else {
        assert (a + b)[1..] == a[1..] + b && (a + b)[0] == a[0];
        SplitsLike(a[1..], b, if p[0] == '%' then p else p[1..], q);
      }
    }
  }

  /** Two patterns in a row match what falls into a part for each. */
  lemma LikeConcatIff(s: string, p: string, q: string)
    ensures Like(s, p + q) <==> Splits(s, p, q)
  {
    if Like(s, p + q) {
      LikeSplits(s, p, q);
    }
    if Splits(s, p, q) {
      var k: nat :| SplitsAt(s, p, q, k);
      SplitsLike(s[..k], s[k..], p, q);
      assert s[..k] + s[k..] == s;
    }
  }

  /** The patterns of one character: `%` matches all texts, `_` those of one character, and any other the texts of
      that one letter; the empty pattern matches the empty text. */
  lemma LikeOneIff(s: string, c: char)
    ensures Like(s, "") <==> s == ""
    ensures Like(s, "%")
    ensures Like(s, "_") <==> |s| == 1
    ensures c != '%' && c != '_' ==> (Like(s, [c]) <==> |s| == 1 && SameLetter(s[0], c))
  {
    PercentMatchesAll(s);
    assert "_"[1..] == "" && [c][1..] == "";
  }

  lemma {:induction false} LikePlainIff(s: string, p: string)
    requires WildcardFree(p)
    ensures Like(s, p) <==> SameLetters(s, p)
  {
    if p != "" && s != "" {
      LikePlainIff(s[1..], p[1..]);
    }
  }

  lemma PercentThen(s: string, p: string, k: nat)
    requires WildcardFree(p) && k <= |s|
    ensures SplitsAt(s, "%", p, k) <==> SameLetters(s[k..], p)
  {
    PercentMatchesAll(s[..k]);
    LikePlainIff(s[k..], p);
  }

  /** Without wildcards in it, `%p` matches the texts that end in `p`, up to the case of letters. */
  lemma LikeSuffixIff(s: string, p: string)
    requires WildcardFree(p)
    ensures Like(s, "%" + p) <==> |p| <= |s| && SameLetters(s[|s| - |p|..], p)
  {
    LikeConcatIff(s, "%", p);
    if Splits(s, "%", p) {
      var k: nat :| SplitsAt(s, "%", p, k);
      PercentThen(s, p, k);
    }
    if |p| <= |s| {
      PercentThen(s, p, |s| - |p|);
    }
  }
}
