/** `translateToEnglish`: rewrite the known Chinese names, drop every remaining CJK rune, trim,
    and collapse runs of spaces. A text is a sequence of runes. */
module Translate {
  import opened TextSearch

  predicate IsCJK(c: char) {
    0x4E00 <= c as int <= 0x9FFF || 0x3400 <= c as int <= 0x4DBF || 0xF900 <= c as int <= 0xFAFF
  }

  /** A Chinese name: every pattern of the replacement table starts with a CJK rune. */
  type ChineseName = s: string | s != "" && IsCJK(s[0]) witness ['\U{4E00}']

  datatype Rule = Rule(cn: ChineseName, en: string)

  /** `unicode.IsSpace`. */
  predicate IsSpace(c: char) {
    var u := c as int;
    || 0x09 <= u <= 0x0D || u == 0x20 || u == 0x85 || u == 0xA0 || u == 0x1680
    || 0x2000 <= u <= 0x200A || u == 0x2028 || u == 0x2029 || u == 0x202F || u == 0x205F || u == 0x3000
  }

  /** `strings.ReplaceAll` for a non-empty pattern: leftmost occurrences that do not overlap. */
  function ReplaceAll(s: string, pat: string, rep: string): string
    requires pat != []
  {
    if pat <= s then rep + ReplaceAll(s[|pat|..], pat, rep)
    else if s == [] then []
    else [s[0]] + ReplaceAll(s[1..], pat, rep)
  }

  function Rewritten(s: string, rules: seq<Rule>): string
    decreases rules
  {
    if rules == [] then s
    else Rewritten(ReplaceAll(s, rules[0].cn, rules[0].en), rules[1..])
  }

  function WithoutCJK(s: string): string {
    if s == [] then [] else (if IsCJK(s[0]) then [] else [s[0]]) + WithoutCJK(s[1..])
  }

  function TrimLeft(s: string): string {
    if s != [] && IsSpace(s[0]) then TrimLeft(s[1..]) else s
  }

  function TrimRight(s: string): string {
    if s != [] && IsSpace(s[|s| - 1]) then TrimRight(s[..|s| - 1]) else s
  }

  function TrimSpace(s: string): string {
    TrimRight(TrimLeft(s))
  }

  /** The one-pass collapse: a space goes when another space follows it. */
  function Squeeze(s: string): string {
    if s == [] then []
    else if |s| > 1 && s[0] == ' ' && s[1] == ' ' then Squeeze(s[1..])
    else [s[0]] + Squeeze(s[1..])
  }

  function Translated(text: string, rules: seq<Rule>): string
  {
    Squeeze(TrimSpace(WithoutCJK(Rewritten(text, rules))))
  }

  ghost predicate NoCJK(s: string) {
    forall i :: 0 <= i < |s| ==> !IsCJK(s[i])
  }

  ghost predicate NoOuterSpace(s: string) {
    s != [] ==> !IsSpace(s[0]) && !IsSpace(s[|s| - 1])
  }

  predicate PairAt(s: string, i: nat)
    requires i + 1 < |s|
  {
    s[i] == ' ' && s[i + 1] == ' '
  }

  ghost predicate NoAdjacentSpaces(s: string) {
    forall i: nat :: i + 1 < |s| ==> !PairAt(s, i)
  }

  // ----- the collapse loop

  lemma {:induction false} ContainsPairIff(s: string)
    ensures Contains(s, "  ") <==> !NoAdjacentSpaces(s)
  {
    if s != [] {
      ContainsFromFront(s, "  ");
      ContainsPairIff(s[1..]);
      if |s| > 1 && s[0] == s[1] == ' ' {
        assert "  " <= s && PairAt(s, 0);
      } else {
        assert forall i: nat :: i + 2 < |s| ==> PairAt(s[1..], i) == PairAt(s, i + 1);
        assert forall i: nat :: 0 < i && i + 1 < |s| ==> PairAt(s[1..], i - 1) == PairAt(s, i);
      }
    }
  }

  /** One round of the loop shortens the text and keeps its collapse. */
  lemma {:induction false} RoundKeepsSqueeze(s: string)
    ensures Squeeze(ReplaceAll(s, "  ", " ")) == Squeeze(s)
    ensures |ReplaceAll(s, "  ", " ")| <= |s|
    ensures Contains(s, "  ") ==> |ReplaceAll(s, "  ", " ")| < |s|
    ensures s != [] ==> ReplaceAll(s, "  ", " ") != [] && ReplaceAll(s, "  ", " ")[0] == s[0]
  {
    if s != [] {
      ContainsFromFront(s, "  ");
    }
    if "  " <= s {
      RoundKeepsSqueeze(s[2..]);
      var r := ReplaceAll(s[2..], "  ", " ");
      assert ReplaceAll(s, "  ", " ") == [' '] + r;
      assert ([' '] + r)[1..] == r;
      assert s[1..][1..] == s[2..];
    } else if s != [] {
      RoundKeepsSqueeze(s[1..]);
      var r := ReplaceAll(s[1..], "  ", " ");
      assert ([s[0]] + r)[1..] == r;
    }
  }

  lemma {:induction false} SqueezeOfSingleSpaces(s: string)
    requires NoAdjacentSpaces(s)
    ensures Squeeze(s) == s
  {
    if s != [] {
      assert forall i: nat :: i + 2 < |s| ==> PairAt(s[1..], i) == PairAt(s, i + 1);
      assert |s| > 1 ==> !PairAt(s, 0);
      SqueezeOfSingleSpaces(s[1..]);
    }
  }

  lemma {:induction false} SqueezeShape(s: string)
    ensures NoAdjacentSpaces(Squeeze(s))
    ensures s != [] ==> Squeeze(s) != [] && Squeeze(s)[0] == s[0] && Squeeze(s)[|Squeeze(s)| - 1] == s[|s| - 1]
    ensures NoCJK(s) ==> NoCJK(Squeeze(s))
  {
    if s != [] {
      SqueezeShape(s[1..]);
      assert NoCJK(s) ==> NoCJK(s[1..]);
      var r := Squeeze(s[1..]);
      if |s| > 1 && s[0] == ' ' && s[1] == ' ' {
        assert r[0] == s[0];
      } else {
        assert forall i: nat :: 0 < i && i < |r| ==> PairAt([s[0]] + r, i) == PairAt(r, i - 1);
      }
    }
  }

  // ----- filter, trim and rewrite

  lemma {:induction false} FilterShape(s: string)
    ensures NoCJK(WithoutCJK(s))
    ensures NoCJK(s) ==> WithoutCJK(s) == s
  {
    if s != [] {
      FilterShape(s[1..]);
      assert NoCJK(s) ==> NoCJK(s[1..]);
      assert s == [s[0]] + s[1..];
    }
  }

  lemma {:induction false} TrimLeftShape(s: string)
    ensures TrimLeft(s) != [] ==> !IsSpace(TrimLeft(s)[0])
    ensures NoCJK(s) ==> NoCJK(TrimLeft(s))
  {
    if s != [] && IsSpace(s[0]) {
      TrimLeftShape(s[1..]);
    }
  }

  lemma {:induction false} TrimRightShape(s: string)
    ensures TrimRight(s) <= s
    ensures TrimRight(s) != [] ==> !IsSpace(TrimRight(s)[|TrimRight(s)| - 1])
  {
    if s != [] && IsSpace(s[|s| - 1]) {
      TrimRightShape(s[..|s| - 1]);
    }
  }

  lemma TrimShape(s: string)
    ensures NoOuterSpace(TrimSpace(s))
    ensures NoCJK(s) ==> NoCJK(TrimSpace(s))
    ensures NoOuterSpace(s) ==> TrimSpace(s) == s
  {
    TrimLeftShape(s);
    TrimRightShape(TrimLeft(s));
  }

  lemma {:induction false} TrimLeftMeaning(s: string) returns (i: nat)
    ensures i <= |s| && TrimLeft(s) == s[i..] && forall k :: 0 <= k < i ==> IsSpace(s[k])
  {
    i := 0;
    if s != [] && IsSpace(s[0]) {
      i := TrimLeftMeaning(s[1..]);
      assert s[1..][i..] == s[i + 1..];
      forall k | 0 < k < i + 1 ensures IsSpace(s[k]) {
        assert s[k] == s[1..][k - 1];
      }
      i := i + 1;
    }
  }

  lemma {:induction false} TrimRightMeaning(s: string) returns (j: nat)
    ensures j <= |s| && TrimRight(s) == s[..j] && forall k :: j <= k < |s| ==> IsSpace(s[k])
  {
    j := |s|;
    if s != [] && IsSpace(s[|s| - 1]) {
      j := TrimRightMeaning(s[..|s| - 1]);
      assert s[..|s| - 1][..j] == s[..j];
      forall k | j <= k < |s| - 1 ensures IsSpace(s[k]) {
        assert s[k] == s[..|s| - 1][k];
      }
    }
  }

  /** Trimming cuts off white space at the two ends, and nothing else. */
  lemma TrimMeaning(s: string) returns (i: nat, j: nat)
    ensures i <= j <= |s| && TrimSpace(s) == s[i..j]
    ensures forall k :: 0 <= k < |s| && !(i <= k < j) ==> IsSpace(s[k])
  {
    i := TrimLeftMeaning(s);
    var n := TrimRightMeaning(s[i..]);
    j := i + n;
    forall k | j <= k < |s| ensures IsSpace(s[k]) {
      assert s[k] == s[i..][k - i];
    }
  }

  lemma {:induction false} ReplaceAbsent(s: string, pat: string, rep: string)
    requires pat != [] && !Contains(s, pat)
    ensures ReplaceAll(s, pat, rep) == s
  {
    if s != [] {
      ContainsFromFront(s, pat);
      ReplaceAbsent(s[1..], pat, rep);
      assert s == [s[0]] + s[1..];
    }
  }

  lemma ReplaceHit(pat: string, b: string, rep: string)
    requires pat != []
    ensures ReplaceAll(pat + b, pat, rep) == rep + ReplaceAll(b, pat, rep)
  {
    assert pat <= pat + b && (pat + b)[|pat|..] == b;
  }

  lemma ReplaceMiss(c: char, t: string, pat: string, rep: string)
    requires pat != [] && !OccursAt([c] + t, pat, 0)
    ensures ReplaceAll([c] + t, pat, rep) == [c] + ReplaceAll(t, pat, rep)
  {
    assert ([c] + t)[1..] == t;
    assert pat <= [c] + t <==> OccursAt([c] + t, pat, 0);
  }

  lemma HeadMoves(c: char, a: string, pat: string, b: string)
    ensures [c] + a + pat + b == [c] + (a + pat + b)
  {
  }

  /** The first occurrence is replaced as a whole, and replacing goes on behind it. */
  lemma {:induction false} ReplaceFirst(a: string, pat: string, b: string, rep: string)
    requires pat != [] && forall i :: 0 <= i < |a| ==> !OccursAt(a + pat + b, pat, i)
    ensures ReplaceAll(a + pat + b, pat, rep) == a + rep + ReplaceAll(b, pat, rep)
  {
    if a == [] {
      ReplaceHit(pat, b, rep);
      assert a + pat + b == pat + b;
    } else {
      var c, rest := a[0], a[1..];
      var t := rest + pat + b;
      assert a == [c] + rest;
      HeadMoves(c, rest, pat, b);
      forall i | 0 <= i < |rest| ensures !OccursAt(t, pat, i) {
        OccursShifted([c], t, pat, i);
        assert !OccursAt(a + pat + b, pat, i + 1);
      }
      assert !OccursAt(a + pat + b, pat, 0);
      ReplaceFirst(rest, pat, b, rep);
      ReplaceMiss(c, t, pat, rep);
      HeadMoves(c, rest, rep, ReplaceAll(b, pat, rep));
    }
  }

  lemma {:induction false} NoOccurrence(s: string, pat: ChineseName)
    requires NoCJK(s)
    ensures !Contains(s, pat)
  {
    if s != [] {
      ContainsFromFront(s, pat);
      NoOccurrence(s[1..], pat);
    }
  }

  lemma {:induction false} RewriteFixesPlainText(s: string, rules: seq<Rule>)
    requires NoCJK(s)
    ensures Rewritten(s, rules) == s
  {
    if rules != [] {
      NoOccurrence(s, rules[0].cn);
      ReplaceAbsent(s, rules[0].cn, rules[0].en);
      RewriteFixesPlainText(s, rules[1..]);
    }
  }

  /** The result is in normal form, whatever the text and the table. */
  lemma TranslatedIsNormal(text: string, rules: seq<Rule>)
    ensures NoCJK(Translated(text, rules))
    ensures NoOuterSpace(Translated(text, rules))
    ensures NoAdjacentSpaces(Translated(text, rules))
  {
    var s := WithoutCJK(Rewritten(text, rules));
    FilterShape(Rewritten(text, rules));
    TrimShape(s);
    SqueezeShape(TrimSpace(s));
  }

  /** A text in normal form is translated to itself. */
  lemma TranslatedFixesNormal(text: string, rules: seq<Rule>)
    requires NoCJK(text) && NoOuterSpace(text) && NoAdjacentSpaces(text)
    ensures Translated(text, rules) == text
  {
    RewriteFixesPlainText(text, rules);
    FilterShape(text);
    TrimShape(text);
    SqueezeOfSingleSpaces(text);
  }

  lemma TranslatedIsIdempotent(text: string, rules: seq<Rule>)
    ensures Translated(Translated(text, rules), rules) == Translated(text, rules)
  {
    TranslatedIsNormal(text, rules);
    TranslatedFixesNormal(Translated(text, rules), rules);
  }

  // ----- the code

  lemma {:induction false} RewrittenStep(s: string, rules: seq<Rule>, n: nat)
    requires n < |rules|
    ensures Rewritten(s, rules[..n + 1]) == ReplaceAll(Rewritten(s, rules[..n]), rules[n].cn, rules[n].en)
    decreases n
  {
    if n > 0 {
      RewrittenStep(ReplaceAll(s, rules[0].cn, rules[0].en), rules[1..], n - 1);
      assert rules[..n + 1][1..] == rules[1..][..n];
      assert rules[..n][1..] == rules[1..][..n - 1];
    }
  }

  lemma {:induction false} RewrittenEmpty(rules: seq<Rule>)
    ensures Rewritten("", rules) == ""
  {
    if rules != [] {
      RewrittenEmpty(rules[1..]);
    }
  }

  lemma {:induction false} FilterAppend(s: string, c: char)
    ensures WithoutCJK(s + [c]) == WithoutCJK(s) + (if IsCJK(c) then [] else [c])
  {
    if s != [] {
      FilterAppend(s[1..], c);
      assert (s + [c])[1..] == s[1..] + [c];
    }
  }

  // ----- rules that can never fire

  ghost predicate AllCJK(s: string) {
    forall i :: 0 <= i < |s| ==> IsCJK(s[i])
  }

  /** A replacement text with nothing from the CJK blocks on: no name can start in it. */
  predicate English(en: string) {
    en != "" && forall i :: 0 <= i < |en| ==> en[i] < '\U{3400}'
  }

  /** Chinese text in front was in front before. */
  lemma {:induction false} FrontWasThere(y: string, s: string, pat: string, rep: string)
    requires pat != "" && English(rep) && AllCJK(y) && y <= ReplaceAll(s, pat, rep)
    ensures y <= s
    decreases |s|
  {
    assert pat <= s ==> ReplaceAll(s, pat, rep)[0] == rep[0];
    if y != "" && !(pat <= s) {
      var r := ReplaceAll(s[1..], pat, rep);
      assert ([s[0]] + r)[1..] == r && y[1..] <= r;
      FrontWasThere(y[1..], s[1..], pat, rep);
      assert y == [y[0]] + y[1..] && s == [s[0]] + s[1..];
    }
  }

  /** Chinese text does not start in an English one. */
  lemma {:induction false} NotInEnglish(rep: string, r: string, x: string)
    requires (forall i :: 0 <= i < |rep| ==> !IsCJK(rep[i])) && AllCJK(x) && x != "" && !Contains(r, x)
    ensures !Contains(rep + r, x)
  {
    if rep == "" {
      assert rep + r == r;
    } else {
      NotInEnglish(rep[1..], r, x);
      ContainsFromFront(rep + r, x);
      assert (rep + r)[1..] == rep[1..] + r;
      assert (rep + r)[0] == rep[0];
    }
  }

  /** Replacing a name does not make another one appear. */
  lemma {:induction false} ReplaceKeepsAbsent(s: string, pat: string, rep: string, x: string)
    requires pat != "" && English(rep) && AllCJK(x) && x != "" && (!Contains(s, x) || x == pat)
    ensures !Contains(ReplaceAll(s, pat, rep), x)
    decreases |s|
  {
    if pat <= s {
      SuffixLacks(s, |pat|, x);
      ReplaceKeepsAbsent(s[|pat|..], pat, rep, x);
      NotInEnglish(rep, ReplaceAll(s[|pat|..], pat, rep), x);
    } else if s != "" {
      var r := ReplaceAll(s[1..], pat, rep);
      ContainsFromFront(s, x);
      ReplaceKeepsAbsent(s[1..], pat, rep, x);
      ContainsFromFront([s[0]] + r, x);
      assert ([s[0]] + r)[1..] == r;
      if x <= [s[0]] + r {
        FrontWasThere(x, s, pat, rep);
      }
    }
  }

  lemma {:induction false} SuffixLacks(s: string, n: nat, x: string)
    requires n <= |s|
    ensures !Contains(s, x) ==> !Contains(s[n..], x)
  {
    if n > 0 {
      ContainsFromFront(s, x);
      SuffixLacks(s[1..], n - 1, x);
      assert s[1..][n - 1..] == s[n..];
    } else {
      assert s[0..] == s;
    }
  }

  lemma {:induction false} RemovedStaysAbsent(text: string, rules: seq<Rule>, i: nat, j: nat)
    requires i < j <= |rules| && AllCJK(rules[i].cn) && forall k :: i <= k < j ==> English(rules[k].en)
    ensures !Contains(Rewritten(text, rules[..j]), rules[i].cn)
    decreases j
  {
    RewrittenStep(text, rules, j - 1);
    if i < j - 1 {
      RemovedStaysAbsent(text, rules, i, j - 1);
    }
    ReplaceKeepsAbsent(Rewritten(text, rules[..j - 1]), rules[j - 1].cn, rules[j - 1].en, rules[i].cn);
  }

  lemma ContainsTransitive(s: string, mid: string, pat: string)
    requires Contains(s, mid) && Contains(mid, pat)
    ensures Contains(s, pat)
  {
    var i := Occurrence(s, mid);
    var j := Occurrence(mid, pat);
    assert s[i..i + |mid|] == mid && mid[j..j + |pat|] == pat;
    assert forall k :: 0 <= k < |pat| ==> s[i + j + k] == mid[j + k] == pat[k];
    assert OccursAt(s, pat, i + j);
  }

  /** A rule whose name holds the name of an earlier rule finds nothing, in any text. */
  lemma ShadowedRuleNeverFires(text: string, rules: seq<Rule>, i: nat, j: nat)
    requires i < j < |rules| && AllCJK(rules[i].cn) && forall k :: i <= k < j ==> English(rules[k].en)
    requires Contains(rules[j].cn, rules[i].cn)
    ensures !Contains(Rewritten(text, rules[..j]), rules[j].cn)
    ensures Rewritten(text, rules[..j + 1]) == Rewritten(text, rules[..j])
  {
    RemovedStaysAbsent(text, rules, i, j);
    if Contains(Rewritten(text, rules[..j]), rules[j].cn) {
      ContainsTransitive(Rewritten(text, rules[..j]), rules[j].cn, rules[i].cn);
    }
    RewrittenStep(text, rules, j);
    ReplaceAbsent(Rewritten(text, rules[..j]), rules[j].cn, rules[j].en);
  }

  // ----- the whole function

  method TranslateToEnglish(text: string, rules: seq<Rule>) returns (result: string)
    ensures result == Translated(text, rules)
  {
    if text == "" {
      RewrittenEmpty(rules);
      return "";
    }
    result := text;
    for i := 0 to |rules|
      invariant result == Rewritten(text, rules[..i])
    {
      RewrittenStep(text, rules, i);
      if Contains(result, rules[i].cn) {
        result := ReplaceAll(result, rules[i].cn, rules[i].en);
      } else {
        ReplaceAbsent(result, rules[i].cn, rules[i].en);
      }
    }
    assert rules[..|rules|] == rules;

    var sb := "";
    for i := 0 to |result|
      invariant sb == WithoutCJK(result[..i])
    {
      FilterAppend(result[..i], result[i]);
      assert result[..i + 1] == result[..i] + [result[i]];
      if !IsCJK(result[i]) {
        sb := sb + [result[i]];
      }
    }
    assert result[..|result|] == result;

    result := TrimSpace(sb);
    while Contains(result, "  ")
      invariant Squeeze(result) == Squeeze(TrimSpace(sb))
      decreases |result|
    {
      RoundKeepsSqueeze(result);
      result := ReplaceAll(result, "  ", " ");
    }
    ContainsPairIff(result);
    SqueezeOfSingleSpaces(result);
  }

  // ----- the pieces, on the runes themselves

  /** The runes of the three blocks of Han characters; all others stay, in their order. */
  lemma FilterMeaning(s: string, c: char)
    ensures WithoutCJK("") == ""
    ensures WithoutCJK(s + [c])
         == if '\U{4E00}' <= c <= '\U{9FFF}' || '\U{3400}' <= c <= '\U{4DBF}' || '\U{F900}' <= c <= '\U{FAFF}'
            then WithoutCJK(s) else WithoutCJK(s) + [c]
  {
    FilterAppend(s, c);
  }

  /** The 25 characters with the property White_Space. */
  lemma SpaceMeaning(c: char)
    ensures IsSpace(c) <==>
            c as int in {9, 10, 11, 12, 13, 32, 133, 160, 5760, 8192, 8193, 8194, 8195, 8196, 8197, 8198, 8199, 8200,
                         8201, 8202, 8232, 8233, 8239, 8287, 12288}
  {
  }

  /** Of two spaces in a row, one goes; a text without such a pair is left alone by `SqueezeOfSingleSpaces`. */
  lemma {:induction false} SqueezeDropsOne(a: string, b: string)
    ensures Squeeze(a + "  " + b) == Squeeze(a + " " + b)
  {
    var s, t := a + "  " + b, a + " " + b;
    if a == "" {
      assert s[1..] == t;
    } else {
      SqueezeDropsOne(a[1..], b);
      assert s[1..] == a[1..] + "  " + b && t[1..] == a[1..] + " " + b;
      assert s[0] == t[0] && s[1] == t[1];
    }
  }

  /** The rules are applied one after the other, each to what the ones before it left. */
  lemma RewrittenInOrder(s: string, rules: seq<Rule>, r: Rule)
    ensures Rewritten(s, []) == s
    ensures Rewritten(s, rules + [r]) == ReplaceAll(Rewritten(s, rules), r.cn, r.en)
  {
    var all := rules + [r];
    RewrittenStep(s, all, |rules|);
    assert all[..|rules| + 1] == all && all[..|rules|] == rules;
  }
}
