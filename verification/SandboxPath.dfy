/** `GetAbsolutePath`: a path is read from its last root marker on and rebased onto the file manager's root,
    wherever the process runs. Where that keeps it inside the root is the subject of `Containment`. */
module SandboxPath {
  import opened LexicalPath
  import opened TextSearch
  import opened Wrappers

  /** The working directory's components and the system's temporary directory. */
  datatype Env = Env(cwd: seq<string>, tmp: string)

  predicate IsEnv(env: Env) {
    AllNormal(env.cwd) && Rooted(env.tmp)
  }

  const MARKER := "data/manager"
  const MARKER_SLASH := "data/manager/"

  /** `filepath.Abs("./data/manager")`. */
  function Base(env: Env): string {
    "/" + Joined(env.cwd + ["data", "manager"])
  }

  function LastIndexFrom(s: string, pat: string, n: nat): (r: Option<nat>)
    ensures r.Some? ==> OccursAt(s, pat, r.value) && forall i :: r.value < i <= n ==> !OccursAt(s, pat, i)
    ensures r.None? ==> forall i :: 0 <= i <= n ==> !OccursAt(s, pat, i)
  {
    if OccursAt(s, pat, n) then Some(n)
    else if n == 0 then None
    else LastIndexFrom(s, pat, n - 1)
  }

  /** `strings.LastIndex`. */
  function LastIndex(s: string, pat: string): (r: Option<nat>)
    ensures r.Some? ==> OccursAt(s, pat, r.value) && forall i :: i > r.value ==> !OccursAt(s, pat, i)
    ensures r.None? <==> !Contains(s, pat)
  {
    LastIndexFrom(s, pat, |s|)
  }

  function Under(env: Env, rel: string): string {
    Clean(Join(Base(env), rel))
  }

  function GetAbsolutePath(env: Env, raw: string): string {
    if raw == "" then ""
    else if LastIndex(raw, MARKER_SLASH).Some? then
      Under(env, raw[LastIndex(raw, MARKER_SLASH).value + |MARKER_SLASH|..])
    else if LastIndex(raw, MARKER).Some? then
      Under(env, raw[LastIndex(raw, MARKER).value + |MARKER|..])
    else if Base(env) <= raw || env.tmp <= raw then Clean(raw)
    else Under(env, Clean("/" + raw))
  }

  // ----- the root and what lies behind it

  function Home(env: Env): string {
    "/" + Joined(env.cwd + ["data"])
  }

  lemma HomeShape(env: Env)
    requires IsEnv(env)
    ensures Base(env) == Home(env) + "/manager"
    ensures |Home(env)| > 4 && Home(env)[|Home(env)| - 4..] == "data"
  {
    var c := env.cwd;
    JoinedConcat(c + ["data"], ["manager"]);
    assert c + ["data"] + ["manager"] == c + ["data", "manager"];
    if c != [] {
      JoinedConcat(c, ["data"]);
    } else {
      assert c + ["data"] == ["data"];
    }
  }

  lemma BaseIsNormal(env: Env)
    requires IsEnv(env)
    ensures AllNormal(env.cwd + ["data", "manager"])
  {
    assert Normal("data") && Normal("manager");
  }

  lemma BaseShape(env: Env)
    requires IsEnv(env)
    ensures AllNormal(env.cwd + ["data", "manager"])
    ensures Base(env) == Home(env) + "/manager"
    ensures |Base(env)| > 12 && Base(env)[|Base(env)| - 12..] == MARKER
    ensures Home(env)[|Home(env)| - 1] == 'a'
    ensures OccursAt(Base(env), MARKER, |Base(env)| - 12)
  {
    BaseIsNormal(env);
    HomeShape(env);
    var b, h := Base(env), Home(env);
    assert b[|b| - 12..] == h[|h| - 4..] + "/manager";
    assert h[|h| - 1] == h[|h| - 4..][3];
    assert b[|b| - 12..|b| - 12 + |MARKER|] == b[|b| - 12..];
  }

  /** Text behind a component list: nothing, or a slash and the rest. */
  function Behind(rest: seq<string>): string {
    if rest == [] then "" else "/" + Joined(rest)
  }

  lemma JoinedBehind(cs: seq<string>, rest: seq<string>)
    requires cs != []
    ensures Joined(cs + rest) == Joined(cs) + Behind(rest)
  {
    if rest == [] {
      assert cs + rest == cs;
    } else {
      JoinedConcat(cs, rest);
    }
  }

  lemma RemainderShape(rel: string)
    ensures rel == Split(rel)[0] + Behind(Split(rel)[1..])
  {
    JoinedSplit(rel);
    JoinedBehind([Split(rel)[0]], Split(rel)[1..]);
    assert [Split(rel)[0]] + Split(rel)[1..] == Split(rel);
  }

  lemma CleanRemainder(cs: seq<string>, f: string, rest: seq<string>, rel: string, stack: seq<string>)
    requires cs != [] && AllNormal(cs) && AllNormal(rest)
    requires Split(rel) == [f] + rest && stack == Push(cs, f, true) && stack != []
    ensures Clean("/" + Joined(cs) + "/" + rel) == "/" + Joined(stack + rest) && AllNormal(stack + rest)
  {
    CleanBehindRooted(cs, rel);
    assert ([f] + rest)[1..] == rest;
    PushedNormal(stack, rest, true);
    assert NoSlash(Split(rel)[0]);
    assert AllNormal(stack);
  }

  lemma UnderStack(env: Env, rel: string, stack: seq<string>)
    requires IsEnv(env) && rel != "" && AllNormal(Split(rel)[1..])
    requires stack == Push(env.cwd + ["data", "manager"], Split(rel)[0], true) && stack != []
    ensures Under(env, rel) == "/" + Joined(stack) + Behind(Split(rel)[1..])
  {
    var rest := Split(rel)[1..];
    BaseShape(env);
    CleanRemainder(env.cwd + ["data", "manager"], Split(rel)[0], rest, rel, stack);
    CleanFixesRooted(stack + rest);
    JoinedBehind(stack, rest);
  }

  /* What `Under` makes of a remainder whose components after the first are normal: it hangs the
     remainder below the root, unless the first is a dot, or a dot-dot, which leaves the root. */

  lemma UnderEmpty(env: Env)
    requires IsEnv(env)
    ensures Under(env, "") == Base(env)
  {
    BaseShape(env);
    CleanFixesRooted(env.cwd + ["data", "manager"]);
  }

  lemma HangsBelow(a: string, f: string, tail: string)
    ensures "/" + (a + "/" + f) + tail == "/" + a + "/" + (f + tail)
  {
  }

  lemma UnderPlain(env: Env, rel: string)
    requires IsEnv(env) && AllNormal(Split(rel)[1..]) && Normal(Split(rel)[0])
    ensures rel != "" && Under(env, rel) == Base(env) + "/" + rel
  {
    var bc, f, tail := env.cwd + ["data", "manager"], Split(rel)[0], Behind(Split(rel)[1..]);
    RemainderShape(rel);
    UnderStack(env, rel, bc + [f]);
    JoinedConcat(bc, [f]);
    assert Joined([f]) == f;
    HangsBelow(Joined(bc), f, tail);
  }

  lemma UnderDot(env: Env, rel: string)
    requires IsEnv(env) && AllNormal(Split(rel)[1..]) && Split(rel)[0] == "."
    ensures rel != "" && Under(env, rel) == Base(env) + rel[1..]
  {
    RemainderShape(rel);
    UnderStack(env, rel, env.cwd + ["data", "manager"]);
    assert rel[1..] == Behind(Split(rel)[1..]);
  }

  function UpFromBase(env: Env): (r: seq<string>)
    ensures r == Push(env.cwd + ["data", "manager"], "..", true)
  {
    assert (env.cwd + ["data", "manager"])[..|env.cwd| + 1] == env.cwd + ["data"];
    env.cwd + ["data"]
  }

  lemma UnderUp(env: Env, rel: string)
    requires IsEnv(env) && AllNormal(Split(rel)[1..]) && Split(rel)[0] == ".."
    ensures |rel| >= 2 && Under(env, rel) == Home(env) + rel[2..]
  {
    RemainderShape(rel);
    UnderStack(env, rel, UpFromBase(env));
    assert rel[2..] == Behind(Split(rel)[1..]);
  }

  lemma UnderNormal(env: Env, rel: string)
    requires IsEnv(env) && AllNormal(Split(rel))
    ensures rel != "" && Under(env, rel) == Base(env) + "/" + rel
  {
    UnderPlain(env, rel);
  }

  // ----- the marker

  lemma MarkerStartsOnce(k: nat)
    requires 0 < k < 13
    ensures MARKER_SLASH[k] != MARKER_SLASH[0]
  {
  }

  /** The marker has no border: an occurrence that starts inside one can not overlap it. */
  lemma NoOverlap(y: string, i: nat, j: nat)
    requires OccursAt(y, MARKER_SLASH, i) && i < j < i + 13
    ensures !OccursAt(y, MARKER_SLASH, j)
  {
    if OccursAt(y, MARKER_SLASH, j) {
      assert y[j..j + 13][0] == y[j] == y[i..i + 13][j - i];
      MarkerStartsOnce(j - i);
    }
  }

  lemma MarkerAtRoot(env: Env, rel: string)
    requires IsEnv(env)
    ensures OccursAt(Base(env) + "/" + rel, MARKER_SLASH, |Base(env)| - 12)
  {
    BaseShape(env);
    var b := Base(env);
    assert (b + "/" + rel)[|b| - 12..|b| + 1] == b[|b| - 12..] + "/";
  }

  /** Below the root, the last marker is the root's own. */
  lemma MarkerBelowRoot(env: Env, rel: string)
    requires IsEnv(env) && !Contains(rel, MARKER_SLASH)
    ensures LastIndex(Base(env) + "/" + rel, MARKER_SLASH) == Some(|Base(env)| - 12)
  {
    BaseShape(env);
    MarkerAtRoot(env, rel);
    var b, y := Base(env), Base(env) + "/" + rel;
    forall j | j > |b| - 12 ensures !OccursAt(y, MARKER_SLASH, j) {
      if j <= |b| {
        NoOverlap(y, |b| - 12, j);
      } else {
        OccursShifted(b + "/", rel, MARKER_SLASH, j - |b| - 1);
      }
    }
  }

  lemma SuffixHasNoLater(s: string, pat: string, i: nat, n: nat)
    requires i <= n <= |s| && forall j :: j > i ==> !OccursAt(s, pat, j)
    requires n > i
    ensures !Contains(s[n..], pat)
  {
    forall j | OccursAt(s[n..], pat, j) ensures false {
      assert s[n + j..n + j + |pat|] == s[n..][j..j + |pat|];
      assert OccursAt(s, pat, n + j);
    }
  }

  lemma SlashMarkerIsMarker(s: string)
    requires Contains(s, MARKER_SLASH)
    ensures Contains(s, MARKER)
  {
    var i := Occurrence(s, MARKER_SLASH);
    assert s[i..i + 12] == s[i..i + 13][..12];
    assert OccursAt(s, MARKER, i);
  }

  lemma PrefixKeepsMarker(p: string, s: string, pat: string)
    requires p <= s && Contains(p, pat)
    ensures Contains(s, pat)
  {
    var i := Occurrence(p, pat);
    assert s[i..i + |pat|] == p[i..i + |pat|];
    assert OccursAt(s, pat, i);
  }

  // ----- which paths are left alone

  /** The rooted clean paths that `GetAbsolutePath` maps to themselves. */
  ghost predicate Settled(env: Env, y: string) {
    || (Base(env) + "/" <= y && !Contains(y[|Base(env)| + 1..], MARKER_SLASH))
    || (y == Base(env) && !Contains(Base(env), MARKER_SLASH))
    || (!Contains(y, MARKER) && env.tmp <= y)
  }

  lemma Regrouped(h: string, c: string, rel: string)
    ensures h + ("/" + c) + "/" + rel == h + "/" + c + "/" + rel
  {
  }

  lemma CleanTailBehind(h: string, c: string, rel: string, path: string)
    requires path == h + ("/" + c) + "/" + rel && Clean(path) == path && Normal(c)
    ensures AllNormal(Split(rel))
  {
    Regrouped(h, c, rel);
    CleanTail(path, h, c, rel);
  }

  /** What is below the root in a clean path is normal. */
  lemma BelowRootIsNormal(env: Env, rel: string)
    requires IsEnv(env) && Clean(Base(env) + "/" + rel) == Base(env) + "/" + rel
    ensures AllNormal(Split(rel))
  {
    HomeShape(env);
    assert "/manager" == "/" + "manager" && Normal("manager");
    CleanTailBehind(Home(env), "manager", rel, Base(env) + "/" + rel);
  }

  lemma BelowRootIsFixed(env: Env, rel: string)
    requires IsEnv(env) && Clean(Base(env) + "/" + rel) == Base(env) + "/" + rel && !Contains(rel, MARKER_SLASH)
    ensures GetAbsolutePath(env, Base(env) + "/" + rel) == Base(env) + "/" + rel
  {
    var y := Base(env) + "/" + rel;
    MarkerBelowRoot(env, rel);
    BelowRootIsNormal(env, rel);
    UnderNormal(env, rel);
    assert y[|Base(env)| - 12 + 13..] == rel;
  }

  lemma RootIsFixed(env: Env)
    requires IsEnv(env) && !Contains(Base(env), MARKER_SLASH)
    ensures GetAbsolutePath(env, Base(env)) == Base(env)
  {
    BaseShape(env);
    assert LastIndex(Base(env), MARKER).value == |Base(env)| - 12;
    UnderEmpty(env);
  }

  lemma SettledIsFixed(env: Env, y: string)
    requires IsEnv(env) && y != "" && Clean(y) == y && Settled(env, y)
    ensures GetAbsolutePath(env, y) == y
  {
    var b := Base(env);
    if b + "/" <= y && !Contains(y[|b| + 1..], MARKER_SLASH) {
      assert y == b + "/" + y[|b| + 1..];
      BelowRootIsFixed(env, y[|b| + 1..]);
    } else if y == b && !Contains(b, MARKER_SLASH) {
      RootIsFixed(env);
    } else if Contains(y, MARKER_SLASH) {
      SlashMarkerIsMarker(y);
    }
  }

  lemma AroundSlashMarker(raw: string, i: nat)
    requires OccursAt(raw, MARKER_SLASH, i)
    ensures raw == (raw[..i] + "data") + "/" + "manager" + "/" + raw[i + 13..]
  {
    assert raw == raw[..i] + raw[i..i + 13] + raw[i + 13..];
    assert MARKER_SLASH == "data" + "/" + "manager" + "/";
  }

  /** With the longer marker in it, a clean path is rebased below the root. */
  lemma SlashMarkerRebases(env: Env, raw: string)
    requires IsEnv(env) && Clean(raw) == raw && raw != "" && LastIndex(raw, MARKER_SLASH).Some?
    ensures var rel := raw[LastIndex(raw, MARKER_SLASH).value + 13..];
            rel != "" && GetAbsolutePath(env, raw) == Base(env) + "/" + rel && !Contains(rel, MARKER_SLASH)
  {
    var i := LastIndex(raw, MARKER_SLASH).value;
    var rel := raw[i + 13..];
    AroundSlashMarker(raw, i);
    CleanTail(raw, raw[..i] + "data", "manager", rel);
    UnderNormal(env, rel);
    SuffixHasNoLater(raw, MARKER_SLASH, i, i + 13);
  }

  lemma NoSlashBehindMarker(raw: string, i: nat)
    requires OccursAt(raw, MARKER, i) && !Contains(raw, MARKER_SLASH)
    ensures raw[i + 12..] != "" ==> raw[i + 12] != '/'
  {
    if i + 12 < |raw| && raw[i + 12] == '/' {
      assert raw[i..i + 13] == raw[i..i + 12] + "/";
      assert OccursAt(raw, MARKER_SLASH, i);
    }
  }

  lemma AroundMarker(raw: string, i: nat, f: string, tail: string)
    requires OccursAt(raw, MARKER, i) && raw[i + 12..] == f + "/" + tail
    ensures raw == (raw[..i] + "data") + "/" + ("manager" + f) + "/" + tail
  {
    assert raw == raw[..i] + raw[i..i + 12] + raw[i + 12..];
    assert MARKER == "data" + "/" + "manager";
  }

  /** The remainder behind the shorter marker continues the component `manager...`. */
  lemma RemainderIsClean(raw: string, i: nat)
    requires Clean(raw) == raw && OccursAt(raw, MARKER, i)
    ensures AllNormal(Split(raw[i + 12..])[1..])
  {
    var rel := raw[i + 12..];
    var f, rest := Split(rel)[0], Split(rel)[1..];
    RemainderShape(rel);
    if rest != [] {
      AroundMarker(raw, i, f, Joined(rest));
      CleanTail(raw, raw[..i] + "data", "manager" + f, Joined(rest));
      SplitJoined(rest);
    }
  }

  /** The text starts with this component. */
  predicate Leads(c: string, rel: string) {
    c <= rel && Split(rel)[0] == c
  }

  lemma FirstComponent(rel: string)
    requires rel != "" ==> rel[0] != '/'
    ensures Split(rel)[0] == "" ==> rel == ""
    ensures rel == "" || Leads(".", rel) || Leads("..", rel) || Normal(Split(rel)[0])
  {
    RemainderShape(rel);
  }

  /* What `GetAbsolutePath` returns on a clean path with the shorter marker only, by what follows the marker. */

  ghost predicate BareMarker(raw: string) {
    !Contains(raw, MARKER_SLASH) && Contains(raw, MARKER)
  }

  function Remainder(raw: string): string
    requires LastIndex(raw, MARKER).Some?
  {
    raw[LastIndex(raw, MARKER).value + 12..]
  }

  function Rebased(env: Env, rel: string): string {
    if rel == "" then Base(env)
    else if Leads(".", rel) then Base(env) + rel[1..]
    else if Leads("..", rel) then Home(env) + rel[2..]
    else Base(env) + "/" + rel
  }

  lemma BareMarkerRebases(env: Env, raw: string)
    requires IsEnv(env) && Clean(raw) == raw && raw != "" && BareMarker(raw)
    ensures !Contains(Remainder(raw), MARKER) && GetAbsolutePath(env, raw) == Rebased(env, Remainder(raw))
  {
    var i, rel := LastIndex(raw, MARKER).value, Remainder(raw);
    RemainderIsClean(raw, i);
    NoSlashBehindMarker(raw, i);
    FirstComponent(rel);
    SuffixHasNoLater(raw, MARKER, i, i + 12);
    if rel == "" {
      UnderEmpty(env);
    } else if Leads(".", rel) {
      UnderDot(env, rel);
    } else if Leads("..", rel) {
      UnderUp(env, rel);
    } else {
      UnderPlain(env, rel);
    }
  }

  // ----- clean paths without a marker

  /** The path with its leading slash or dot-dots taken off. */
  function Lifted(raw: string): string {
    Joined(Pushed([], Split(raw), true))
  }

  lemma SuffixKeepsAbsence(p: string, s: string, pat: string)
    requires !Contains(p + s, pat)
    ensures !Contains(s, pat)
  {
    forall k | OccursAt(s, pat, k) ensures false {
      OccursShifted(p, s, pat, k);
    }
  }

  lemma {:induction false} LiftRelative(cs: seq<string>, pat: string)
    requires Relative(cs) && pat != "" && !Contains(Joined(cs), pat)
    ensures AllNormal(Pushed([], cs, true)) && !Contains(Joined(Pushed([], cs, true)), pat)
  {
    if cs != [] && cs[0] == ".." {
      if |cs| > 1 {
        SuffixKeepsAbsence(cs[0] + "/", Joined(cs[1..]), pat);
      }
      LiftRelative(cs[1..], pat);
    } else {
      assert AllNormal(cs);
      PushedNormal([], cs, true);
      assert [] + cs == cs;
    }
  }

  lemma LiftClean(raw: string, pat: string)
    requires Clean(raw) == raw && raw != "" && pat != "" && !Contains(raw, pat)
    ensures AllNormal(Pushed([], Split(raw), true)) && !Contains(Lifted(raw), pat)
    ensures Rooted(raw) ==> raw == "/" + Lifted(raw)
  {
    if raw == "/" || raw == "." {
      SplitPlain("");
      SplitCons('/', "");
      PushedConcat([], [""], [""], true);
      PushedEmpty([], true);
      assert [""] + [""] == ["", ""];
    } else {
      var cs := CleanSplit(raw);
      if Rooted(raw) {
        PushedConcat([], [""], cs, true);
        PushedEmpty([], true);
        PushedNormal([], cs, true);
        assert [] + cs == cs;
        SuffixKeepsAbsence("/", Joined(cs), pat);
      } else {
        LiftRelative(cs, pat);
      }
    }
  }

  lemma CleanLifts(raw: string)
    requires AllNormal(Pushed([], Split(raw), true))
    ensures Clean("/" + raw) == "/" + Lifted(raw)
  {
    SplitCons('/', raw);
    PushedConcat([], [""], Split(raw), true);
    PushedEmpty([], true);
  }

  lemma PushedRooted(stack: seq<string>, cs: seq<string>)
    requires AllNormal(cs)
    ensures Pushed(stack, Split("/" + Joined(cs)), true) == stack + cs
  {
    var tail := if cs == [] then [""] else cs;
    RootedSplit(cs);
    PushedConcat(stack, [""], tail, true);
    PushedEmpty(stack, true);
    PushedNormal(stack, cs, true);
  }

  lemma CleanRebasedOnce(bc: seq<string>, cs: seq<string>, rel: string)
    requires AllNormal(bc) && AllNormal(cs) && bc != [] && rel == "/" + Joined(cs)
    ensures Clean("/" + Joined(bc) + "/" + rel) == "/" + Joined(bc + cs)
  {
    CleanBehindRooted(bc, rel);
    PushedRooted(bc, cs);
  }

  lemma CleanTwice(path: string, cs: seq<string>)
    requires AllNormal(cs) && Clean(path) == "/" + Joined(cs)
    ensures Clean(Clean(path)) == "/" + Joined(cs)
  {
    CleanFixesRooted(cs);
  }

  lemma Associates(a: string, b: string, c: string)
    ensures a + (b + c) == a + b + c
  {
  }

  lemma CleanRebased(bc: seq<string>, cs: seq<string>, path: string)
    requires AllNormal(bc) && AllNormal(cs) && bc != [] && Clean(path) == "/" + Joined(bc + cs)
    ensures Clean(Clean(path)) == "/" + Joined(bc) + Behind(cs)
  {
    CleanTwice(path, bc + cs);
    JoinedBehind(bc, cs);
    Associates("/", Joined(bc), Behind(cs));
  }

  lemma UnderLifted(env: Env, cs: seq<string>)
    requires IsEnv(env) && AllNormal(cs)
    ensures Under(env, "/" + Joined(cs)) == Base(env) + Behind(cs)
  {
    BaseShape(env);
    var bc := env.cwd + ["data", "manager"];
    CleanRebasedOnce(bc, cs, "/" + Joined(cs));
    CleanRebased(bc, cs, Base(env) + "/" + ("/" + Joined(cs)));
  }

  lemma PlainRebases(env: Env, raw: string)
    requires IsEnv(env) && Clean(raw) == raw && raw != "" && !Contains(raw, MARKER) && !(env.tmp <= raw)
    ensures !Contains(Lifted(raw), MARKER) && (Rooted(raw) ==> raw == "/" + Lifted(raw))
    ensures GetAbsolutePath(env, raw) == if Lifted(raw) == "" then Base(env) else Base(env) + "/" + Lifted(raw)
  {
    if Contains(raw, MARKER_SLASH) {
      SlashMarkerIsMarker(raw);
    }
    BaseShape(env);
    if Base(env) <= raw {
      PrefixKeepsMarker(Base(env), raw, MARKER);
    }
    LiftClean(raw, MARKER);
    CleanLifts(raw);
    UnderLifted(env, Pushed([], Split(raw), true));
  }

  // ----- exactly the settled paths are fixed

  lemma FixedIsSettled(env: Env, y: string)
    requires IsEnv(env) && Rooted(y) && Clean(y) == y && GetAbsolutePath(env, y) == y
    ensures Settled(env, y)
  {
    BaseShape(env);
    var b := Base(env);
    if Contains(y, MARKER_SLASH) {
      SlashMarkerRebases(env, y);
      assert y[|b| + 1..] == y[LastIndex(y, MARKER_SLASH).value + 13..];
    } else if Contains(y, MARKER) {
      BareMarkerRebases(env, y);
      BareMarkerFixedIsBase(env, y);
    } else if !(env.tmp <= y) {
      PlainRebases(env, y);
    }
  }

  /** Without the longer marker, only the root itself can be mapped to itself. */
  lemma BareMarkerFixedIsBase(env: Env, y: string)
    requires IsEnv(env) && Clean(y) == y && y != "" && BareMarker(y) && GetAbsolutePath(env, y) == y
    ensures y == Base(env)
  {
    BaseShape(env);
    BareMarkerRebases(env, y);
    var rel := Remainder(y);
    if rel != "" && !Leads(".", rel) && !Leads("..", rel) {
      MarkerAtRoot(env, rel);
    }
  }

  /** `GetAbsolutePath` leaves a rooted clean path alone exactly when it is settled. */
  lemma FixedIffSettled(env: Env, y: string)
    requires IsEnv(env) && Rooted(y) && Clean(y) == y
    ensures GetAbsolutePath(env, y) == y <==> Settled(env, y)
  {
    if Settled(env, y) {
      SettledIsFixed(env, y);
    } else if GetAbsolutePath(env, y) == y {
      FixedIsSettled(env, y);
    }
  }

  /** Whatever the input, the result is a rooted clean path. */
  lemma ResultIsClean(env: Env, raw: string)
    requires IsEnv(env) && raw != ""
    ensures Rooted(GetAbsolutePath(env, raw)) && Clean(GetAbsolutePath(env, raw)) == GetAbsolutePath(env, raw)
  {
    var y := GetAbsolutePath(env, raw);
    assert exists p :: Rooted(p) && y == Clean(p) by {
      BaseShape(env);
      if Contains(raw, MARKER_SLASH) {
        JoinIsRooted(env, raw[LastIndex(raw, MARKER_SLASH).value + 13..]);
      } else if Contains(raw, MARKER) {
        JoinIsRooted(env, raw[LastIndex(raw, MARKER).value + 12..]);
      } else if !(Base(env) <= raw || env.tmp <= raw) {
        JoinIsRooted(env, Clean("/" + raw));
      }
    }
    var p :| Rooted(p) && y == Clean(p);
    CleanRooted(p);
    var cs :| AllNormal(cs) && Clean(p) == "/" + Joined(cs);
    CleanFixesRooted(cs);
  }

  lemma JoinIsRooted(env: Env, rel: string)
    requires IsEnv(env)
    ensures Rooted(Join(Base(env), rel))
  {
    CleanRooted(if rel == "" then Base(env) else Base(env) + "/" + rel);
  }

  // ----- idempotence on clean paths, exactly

  /** The working directory lies below another file manager root. */
  ghost predicate Nested(env: Env) {
    Contains(Base(env), MARKER_SLASH)
  }

  ghost predicate RemainderSettles(env: Env, rel: string) {
    if rel == "" || rel == "." then !Nested(env)
    else if Leads("..", rel) then
      || "/manager/" <= rel[2..]
      || (rel[2..] == "/manager" && !Nested(env))
      || (!Contains(Home(env) + rel[2..], MARKER) && env.tmp <= Home(env) + rel[2..])
    else true
  }

  /** Read off a clean path before the call. The paths that do not settle are those mapped to the root of
      a nested installation, and those where a component `manager..` stands behind `data`: its dot-dot
      leaves the root, and only `manager` or the temporary directory leads back. */
  ghost predicate Settles(env: Env, raw: string) {
    if Contains(raw, MARKER_SLASH) then true
    else if Contains(raw, MARKER) then RemainderSettles(env, Remainder(raw))
    else env.tmp <= raw || Lifted(raw) != "" || !Nested(env)
  }

  lemma RootSettled(env: Env)
    requires IsEnv(env)
    ensures Settled(env, Base(env)) <==> !Nested(env)
  {
    BaseShape(env);
  }

  lemma BelowRootSettled(env: Env, rel: string)
    requires IsEnv(env) && !Contains(rel, MARKER_SLASH)
    ensures Settled(env, Base(env) + "/" + rel)
  {
    assert (Base(env) + "/" + rel)[|Base(env)| + 1..] == rel;
  }

  lemma AbsentMarker(s: string, n: nat)
    requires n <= |s| && !Contains(s, MARKER)
    ensures !Contains(s[n..], MARKER_SLASH)
  {
    assert s == s[..n] + s[n..];
    SuffixKeepsAbsence(s[..n], s[n..], MARKER);
    if Contains(s[n..], MARKER_SLASH) {
      SlashMarkerIsMarker(s[n..]);
    }
  }

  lemma AboveRootSettled(env: Env, out: string)
    requires IsEnv(env) && !Contains(out, MARKER)
    ensures Settled(env, Home(env) + out) <==>
            || "/manager/" <= out
            || (out == "/manager" && !Nested(env))
            || (!Contains(Home(env) + out, MARKER) && env.tmp <= Home(env) + out)
  {
    BaseShape(env);
    var h, y := Home(env), Home(env) + out;
    assert Base(env) + "/" == h + "/manager/";
    assert Base(env) + "/" <= y <==> "/manager/" <= out by {
      assert y[|h|..] == out;
      if Base(env) + "/" <= y {
        assert y[|h|..|h| + 9] == "/manager/";
      }
    }
    if "/manager/" <= out {
      assert y[|Base(env)| + 1..] == out[9..];
      AbsentMarker(out, 9);
    }
    assert y == Base(env) <==> out == "/manager" by {
      if y == Base(env) {
        assert y[|h|..] == "/manager";
      }
    }
  }

  lemma DotRemainder(rel: string)
    requires Leads(".", rel) && rel != "."
    ensures |rel| >= 2 && rel[1..] == "/" + rel[2..]
  {
    RemainderShape(rel);
  }

  lemma DotRemainderSettles(env: Env, rel: string)
    requires IsEnv(env) && !Contains(rel, MARKER) && Leads(".", rel) && rel != "."
    ensures Settled(env, Base(env) + rel[1..])
  {
    DotRemainder(rel);
    AbsentMarker(rel, 2);
    BelowRootSettled(env, rel[2..]);
    assert Base(env) + ("/" + rel[2..]) == Base(env) + "/" + rel[2..];
  }

  lemma UpRemainderSettles(env: Env, rel: string)
    requires IsEnv(env) && !Contains(rel, MARKER) && Leads("..", rel)
    ensures Settled(env, Home(env) + rel[2..]) <==> RemainderSettles(env, rel)
  {
    assert rel == rel[..2] + rel[2..];
    SuffixKeepsAbsence(rel[..2], rel[2..], MARKER);
    AboveRootSettled(env, rel[2..]);
  }

  lemma RebasedSettles(env: Env, rel: string)
    requires IsEnv(env) && !Contains(rel, MARKER)
    ensures Settled(env, Rebased(env, rel)) <==> RemainderSettles(env, rel)
  {
    if rel == "" || rel == "." {
      RootSettled(env);
      SplitPlain(".");
      assert rel == "." ==> Base(env) + rel[1..] == Base(env);
    } else if Leads(".", rel) {
      DotRemainderSettles(env, rel);
    } else if Leads("..", rel) {
      UpRemainderSettles(env, rel);
    } else {
      AbsentMarker(rel, 0);
      assert rel[0..] == rel;
      BelowRootSettled(env, rel);
    }
  }

  lemma SlashMarkerSettles(env: Env, raw: string)
    requires IsEnv(env) && raw != "" && Clean(raw) == raw && Contains(raw, MARKER_SLASH)
    ensures Settled(env, GetAbsolutePath(env, raw))
  {
    SlashMarkerRebases(env, raw);
    BelowRootSettled(env, raw[LastIndex(raw, MARKER_SLASH).value + 13..]);
  }

  lemma PlainSettles(env: Env, raw: string)
    requires IsEnv(env) && raw != "" && Clean(raw) == raw && !Contains(raw, MARKER) && !(env.tmp <= raw)
    ensures Settled(env, GetAbsolutePath(env, raw)) <==> Lifted(raw) != "" || !Nested(env)
  {
    PlainRebases(env, raw);
    if Lifted(raw) == "" {
      RootSettled(env);
    } else {
      AbsentMarker(Lifted(raw), 0);
      assert Lifted(raw)[0..] == Lifted(raw);
      BelowRootSettled(env, Lifted(raw));
    }
  }

  lemma TemporarySettles(env: Env, raw: string)
    requires raw != "" && Clean(raw) == raw && !Contains(raw, MARKER) && env.tmp <= raw
    ensures GetAbsolutePath(env, raw) == raw && Settled(env, raw)
  {
    if Contains(raw, MARKER_SLASH) {
      SlashMarkerIsMarker(raw);
    }
  }

  lemma ResultSettles(env: Env, raw: string)
    requires IsEnv(env) && raw != "" && Clean(raw) == raw
    ensures Settled(env, GetAbsolutePath(env, raw)) <==> Settles(env, raw)
  {
    if Contains(raw, MARKER_SLASH) {
      SlashMarkerSettles(env, raw);
    } else if Contains(raw, MARKER) {
      BareMarkerRebases(env, raw);
      RebasedSettles(env, Remainder(raw));
    } else if env.tmp <= raw {
      TemporarySettles(env, raw);
    } else {
      PlainSettles(env, raw);
    }
  }

  /** On a clean path, normalising twice is normalising once exactly when the path settles. */
  lemma IdempotentIffSettles(env: Env, raw: string)
    requires IsEnv(env) && raw != "" && Clean(raw) == raw
    ensures GetAbsolutePath(env, GetAbsolutePath(env, raw)) == GetAbsolutePath(env, raw) <==> Settles(env, raw)
  {
    ResultIsClean(env, raw);
    FixedIffSettled(env, GetAbsolutePath(env, raw));
    ResultSettles(env, raw);
  }

  /** A plain name below the root settles, and is the clean path it looks like. */
  lemma PlainNameSettles(env: Env, name: string)
    requires IsEnv(env) && Normal(name)
    ensures var raw := Base(env) + "/" + name; raw != "" && Clean(raw) == raw && Settles(env, raw)
  {
    var cs, raw := env.cwd + ["data", "manager"], Base(env) + "/" + name;
    BaseIsNormal(env);
    JoinedConcat(cs, [name]);
    assert "/" + (Joined(cs) + "/" + name) == raw;
    CleanFixesRooted(cs + [name]);
    MarkerAtRoot(env, name);
    assert Contains(raw, MARKER_SLASH);
  }

  const ESCAPE := "data/manager../x"

  lemma EscapeIsClean()
    ensures Clean(ESCAPE) == ESCAPE
  {
    var cs := ["data", "manager..", "x"];
    assert cs[1..] == ["manager..", "x"] && cs[1..][1..] == ["x"];
    assert Joined(["x"]) == "x" && Joined(["manager..", "x"]) == "manager.." + "/" + "x";
    assert Joined(cs) == ESCAPE;
    CleanFixesRelative(cs);
  }

  lemma NotHere(s: string, pat: string, i: nat, k: nat)
    requires i + |pat| <= |s| && k < |pat| && s[i + k] != pat[k]
    ensures !OccursAt(s, pat, i)
  {
    assert s[i..i + |pat|][k] == s[i + k];
  }

  lemma EscapeMarkers()
    ensures BareMarker(ESCAPE) && LastIndex(ESCAPE, MARKER) == Some(0)
  {
    assert OccursAt(ESCAPE, MARKER, 0);
    NotHere(ESCAPE, MARKER_SLASH, 0, 12);
    forall i | 1 <= i <= 3 ensures !OccursAt(ESCAPE, MARKER_SLASH, i) {
      NotHere(ESCAPE, MARKER_SLASH, i, 0);
    }
    forall i | 1 <= i <= 4 ensures !OccursAt(ESCAPE, MARKER, i) {
      NotHere(ESCAPE, MARKER, i, 0);
    }
  }

  lemma EscapeRemainder()
    ensures BareMarker(ESCAPE) && Leads("..", Remainder(ESCAPE)) && Remainder(ESCAPE)[2..] == "/x"
  {
    EscapeMarkers();
    SplitConcat("..", "x");
    SplitPlain("..");
    assert ESCAPE[12..] == ".." + "/" + "x";
    assert Remainder(ESCAPE) == ".." + "/" + "x";
  }

  lemma DotDotBehindMarkerEscapes(env: Env, raw: string)
    requires IsEnv(env) && raw != "" && Clean(raw) == raw && BareMarker(raw)
    requires Leads("..", Remainder(raw)) && Remainder(raw)[2..] == "/x" && !(env.tmp <= Home(env) + "/x")
    ensures GetAbsolutePath(env, GetAbsolutePath(env, raw)) != GetAbsolutePath(env, raw)
  {
    IdempotentIffSettles(env, raw);
    assert !RemainderSettles(env, Remainder(raw));
  }

  /** A clean path that does not settle: its component `manager..` is read as the root and a dot-dot. */
  lemma CleanPathThatEscapes(env: Env)
    requires IsEnv(env) && !(env.tmp <= Home(env) + "/x")
    ensures Clean(ESCAPE) == ESCAPE
    ensures GetAbsolutePath(env, GetAbsolutePath(env, ESCAPE)) != GetAbsolutePath(env, ESCAPE)
  {
    EscapeIsClean();
    EscapeRemainder();
    DotDotBehindMarkerEscapes(env, ESCAPE);
  }
}
