/** Where `GetAbsolutePath` keeps a path inside the file manager's root, and where it does not. */
module Containment {
  import opened LexicalPath
  import opened SandboxPath
  import opened TextSearch
  import opened Wrappers

  /** The root itself, or below it. */
  predicate Inside(env: Env, y: string) {
    y == Base(env) || Base(env) + "/" <= y
  }

  function Root(env: Env): seq<string> {
    env.cwd + ["data", "manager"]
  }

  /** Where a walk along the text ends that starts at the root. */
  function Walk(env: Env, rel: string): seq<string> {
    Pushed(Root(env), Split(rel), true)
  }

  /** The walk ends below the root; it may leave and come back on its way. */
  predicate EndsInside(env: Env, rel: string) {
    Root(env) <= Walk(env, rel)
  }

  lemma UnderIsWalk(env: Env, rel: string)
    requires IsEnv(env)
    ensures AllNormal(Walk(env, rel)) && Under(env, rel) == "/" + Joined(Walk(env, rel))
  {
    BaseIsNormal(env);
    RootedStackIsNormal(Root(env), Split(rel));
    if rel == "" {
      PushedEmpty(Root(env), true);
      UnderEmpty(env);
    } else {
      CleanBehindRooted(Root(env), rel);
      CleanTwice(Base(env) + "/" + rel, Walk(env, rel));
    }
  }

  lemma BelowIsLonger(bc: seq<string>, cs: seq<string>, t: string)
    requires AllNormal(bc) && AllNormal(cs) && bc != []
    requires "/" + Joined(cs) == "/" + Joined(bc) + "/" + t
    ensures bc <= cs
  {
    SplitConcat("/" + Joined(bc), t);
    RootedSplit(bc);
    RootedSplit(cs);
    var tail := if cs == [] then [""] else cs;
    DropHead(tail, bc + Split(t));
    assert [""] + bc + Split(t) == [""] + (bc + Split(t));
    assert |tail| > 1;
  }

  lemma DropHead(a: seq<string>, b: seq<string>)
    ensures [""] + a == [""] + b <==> a == b
  {
    if [""] + a == [""] + b {
      assert a == ([""] + a)[1..] && b == ([""] + b)[1..];
    }
  }

  lemma SameJoinedSame(bc: seq<string>, cs: seq<string>)
    requires AllNormal(bc) && AllNormal(cs) && bc != [] && "/" + Joined(bc) == "/" + Joined(cs)
    ensures bc == cs
  {
    RootedSplit(bc);
    RootedSplit(cs);
    assert bc == ([""] + bc)[1..];
    if cs != [] {
      assert cs == ([""] + cs)[1..];
    }
  }

  /** A clean path is inside the root exactly when the root's components are its first ones. */
  lemma InsideIffComponents(env: Env, cs: seq<string>)
    requires IsEnv(env) && AllNormal(cs)
    ensures Inside(env, "/" + Joined(cs)) <==> Root(env) <= cs
  {
    var bc, y := Root(env), "/" + Joined(cs);
    BaseIsNormal(env);
    if y == Base(env) {
      SameJoinedSame(bc, cs);
    } else if Base(env) + "/" <= y {
      assert y == Base(env) + "/" + y[|Base(env)| + 1..];
      BelowIsLonger(bc, cs, y[|Base(env)| + 1..]);
    }
    if bc <= cs {
      var rest := cs[|bc|..];
      assert cs == bc + rest;
      JoinedBehind(bc, rest);
      Associates("/", Joined(bc), Behind(rest));
      assert y == Base(env) + Behind(rest);
    }
  }

  lemma UnderInsideIff(env: Env, rel: string)
    requires IsEnv(env)
    ensures Inside(env, Under(env, rel)) <==> EndsInside(env, rel)
  {
    UnderIsWalk(env, rel);
    InsideIffComponents(env, Walk(env, rel));
  }

  /** What a rooted clean path walks to is below where the walk starts. */
  lemma RootedRemainderInside(env: Env, raw: string)
    requires IsEnv(env)
    ensures Inside(env, Under(env, Clean("/" + raw)))
  {
    CleanRooted("/" + raw);
    var cs :| AllNormal(cs) && Clean("/" + raw) == "/" + Joined(cs);
    UnderLifted(env, cs);
  }

  /** Read off any text before the call: what follows the last marker must end inside; without a marker only the
      temporary directory is outside. */
  ghost predicate Contained(env: Env, raw: string) {
    if LastIndex(raw, MARKER_SLASH).Some? then EndsInside(env, raw[LastIndex(raw, MARKER_SLASH).value + 13..])
    else if LastIndex(raw, MARKER).Some? then EndsInside(env, Remainder(raw))
    else !(env.tmp <= raw) || Inside(env, Clean(raw))
  }

  lemma NoMarkerNotBelow(env: Env, raw: string)
    requires IsEnv(env) && LastIndex(raw, MARKER).None?
    ensures !(Base(env) <= raw)
  {
    BaseShape(env);
    if Base(env) <= raw {
      PrefixKeepsMarker(Base(env), raw, MARKER);
    }
  }

  /** The result lies inside the root exactly when the text is contained, for every text, clean or not. */
  lemma InsideIffContained(env: Env, raw: string)
    requires IsEnv(env) && raw != ""
    ensures Inside(env, GetAbsolutePath(env, raw)) <==> Contained(env, raw)
  {
    if LastIndex(raw, MARKER_SLASH).Some? {
      UnderInsideIff(env, raw[LastIndex(raw, MARKER_SLASH).value + 13..]);
    } else if LastIndex(raw, MARKER).Some? {
      UnderInsideIff(env, Remainder(raw));
    } else {
      NoMarkerNotBelow(env, raw);
      RootedRemainderInside(env, raw);
    }
  }

  /** On a clean text: behind the marker with its slash nothing climbs; behind the bare marker only a leading
      dot-dot does, unless `manager` leads back. */
  ghost predicate CleanContained(env: Env, raw: string) {
    if Contains(raw, MARKER_SLASH) then true
    else if Contains(raw, MARKER) then
      var rel := Remainder(raw);
      !Leads("..", rel) || rel[2..] == "/manager" || "/manager/" <= rel[2..]
    else !(env.tmp <= raw)
  }

  lemma BaseWithTail(env: Env, tail: string)
    requires tail == "" || tail[0] == '/'
    ensures Inside(env, Base(env) + tail)
  {
    if tail != "" {
      assert Base(env) + tail == Base(env) + "/" + tail[1..];
    }
  }

  lemma HomeWithTail(env: Env, tail: string)
    requires IsEnv(env)
    ensures Inside(env, Home(env) + tail) <==> tail == "/manager" || "/manager/" <= tail
  {
    HomeShape(env);
    var h, y := Home(env), Home(env) + tail;
    assert Base(env) + "/" == h + "/manager/";
    assert y[|h|..] == tail;
    if y == Base(env) {
      assert y[|h|..] == "/manager";
    }
    if Base(env) + "/" <= y {
      assert y[|h|..|h| + 9] == "/manager/";
    }
  }

  lemma RebasedInsideIff(env: Env, rel: string)
    requires IsEnv(env)
    ensures Inside(env, Rebased(env, rel)) <==> !Leads("..", rel) || rel[2..] == "/manager" || "/manager/" <= rel[2..]
  {
    if rel == "" {
    } else if Leads(".", rel) {
      SplitPlain(".");
      if rel == "." {
        BaseWithTail(env, "");
      } else {
        DotRemainder(rel);
        BaseWithTail(env, rel[1..]);
      }
    } else if Leads("..", rel) {
      HomeWithTail(env, rel[2..]);
    } else {
      BaseWithTail(env, "/" + rel);
      assert Base(env) + ("/" + rel) == Base(env) + "/" + rel;
    }
  }

  lemma CleanInsideIffContained(env: Env, raw: string)
    requires IsEnv(env) && raw != "" && Clean(raw) == raw
    ensures Inside(env, GetAbsolutePath(env, raw)) <==> CleanContained(env, raw)
  {
    if Contains(raw, MARKER_SLASH) {
      SlashMarkerRebases(env, raw);
    } else if Contains(raw, MARKER) {
      BareMarkerRebases(env, raw);
      RebasedInsideIff(env, Remainder(raw));
    } else if env.tmp <= raw {
      TemporaryIsOutside(env, raw);
    } else {
      PlainRebases(env, raw);
    }
  }

  lemma TemporaryIsOutside(env: Env, raw: string)
    requires IsEnv(env) && raw != "" && Clean(raw) == raw && !Contains(raw, MARKER) && env.tmp <= raw
    ensures !Inside(env, GetAbsolutePath(env, raw))
  {
    TemporarySettles(env, raw);
    NoMarkerNotBelow(env, raw);
  }

  // ----- texts that are not clean

  lemma WalkUp(env: Env, name: string)
    requires IsEnv(env) && Normal(name) && Split("../" + name) == ["..", name]
    ensures Walk(env, "../" + name) == env.cwd + ["data"] + [name]
  {
    var up := UpFromBase(env);
    assert ["..", name][1..] == [name] && [name][1..] == [];
    assert Pushed(up, [name], true) == up + [name];
  }

  /** The handler then compares strings: its test accepts what is inside and, besides, siblings whose name extends
      the root's. */
  predicate PassesPrefixTest(env: Env, raw: string) {
    Base(env) <= GetAbsolutePath(env, raw)
  }

  lemma PrefixTestIff(env: Env, raw: string)
    requires IsEnv(env)
    ensures PassesPrefixTest(env, raw) <==>
            || Inside(env, GetAbsolutePath(env, raw))
            || exists z :: z != "" && z[0] != '/' && GetAbsolutePath(env, raw) == Home(env) + "/manager" + z
  {
    HomeShape(env);
    ExtendsIff(Base(env), GetAbsolutePath(env, raw));
  }

  lemma ExtendsIff(b: string, y: string)
    ensures b <= y <==> y == b || b + "/" <= y || exists z :: z != "" && z[0] != '/' && y == b + z
  {
    if b <= y {
      var z := y[|b|..];
      assert y == b + z;
      if z != "" && z[0] == '/' {
        assert y == b + "/" + z[1..];
      }
    }
  }

  /** A dot-dot behind the last marker leaves the root for a sibling, and the string test lets a sibling pass exactly
      when its name starts with the root's. */
  lemma DotDotLeavesForSibling(env: Env, raw: string, name: string)
    requires IsEnv(env) && Normal(name) && name != "manager"
    requires LastIndex(raw, MARKER_SLASH).Some? && raw[LastIndex(raw, MARKER_SLASH).value + 13..] == "../" + name
    ensures !Inside(env, GetAbsolutePath(env, raw))
    ensures PassesPrefixTest(env, raw) <==> "manager" <= name
  {
    SplitConcat("..", name);
    SplitPlain("..");
    SplitPlain(name);
    assert ".." + "/" + name == "../" + name;
    WalkUp(env, name);
    InsideIffContained(env, raw);
    UnderIsWalk(env, "../" + name);
    SiblingPath(env, name);
    SiblingPrefix(Home(env), name);
    HomeShape(env);
  }

  lemma SiblingPath(env: Env, name: string)
    requires IsEnv(env)
    ensures "/" + Joined(env.cwd + ["data"] + [name]) == Home(env) + "/" + name
  {
    JoinedConcat(env.cwd + ["data"], [name]);
    assert Joined([name]) == name;
    assert "/" + (Joined(env.cwd + ["data"]) + "/" + name) == "/" + Joined(env.cwd + ["data"]) + "/" + name;
  }

  lemma SiblingPrefix(h: string, name: string)
    ensures h + "/manager" <= h + "/" + name <==> "manager" <= name
  {
    var l, r := h + "/manager", h + "/" + name;
    assert l == h + "/" + "manager" && r[|h| + 1..] == name;
    if l <= r {
      assert r[|h| + 1..|h| + 8] == "manager";
    }
    if "manager" <= name {
      assert r == l + name[7..];
    }
  }

  // ----- where any text lands

  lemma LastOccurrence(s: string, pat: string, i: nat)
    requires OccursAt(s, pat, i) && forall j :: j > i ==> !OccursAt(s, pat, j)
    ensures LastIndex(s, pat) == Some(i)
  {
    assert Contains(s, pat);
  }

  /** A text with the marker and its slash lands where what follows the last one walks to from the root. */
  lemma LandsBehindSlashMarker(env: Env, raw: string, i: nat)
    requires IsEnv(env)
    requires OccursAt(raw, "data/manager/", i) && forall j :: j > i ==> !OccursAt(raw, "data/manager/", j)
    ensures GetAbsolutePath(env, raw) == "/" + Joined(Pushed(env.cwd + ["data", "manager"], Split(raw[i + 13..]), true))
  {
    LastOccurrence(raw, "data/manager/", i);
    UnderIsWalk(env, raw[i + 13..]);
  }

  /** A text with the bare marker only lands where what follows the last one walks to. */
  lemma LandsBehindMarker(env: Env, raw: string, i: nat)
    requires IsEnv(env) && forall j :: !OccursAt(raw, "data/manager/", j)
    requires OccursAt(raw, "data/manager", i) && forall j :: j > i ==> !OccursAt(raw, "data/manager", j)
    ensures GetAbsolutePath(env, raw) == "/" + Joined(Pushed(env.cwd + ["data", "manager"], Split(raw[i + 12..]), true))
  {
    LastOccurrence(raw, "data/manager", i);
    UnderIsWalk(env, raw[i + 12..]);
  }

  /** A text without a marker lands below the root, where it walks to from the slash, except below the temporary
      directory, where it is only cleaned. The empty text stays empty. */
  lemma LandsWithoutMarker(env: Env, raw: string)
    requires IsEnv(env) && forall j :: !OccursAt(raw, "data/manager", j)
    ensures GetAbsolutePath(env, raw)
         == if raw == "" then "" else if env.tmp <= raw then Clean(raw)
            else "/" + Joined(env.cwd + ["data", "manager"] + Pushed([], Split(raw), true))
  {
    assert !Contains(raw, MARKER);
    if Contains(raw, MARKER_SLASH) {
      SlashMarkerIsMarker(raw);
    }
    NoMarkerNotBelow(env, raw);
    RootedStackIsNormal([], Split(raw));
    var cs := Pushed([], Split(raw), true);
    CleanLifts(raw);
    UnderLifted(env, cs);
    JoinedBehind(env.cwd + ["data", "manager"], cs);
    Associates("/", Joined(env.cwd + ["data", "manager"]), Behind(cs));
  }
}
