/** `filepath.Clean` and `filepath.Join` on slash-separated paths, as a stack of components. */
module LexicalPath {

  predicate NoSlash(c: string) {
    forall i :: 0 <= i < |c| ==> c[i] != '/'
  }

  /** A component that names something: not empty, not a dot, not dot-dot. */
  predicate Normal(c: string) {
    c != "" && c != "." && c != ".." && NoSlash(c)
  }

  predicate AllNormal(cs: seq<string>) {
    forall i :: 0 <= i < |cs| ==> Normal(cs[i])
  }

  /** What is left of a relative path: dot-dots first, then normal components. */
  predicate Relative(cs: seq<string>) {
    && (forall i :: 0 <= i < |cs| ==> cs[i] == ".." || Normal(cs[i]))
    && (forall i, j :: 0 <= i < j < |cs| && cs[i] != ".." ==> cs[j] != "..")
  }

  /** The components between slashes; always at least one. */
  function Split(s: string): (cs: seq<string>)
    ensures cs != []
    ensures forall i :: 0 <= i < |cs| ==> NoSlash(cs[i])
  {
    if s == "" then [""]
    else
      var rest := Split(s[1..]);
      if s[0] == '/' then [""] + rest else [[s[0]] + rest[0]] + rest[1..]
  }

  function Joined(cs: seq<string>): string {
    if cs == [] then "" else if |cs| == 1 then cs[0] else cs[0] + "/" + Joined(cs[1..])
  }

  function Push(stack: seq<string>, c: string, rooted: bool): seq<string> {
    if c == "" || c == "." then stack
    else if c == ".." then
      if stack != [] && stack[|stack| - 1] != ".." then stack[..|stack| - 1]
      else if rooted then stack
      else stack + [".."]
    else stack + [c]
  }

  function Pushed(stack: seq<string>, cs: seq<string>, rooted: bool): seq<string>
    decreases |cs|
  {
    if cs == [] then stack else Pushed(Push(stack, cs[0], rooted), cs[1..], rooted)
  }

  predicate Rooted(path: string) {
    path != "" && path[0] == '/'
  }

  function Render(cs: seq<string>, rooted: bool): string {
    if rooted then "/" + Joined(cs) else if cs == [] then "." else Joined(cs)
  }

  /** `filepath.Clean`. */
  function Clean(path: string): string {
    if path == "" then "." else Render(Pushed([], Split(path), Rooted(path)), Rooted(path))
  }

  /** `filepath.Join` of a non-empty path and another. */
  function Join(a: string, b: string): string
    requires a != ""
  {
    if b == "" then Clean(a) else Clean(a + "/" + b)
  }

  function AfterLastSlash(p: string): string {
    var cs := Split(p);
    cs[|cs| - 1]
  }

  function WithoutTrailingSlashes(p: string): string {
    if p != "" && p[|p| - 1] == '/' then WithoutTrailingSlashes(p[..|p| - 1]) else p
  }

  /** `filepath.Base`. */
  function BaseName(p: string): string {
    if p == "" then "."
    else if WithoutTrailingSlashes(p) == "" then "/"
    else AfterLastSlash(WithoutTrailingSlashes(p))
  }

  // ----- splitting and joining

  lemma SplitCons(c: char, s: string)
    ensures Split([c] + s) == if c == '/' then [""] + Split(s) else [[c] + Split(s)[0]] + Split(s)[1..]
  {
    assert ([c] + s)[1..] == s;
  }

  lemma {:induction false} SplitConcat(a: string, b: string)
    ensures Split(a + "/" + b) == Split(a) + Split(b)
  {
    if a == "" {
      SplitCons('/', b);
      assert a + "/" + b == ['/'] + b;
    } else {
      var c, t := a[0], a[1..];
      SplitConcat(t, b);
      assert a == [c] + t && a + "/" + b == [c] + (t + "/" + b);
      SplitCons(c, t);
      SplitCons(c, t + "/" + b);
      HeadOfConcat(c, Split(t), Split(b));
    }
  }

  lemma HeadOfConcat(c: char, x: seq<string>, y: seq<string>)
    requires x != []
    ensures [""] + (x + y) == [""] + x + y
    ensures [[c] + (x + y)[0]] + (x + y)[1..] == [[c] + x[0]] + x[1..] + y
  {
    assert (x + y)[1..] == x[1..] + y;
  }

  lemma {:induction false} SplitPlain(c: string)
    requires NoSlash(c)
    ensures Split(c) == [c]
  {
    if c != "" {
      SplitPlain(c[1..]);
      assert [c[0]] + c[1..] == c;
    }
  }

  lemma {:induction false} SplitJoined(cs: seq<string>)
    requires cs != [] && forall i :: 0 <= i < |cs| ==> NoSlash(cs[i])
    ensures Split(Joined(cs)) == cs
  {
    SplitPlain(cs[0]);
    if |cs| > 1 {
      SplitJoined(cs[1..]);
      SplitConcat(cs[0], Joined(cs[1..]));
    }
  }

  lemma {:induction false} JoinedSplit(s: string)
    ensures Joined(Split(s)) == s
  {
    if s != "" {
      JoinedSplit(s[1..]);
      var rest := Split(s[1..]);
      assert s == [s[0]] + s[1..];
      if s[0] == '/' {
        assert ([""] + rest)[1..] == rest;
      } else {
        assert ([[s[0]] + rest[0]] + rest[1..])[1..] == rest[1..];
        if |rest| > 1 {
          assert [s[0]] + (rest[0] + "/" + Joined(rest[1..])) == [s[0]] + rest[0] + "/" + Joined(rest[1..]);
        }
      }
    }
  }

  lemma {:induction false} JoinedConcat(a: seq<string>, b: seq<string>)
    requires a != [] && b != []
    ensures Joined(a + b) == Joined(a) + "/" + Joined(b)
  {
    if |a| > 1 {
      JoinedConcat(a[1..], b);
      assert (a + b)[1..] == a[1..] + b;
    } else {
      assert (a + b)[1..] == b;
    }
  }

  // ----- the component stack

  lemma {:induction false} PushedConcat(stack: seq<string>, a: seq<string>, b: seq<string>, rooted: bool)
    ensures Pushed(stack, a + b, rooted) == Pushed(Pushed(stack, a, rooted), b, rooted)
    decreases |a|
  {
    if a == [] {
      assert a + b == b;
    } else {
      PushedConcat(Push(stack, a[0], rooted), a[1..], b, rooted);
      assert (a + b)[1..] == a[1..] + b;
    }
  }

  lemma {:induction false} PushedNormal(stack: seq<string>, cs: seq<string>, rooted: bool)
    requires AllNormal(cs)
    ensures Pushed(stack, cs, rooted) == stack + cs
    decreases |cs|
  {
    if cs != [] {
      PushedNormal(stack + [cs[0]], cs[1..], rooted);
      assert stack + [cs[0]] + cs[1..] == stack + cs;
    }
  }

  lemma {:induction false} RootedStackIsNormal(stack: seq<string>, cs: seq<string>)
    requires AllNormal(stack) && forall i :: 0 <= i < |cs| ==> NoSlash(cs[i])
    ensures AllNormal(Pushed(stack, cs, true))
    decreases |cs|
  {
    if cs != [] {
      RootedStackIsNormal(Push(stack, cs[0], true), cs[1..]);
    }
  }

  lemma {:induction false} StackIsRelative(stack: seq<string>, cs: seq<string>)
    requires Relative(stack) && forall i :: 0 <= i < |cs| ==> NoSlash(cs[i])
    ensures Relative(Pushed(stack, cs, false))
    decreases |cs|
  {
    if cs != [] {
      StackIsRelative(Push(stack, cs[0], false), cs[1..]);
    }
  }

  lemma PushedEmpty(stack: seq<string>, rooted: bool)
    ensures Pushed(stack, [""], rooted) == stack
  {
    assert [""][1..] == [];
  }

  // ----- rooted clean paths

  /** A rooted path that `Clean` leaves alone: a slash and normal components. */
  lemma RootedSplit(cs: seq<string>)
    requires AllNormal(cs)
    ensures Split("/" + Joined(cs)) == [""] + (if cs == [] then [""] else cs)
  {
    var j := Joined(cs);
    assert ("/" + j)[1..] == j;
    if cs != [] {
      SplitJoined(cs);
    }
  }

  lemma CleanRooted(path: string)
    requires Rooted(path)
    ensures exists cs :: AllNormal(cs) && Clean(path) == "/" + Joined(cs)
  {
    RootedStackIsNormal([], Split(path));
  }

  lemma BaseIsLastComponent(p: string)
    requires p != "" && p[|p| - 1] != '/'
    ensures BaseName(p) == Split(p)[|Split(p)| - 1]
  {
  }

  lemma BaseOfSlash()
    ensures BaseName("/") == "/"
  {
    assert WithoutTrailingSlashes("") == "";
    assert "/"[..0] == "";
  }

  /** The base of a rooted clean path is its last component. */
  lemma BaseOfRooted(cs: seq<string>)
    requires AllNormal(cs)
    ensures BaseName("/" + Joined(cs)) == if cs == [] then "/" else cs[|cs| - 1]
  {
    if cs == [] {
      BaseOfSlash();
      assert "/" + Joined(cs) == "/";
    } else {
      var p := "/" + Joined(cs);
      LastOfJoined(cs);
      assert p[|p| - 1] == Joined(cs)[|Joined(cs)| - 1];
      BaseIsLastComponent(p);
      RootedSplit(cs);
    }
  }

  lemma {:induction false} LastOfJoined(cs: seq<string>)
    requires AllNormal(cs) && cs != []
    ensures Joined(cs) != "" && Joined(cs)[|Joined(cs)| - 1] != '/'
  {
    if |cs| > 1 {
      LastOfJoined(cs[1..]);
    }
  }

  lemma CleanFixesRooted(cs: seq<string>)
    requires AllNormal(cs)
    ensures Clean("/" + Joined(cs)) == "/" + Joined(cs)
  {
    RootedSplit(cs);
    var tail := if cs == [] then [""] else cs;
    PushedConcat([], [""], tail, true);
    PushedEmpty([], true);
    PushedNormal([], cs, true);
    assert [] + cs == cs;
  }

  /** Cleaning a rooted path with more behind it continues its stack. */
  lemma CleanBehindRooted(cs: seq<string>, rel: string)
    requires AllNormal(cs) && cs != []
    ensures Clean("/" + Joined(cs) + "/" + rel) == "/" + Joined(Pushed(cs, Split(rel), true))
  {
    var base := "/" + Joined(cs);
    SplitConcat(base, rel);
    RootedSplit(cs);
    PushedConcat([], [""] + cs, Split(rel), true);
    PushedConcat([], [""], cs, true);
    PushedEmpty([], true);
    PushedNormal([], cs, true);
    assert [] + cs == cs;
  }

  /** The components of a clean path that has a slash before its end. */
  lemma CleanSplit(path: string) returns (cs: seq<string>)
    requires path != "" && path != "/" && path != "." && Clean(path) == path
    ensures cs != [] && path == Render(cs, Rooted(path))
    ensures if Rooted(path) then AllNormal(cs) && Split(path) == [""] + cs else Relative(cs) && Split(path) == cs
  {
    cs := Pushed([], Split(path), Rooted(path));
    if Rooted(path) {
      RootedStackIsNormal([], Split(path));
      RootedSplit(cs);
    } else {
      StackIsRelative([], Split(path));
      SplitJoined(cs);
    }
  }

  /** In a clean path, only normal components follow a component that is not a dot-dot. */
  lemma SplitThree(front: string, c: string, rest: string)
    requires NoSlash(c)
    ensures Split(front + "/" + c + "/" + rest) == Split(front) + [c] + Split(rest)
  {
    SplitConcat(front + "/" + c, rest);
    SplitConcat(front, c);
    SplitPlain(c);
  }

  /** In a clean path, what follows a component that is no dot-dot is normal. */
  lemma NormalTail(cs: seq<string>, all: seq<string>, rooted: bool, m: nat)
    requires if rooted then AllNormal(cs) && all == [""] + cs else Relative(cs) && all == cs
    requires m < |all| && all[m] != "" && all[m] != ".."
    ensures AllNormal(all[m + 1..])
  {
    forall i | m < i < |all| ensures Normal(all[i]) {
      assert rooted ==> all[i] == cs[i - 1];
    }
  }

  lemma CleanTail(path: string, front: string, c: string, rest: string)
    requires Clean(path) == path && path == front + "/" + c + "/" + rest
    requires c != "" && c != ".." && NoSlash(c)
    ensures AllNormal(Split(rest))
  {
    assert path[|front|] == '/' && path[|front| + 1] == c[0];
    var cs := CleanSplit(path);
    SplitThree(front, c, rest);
    var all, m := Split(path), |Split(front)|;
    assert all[m] == c && all[m + 1..] == Split(rest);
    NormalTail(cs, all, Rooted(path), m);
  }

  lemma CleanFixesRelative(cs: seq<string>)
    requires AllNormal(cs) && cs != []
    ensures Clean(Joined(cs)) == Joined(cs)
  {
    SplitJoined(cs);
    PushedNormal([], cs, false);
    assert [] + cs == cs;
    assert cs[0][0] != '/' && cs[0] <= Joined(cs);
  }
}
