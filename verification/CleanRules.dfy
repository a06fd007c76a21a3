/** The rules that the documentation of `filepath.Clean` gives, each proved of the component stack. Applied until
    none fits, they lead to a path that is left alone, so together they say what `Clean` computes. */
module CleanRules {
  import opened LexicalPath

  lemma SplitFour(a: string, c: string, d: string, b: string)
    requires NoSlash(c) && NoSlash(d)
    ensures Split(a + "/" + c + "/" + d + "/" + b) == Split(a) + [c] + [d] + Split(b)
  {
    SplitThree(a + "/" + c, d, b);
    SplitConcat(a, c);
    SplitPlain(c);
  }

  /** Components in the middle that leave the stack as it was. */
  lemma NeutralMiddle(front: seq<string>, mid: seq<string>, back: seq<string>, rooted: bool)
    requires forall stack :: Pushed(stack, mid, rooted) == stack
    ensures Pushed([], front + mid + back, rooted) == Pushed([], front + back, rooted)
  {
    PushedConcat([], front + mid, back, rooted);
    PushedConcat([], front, mid, rooted);
    PushedConcat([], front, back, rooted);
  }

  lemma NothingIsNeutral(c: string, rooted: bool)
    requires c == "" || c == "."
    ensures forall stack :: Pushed(stack, [c], rooted) == stack
  {
    forall stack ensures Pushed(stack, [c], rooted) == stack {
      assert [c][1..] == [];
    }
  }

  lemma ThereAndBackIsNeutral(c: string, rooted: bool)
    requires Normal(c)
    ensures forall stack :: Pushed(stack, [c] + [".."], rooted) == stack
  {
    forall stack ensures Pushed(stack, [c] + [".."], rooted) == stack {
      assert ([c] + [".."])[1..] == [".."] && [".."][1..] == [];
      assert (stack + [c])[..|stack|] == stack;
    }
  }

  /** Repeated slashes are one, and a dot is nothing. */
  lemma DropStep(a: string, c: string, b: string)
    requires c == "" || c == "."
    ensures Clean(a + "/" + c + "/" + b) == Clean(a + "/" + b)
  {
    SplitThree(a, c, b);
    SplitConcat(a, b);
    var rooted := Rooted(a + "/" + b);
    NothingIsNeutral(c, rooted);
    NeutralMiddle(Split(a), [c], Split(b), rooted);
  }

  /** A dot-dot goes together with the component before it that is none. */
  lemma CancelStep(a: string, c: string, b: string)
    requires Normal(c)
    ensures Clean(a + "/" + c + "/" + ".." + "/" + b) == Clean(a + "/" + b)
  {
    SplitFour(a, c, "..", b);
    SplitConcat(a, b);
    var rooted := Rooted(a + "/" + b);
    ThereAndBackIsNeutral(c, rooted);
    assert Split(a) + [c] + [".."] + Split(b) == Split(a) + ([c] + [".."]) + Split(b);
    NeutralMiddle(Split(a), [c] + [".."], Split(b), rooted);
  }

  /** A dot-dot at the root stays at the root. */
  lemma StayAtRoot(b: string)
    ensures Clean("/" + ".." + "/" + b) == Clean("/" + b)
  {
    var e: seq<string> := [];
    SplitThree("", "..", b);
    SplitConcat("", b);
    assert "" + "/" + ".." + "/" + b == "/" + ".." + "/" + b && "" + "/" + b == "/" + b;
    PushedConcat(e, [""] + [".."], Split(b), true);
    PushedConcat(e, [""], [".."], true);
    PushedConcat(e, [""], Split(b), true);
    PushedEmpty(e, true);
    assert [".."][1..] == [];
  }

  /** A slash at the end is nothing. */
  lemma DropTrailingSlash(p: string)
    requires p != ""
    ensures Clean(p + "/") == Clean(p)
  {
    assert p + "/" + "" == p + "/";
    SplitConcat(p, "");
    PushedConcat([], Split(p), [""], Rooted(p));
    PushedEmpty(Pushed([], Split(p), Rooted(p)), Rooted(p));
  }

  /** The same at the front of a path that is not rooted. */
  lemma DropFirstStep(c: string, b: string)
    requires !Rooted(b) && Normal(c)
    ensures Clean("." + "/" + b) == Clean(b) && Clean(c + "/" + ".." + "/" + b) == Clean(b)
  {
    var e: seq<string> := [];
    SplitConcat(".", b);
    SplitPlain(".");
    NothingIsNeutral(".", false);
    PushedConcat(e, ["."], Split(b), false);
    SplitThree(c, "..", b);
    SplitPlain(c);
    ThereAndBackIsNeutral(c, false);
    PushedConcat(e, [c] + [".."], Split(b), false);
    PushedEmpty(e, false);
  }

  lemma {:induction false} RelativeIsPushed(stack: seq<string>, cs: seq<string>)
    requires Relative(stack + cs)
    ensures Pushed(stack, cs, false) == stack + cs
    decreases |cs|
  {
    if cs != [] {
      var more := stack + [cs[0]];
      assert more + cs[1..] == stack + cs;
      assert (stack + cs)[|stack|] == cs[0];
      assert stack != [] ==> (stack + cs)[|stack| - 1] == stack[|stack| - 1];
      RelativeIsPushed(more, cs[1..]);
    }
  }

  /** What no rule applies to is left alone: a slash and normal components, dot-dots and then normal components, and
      a dot, which also stands for the empty path. */
  lemma LeftAlone(cs: seq<string>)
    ensures AllNormal(cs) ==> Clean("/" + Joined(cs)) == "/" + Joined(cs)
    ensures Relative(cs) && cs != [] ==> Clean(Joined(cs)) == Joined(cs)
    ensures Clean(".") == "." && Clean("") == "."
  {
    if AllNormal(cs) {
      CleanFixesRooted(cs);
    }
    if Relative(cs) && cs != [] {
      SplitJoined(cs);
      assert [] + cs == cs;
      RelativeIsPushed([], cs);
      assert cs[0] <= Joined(cs) && cs[0][0] != '/';
    }
    NothingIsNeutral(".", false);
    SplitPlain(".");
  }
}
