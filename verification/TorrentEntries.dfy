/** The entries a running torrent adds to the listing of a directory. Paths are absolute and clean. */
module TorrentEntries {
  import opened LexicalPath
  import opened Wrappers

  datatype FileItem = FileItem(name: string, isDir: bool, size: int, s3Key: string)

  datatype TorrentFile = TorrentFile(path: string, length: int)

  type Items = map<string, FileItem>

  ghost predicate CleanAbsolute(p: string) {
    Rooted(p) && Clean(p) == p
  }

  /** The components of a rooted path. */
  function Parts(p: string): seq<string> {
    Pushed([], Split(p), true)
  }

  function PathOf(cs: seq<string>): string {
    "/" + Joined(cs)
  }

  function Front(cs: seq<string>): seq<string> {
    if cs == [] then [] else cs[..|cs| - 1]
  }

  /** `filepath.Dir`. */
  function Dir(p: string): string {
    PathOf(Front(Parts(p)))
  }

  function Ups(n: nat): seq<string> {
    seq(n, _ => "..")
  }

  /** `filepath.Rel`, as components; the empty sequence is the dot. */
  function Rel(base: seq<string>, target: seq<string>): seq<string> {
    if base != [] && target != [] && base[0] == target[0] then Rel(base[1..], target[1..])
    else Ups(|base|) + target
  }

  /** The top-level folder on the way. */
  function Folder(rel: seq<string>): Option<FileItem> {
    if rel == [] || rel == [".."] then None else Some(FileItem(rel[0], true, 0, ""))
  }

  /** What one file of the torrent contributes to the listing of `safePath`. */
  function Entry(absSaveDir: string, safePath: string, file: TorrentFile): Option<FileItem>
    requires absSaveDir != ""
  {
    var filePath := Clean(Join(absSaveDir, file.path));
    var parentDir := Dir(filePath);
    if parentDir == safePath then Some(FileItem(BaseName(filePath), false, file.length, ""))
    else if safePath <= parentDir then Folder(Rel(Parts(safePath), Parts(parentDir)))
    else None
  }

  predicate Selected(i: nat, allWanted: bool, wanted: set<nat>) {
    allWanted || i in wanted
  }

  function WithEntry(v: Items, e: Option<FileItem>): Items {
    if e.Some? then v[e.value.name := e.value] else v
  }

  /** The last wanted file that gives a name decides its entry. */
  function WithTorrent(v: Items, absSaveDir: string, safePath: string, files: seq<TorrentFile>,
                       allWanted: bool, wanted: set<nat>): Items
    requires absSaveDir != ""
  {
    if files == [] then v
    else
      var n := |files| - 1;
      var w := WithTorrent(v, absSaveDir, safePath, files[..n], allWanted, wanted);
      if Selected(n, allWanted, wanted) then WithEntry(w, Entry(absSaveDir, safePath, files[n])) else w
  }

  // ----- clean absolute paths and their components

  lemma PartsOfPath(cs: seq<string>)
    requires AllNormal(cs)
    ensures Parts(PathOf(cs)) == cs && CleanAbsolute(PathOf(cs))
  {
    CleanFixesRooted(cs);
    RootedSplit(cs);
    var tail := if cs == [] then [""] else cs;
    PushedConcat([], [""], tail, true);
    PushedEmpty([], true);
    PushedNormal([], cs, true);
  }

  lemma PathsDiffer(a: seq<string>, b: seq<string>)
    requires AllNormal(a) && AllNormal(b)
    ensures PathOf(a) == PathOf(b) <==> a == b
  {
    PartsOfPath(a);
    PartsOfPath(b);
  }

  /** Where a torrent's file lies: its own path read as steps from the save directory. */
  function Location(save: seq<string>, path: string): seq<string> {
    Pushed(save, Split(path), true)
  }

  lemma JoinAtRoot(path: string)
    ensures Clean("/" + "/" + path) == PathOf(Location([], path))
  {
    var e: seq<string> := [];
    SplitConcat("/", path);
    assert Split("/") == ["", ""];
    PushedConcat(e, ["", ""], Split(path), true);
    PushedConcat(e, [""], [""], true);
    assert [""] + [""] == ["", ""];
    PushedEmpty(e, true);
  }

  lemma FileLocation(save: seq<string>, path: string)
    requires AllNormal(save)
    ensures AllNormal(Location(save, path))
    ensures Clean(Join(PathOf(save), path)) == PathOf(Location(save, path))
  {
    RootedStackIsNormal(save, Split(path));
    PartsOfPath(Location(save, path));
    PartsOfPath(save);
    if path == "" {
      PushedEmpty(save, true);
    } else if save == [] {
      JoinAtRoot(path);
      assert PathOf(save) == "/";
    } else {
      CleanBehindRooted(save, path);
    }
  }

  // ----- string prefix and component prefix

  /** The last component of the listed directory is a proper prefix of the one at its place. */
  predicate SiblingExtends(s: seq<string>, t: seq<string>) {
    && s != [] && |s| <= |t| && s[..|s| - 1] == t[..|s| - 1]
    && s[|s| - 1] != t[|s| - 1] && s[|s| - 1] <= t[|s| - 1]
  }

  lemma HeadPrefix(a: string, b: string, rest: string)
    requires NoSlash(a)
    ensures a <= b + "/" + rest <==> a <= b
  {
    var all := b + "/" + rest;
    assert all[|b|] == '/';
    assert |a| > |b| ==> a[|b|] != '/';
  }

  lemma HeadThenPrefix(a: string, x: string, b: string, y: string)
    requires NoSlash(a) && NoSlash(b)
    ensures a + "/" + x <= b + "/" + y <==> a == b && x <= y
  {
    var l, r := a + "/" + x, b + "/" + y;
    assert l[|a|] == '/' && r[|b|] == '/';
    assert |b| > |a| ==> r[|a|] == b[|a|] != '/';
    assert |b| < |a| ==> l[|b|] == a[|b|] != '/';
    if l <= r {
      assert l[..|a|] == a && r[..|a|] == b;
      assert l[|a| + 1..] == x && r[|a| + 1..] == y;
    }
    if a == b && x <= y {
      assert r == l + y[|x|..];
    }
  }

  lemma LongPrefixOfPlain(a: string, x: string, b: string)
    requires NoSlash(b)
    ensures !(a + "/" + x <= b)
  {
    var l := a + "/" + x;
    assert l[|a|] == '/';
    assert |b| > |a| ==> b[|a|] != '/';
  }

  lemma ComponentPrefixSteps(s: seq<string>, t: seq<string>)
    requires |s| > 1 && |t| > 1 && s[0] == t[0]
    ensures s <= t <==> s[1..] <= t[1..]
    ensures SiblingExtends(s, t) <==> SiblingExtends(s[1..], t[1..])
  {
    var n := |s| - 1;
    assert s == [s[0]] + s[1..] && t == [t[0]] + t[1..];
    if |s| <= |t| {
      assert s[..n] == [s[0]] + s[1..][..n - 1] && t[..n] == [t[0]] + t[1..][..n - 1];
      assert s[..n] == t[..n] <==> s[1..][..n - 1] == t[1..][..n - 1] by {
        assert s[..n][1..] == s[1..][..n - 1] && t[..n][1..] == t[1..][..n - 1];
      }
    }
  }

  /** `strings.HasPrefix` on joined components, in terms of the components. */
  lemma {:induction false} JoinedPrefixIff(s: seq<string>, t: seq<string>)
    requires AllNormal(s) && AllNormal(t) && s != []
    ensures Joined(s) <= Joined(t) <==> s <= t || SiblingExtends(s, t)
  {
    if t == [] {
    } else if |s| == 1 {
      if |t| > 1 {
        HeadPrefix(s[0], t[0], Joined(t[1..]));
      }
      assert s <= t <==> s[0] == t[0];
      assert s[..0] == t[..0];
    } else if |t| == 1 {
      LongPrefixOfPlain(s[0], Joined(s[1..]), t[0]);
    } else {
      HeadThenPrefix(s[0], Joined(s[1..]), t[0], Joined(t[1..]));
      if s[0] == t[0] {
        JoinedPrefixIff(s[1..], t[1..]);
        ComponentPrefixSteps(s, t);
      } else {
        assert s[..|s| - 1][0] == s[0];
        assert |s| <= |t| ==> t[..|s| - 1][0] == t[0];
      }
    }
  }

  lemma PathPrefixIff(s: seq<string>, t: seq<string>)
    requires AllNormal(s) && AllNormal(t)
    ensures PathOf(s) <= PathOf(t) <==> s <= t || SiblingExtends(s, t)
  {
    assert PathOf(s)[1..] == Joined(s) && PathOf(t)[1..] == Joined(t);
    assert PathOf(s) <= PathOf(t) <==> Joined(s) <= Joined(t);
    if s != [] {
      JoinedPrefixIff(s, t);
    }
  }

  lemma {:induction false} RelBelow(s: seq<string>, t: seq<string>)
    requires s <= t
    ensures Rel(s, t) == t[|s|..]
  {
    if s != [] {
      RelBelow(s[1..], t[1..]);
    } else {
      assert Ups(0) + t == t;
    }
  }

  lemma {:induction false} RelBeside(s: seq<string>, t: seq<string>)
    requires SiblingExtends(s, t)
    ensures |Rel(s, t)| >= 2 && Rel(s, t)[0] == ".."
  {
    if |s| > 1 {
      assert s[..|s| - 1][0] == t[..|s| - 1][0];
      ComponentPrefixSteps(s, t);
      RelBeside(s[1..], t[1..]);
    }
  }

  // ----- what an entry means

  lemma EntryByComponents(save: seq<string>, s: seq<string>, file: TorrentFile, at: seq<string>)
    requires AllNormal(save) && AllNormal(s) && at == Location(save, file.path)
    ensures AllNormal(at) && AllNormal(Front(at))
    ensures Entry(PathOf(save), PathOf(s), file)
         == if Front(at) == s then Some(FileItem(if at == [] then "/" else at[|at| - 1], false, file.length, ""))
            else if PathOf(s) <= PathOf(Front(at)) then Folder(Rel(s, Front(at)))
            else None
  {
    FileLocation(save, file.path);
    PartsOfPath(at);
    BaseOfRooted(at);
    PartsOfPath(Front(at));
    PartsOfPath(s);
    PathsDiffer(Front(at), s);
  }

  /** A file whose directory is the listed one is shown itself; a file further below shows the folder on the way;
      a file below a sibling whose name extends the listed name shows a ghost entry called `..`; nothing else
      shows. */
  lemma EntryMeaning(save: seq<string>, s: seq<string>, file: TorrentFile)
    requires AllNormal(save) && AllNormal(s)
    ensures var at := Location(save, file.path);
            var t := Front(at);
            Entry(PathOf(save), PathOf(s), file)
            == if t == s then Some(FileItem(if at == [] then "/" else at[|at| - 1], false, file.length, ""))
               else if s <= t then Some(FileItem(t[|s|], true, 0, ""))
               else if SiblingExtends(s, t) then Some(FileItem("..", true, 0, ""))
               else None
  {
    var at := Location(save, file.path);
    var t := Front(at);
    EntryByComponents(save, s, file, at);
    PathPrefixIff(s, t);
    if t != s && s <= t {
      RelBelow(s, t);
      assert Rel(s, t)[0] == t[|s|] && Normal(t[|s|]);
    } else if SiblingExtends(s, t) {
      RelBeside(s, t);
    }
  }

  /** The same with the file's directory and name spelled out. */
  lemma EntryOfFileIn(save: seq<string>, s: seq<string>, file: TorrentFile, t: seq<string>, name: string)
    requires AllNormal(save) && AllNormal(s) && Location(save, file.path) == t + [name]
    ensures Entry(PathOf(save), PathOf(s), file)
         == if t == s then Some(FileItem(name, false, file.length, ""))
            else if s <= t then Some(FileItem(t[|s|], true, 0, ""))
            else if SiblingExtends(s, t) then Some(FileItem("..", true, 0, ""))
            else None
  {
    EntryMeaning(save, s, file);
    assert (t + [name])[..|t|] == t;
  }

  // ----- the loop

  ghost predicate Gives(absSaveDir: string, safePath: string, files: seq<TorrentFile>, i: nat, name: string)
    requires absSaveDir != ""
  {
    && i < |files| && Entry(absSaveDir, safePath, files[i]).Some?
    && Entry(absSaveDir, safePath, files[i]).value.name == name
  }

  ghost predicate SomeGives(absSaveDir: string, safePath: string, files: seq<TorrentFile>, allWanted: bool,
                            wanted: set<nat>, name: string)
    requires absSaveDir != ""
  {
    exists i: nat :: Selected(i, allWanted, wanted) && Gives(absSaveDir, safePath, files, i, name)
  }

  lemma SomeGivesSnoc(absSaveDir: string, safePath: string, files: seq<TorrentFile>, f: TorrentFile, allWanted: bool,
                      wanted: set<nat>, name: string)
    requires absSaveDir != ""
    ensures SomeGives(absSaveDir, safePath, files + [f], allWanted, wanted, name)
       <==> SomeGives(absSaveDir, safePath, files, allWanted, wanted, name)
            || (Selected(|files|, allWanted, wanted) && Gives(absSaveDir, safePath, files + [f], |files|, name))
  {
    forall i: nat | i < |files|
      ensures Gives(absSaveDir, safePath, files + [f], i, name) <==> Gives(absSaveDir, safePath, files, i, name)
    {
      assert (files + [f])[i] == files[i];
    }
    if SomeGives(absSaveDir, safePath, files, allWanted, wanted, name) {
      var i: nat :| Selected(i, allWanted, wanted) && Gives(absSaveDir, safePath, files, i, name);
      assert Gives(absSaveDir, safePath, files + [f], i, name);
    }
  }

  /** The names after the merge are the old ones and those the wanted files give; a deselected file gives none. */
  lemma {:induction false} NamesAfterTorrent(v: Items, absSaveDir: string, safePath: string, files: seq<TorrentFile>,
                                             allWanted: bool, wanted: set<nat>, name: string)
    requires absSaveDir != ""
    ensures name in WithTorrent(v, absSaveDir, safePath, files, allWanted, wanted)
       <==> name in v || SomeGives(absSaveDir, safePath, files, allWanted, wanted, name)
  {
    if files != [] {
      var n := |files| - 1;
      NamesAfterTorrent(v, absSaveDir, safePath, files[..n], allWanted, wanted, name);
      SomeGivesSnoc(absSaveDir, safePath, files[..n], files[n], allWanted, wanted, name);
      assert files[..n] + [files[n]] == files;
    }
  }

  lemma GivesInFront(absSaveDir: string, safePath: string, files: seq<TorrentFile>, i: nat, name: string)
    requires absSaveDir != "" && files != []
    ensures Gives(absSaveDir, safePath, files[..|files| - 1], i, name) <==>
            i < |files| - 1 && Gives(absSaveDir, safePath, files, i, name)
  {
  }

  lemma UngivenStays(w: Items, e: Option<FileItem>, name: string)
    requires e.Some? ==> e.value.name != name
    ensures (name in WithEntry(w, e) <==> name in w) && (name in w ==> WithEntry(w, e)[name] == w[name])
  {
  }

  /** The last file leaves the entry of a name alone that it does not give. */
  lemma LastKeepsEntry(v: Items, absSaveDir: string, safePath: string, files: seq<TorrentFile>, allWanted: bool,
                       wanted: set<nat>, name: string)
    requires absSaveDir != "" && files != []
    requires allWanted || |files| - 1 in wanted ==> !Gives(absSaveDir, safePath, files, |files| - 1, name)
    ensures var w := WithTorrent(v, absSaveDir, safePath, files, allWanted, wanted);
            var w0 := WithTorrent(v, absSaveDir, safePath, files[..|files| - 1], allWanted, wanted);
            (name in w <==> name in w0) && (name in w0 ==> w[name] == w0[name])
  {
    var n := |files| - 1;
    if allWanted || n in wanted {
      UngivenStays(WithTorrent(v, absSaveDir, safePath, files[..n], allWanted, wanted), Entry(absSaveDir, safePath, files[n]), name);
    }
  }

  /** A name that no wanted file gives is listed as before the merge. */
  lemma {:induction false} OtherEntriesStay(v: Items, absSaveDir: string, safePath: string, files: seq<TorrentFile>,
                                            allWanted: bool, wanted: set<nat>, name: string)
    requires absSaveDir != ""
    requires forall j: nat :: allWanted || j in wanted ==> !Gives(absSaveDir, safePath, files, j, name)
    ensures var w := WithTorrent(v, absSaveDir, safePath, files, allWanted, wanted);
            (name in w <==> name in v) && (name in v ==> w[name] == v[name])
  {
    if files != [] {
      var n := |files| - 1;
      forall j: nat | allWanted || j in wanted ensures !Gives(absSaveDir, safePath, files[..n], j, name) {
        GivesInFront(absSaveDir, safePath, files, j, name);
      }
      OtherEntriesStay(v, absSaveDir, safePath, files[..n], allWanted, wanted, name);
      LastKeepsEntry(v, absSaveDir, safePath, files, allWanted, wanted, name);
    }
  }

  lemma LastGives(v: Items, absSaveDir: string, safePath: string, files: seq<TorrentFile>, allWanted: bool,
                  wanted: set<nat>, name: string)
    requires absSaveDir != "" && files != [] && (allWanted || |files| - 1 in wanted)
    requires Gives(absSaveDir, safePath, files, |files| - 1, name)
    ensures var w := WithTorrent(v, absSaveDir, safePath, files, allWanted, wanted);
            name in w && w[name] == Entry(absSaveDir, safePath, files[|files| - 1]).value
  {
  }

  /** The last wanted file that gives a name decides its entry, whatever was there before. */
  lemma {:induction false} LastWantedDecides(v: Items, absSaveDir: string, safePath: string, files: seq<TorrentFile>,
                                             allWanted: bool, wanted: set<nat>, name: string, i: nat)
    requires absSaveDir != "" && (allWanted || i in wanted) && Gives(absSaveDir, safePath, files, i, name)
    requires forall j: nat :: i < j && (allWanted || j in wanted) ==> !Gives(absSaveDir, safePath, files, j, name)
    ensures var w := WithTorrent(v, absSaveDir, safePath, files, allWanted, wanted);
            name in w && w[name] == Entry(absSaveDir, safePath, files[i]).value
  {
    var n := |files| - 1;
    if i < n {
      GivesInFront(absSaveDir, safePath, files, i, name);
      forall j: nat | i < j && (allWanted || j in wanted) ensures !Gives(absSaveDir, safePath, files[..n], j, name) {
        GivesInFront(absSaveDir, safePath, files, j, name);
      }
      LastWantedDecides(v, absSaveDir, safePath, files[..n], allWanted, wanted, name, i);
      assert files[..n][i] == files[i];
      LastKeepsEntry(v, absSaveDir, safePath, files, allWanted, wanted, name);
    } else {
      LastGives(v, absSaveDir, safePath, files, allWanted, wanted, name);
    }
  }

  /** The ghost appears exactly when a wanted file lies below a sibling directory whose name extends the name of
      the listed one. */
  lemma GhostIff(v: Items, save: seq<string>, s: seq<string>, files: seq<TorrentFile>, allWanted: bool, wanted: set<nat>)
    requires AllNormal(save) && AllNormal(s) && ".." !in v
    ensures ".." in WithTorrent(v, PathOf(save), PathOf(s), files, allWanted, wanted)
       <==> exists i: nat :: Selected(i, allWanted, wanted) && BesideListed(save, s, files, i)
  {
    NamesAfterTorrent(v, PathOf(save), PathOf(s), files, allWanted, wanted, "..");
    forall i: nat
      ensures Gives(PathOf(save), PathOf(s), files, i, "..") <==> BesideListed(save, s, files, i)
    {
      if i < |files| {
        GhostEntryIff(save, s, files[i]);
      }
    }
  }

  predicate BesideListed(save: seq<string>, s: seq<string>, files: seq<TorrentFile>, i: nat) {
    i < |files| && SiblingExtends(s, Front(Location(save, files[i].path)))
  }

  lemma GhostEntryIff(save: seq<string>, s: seq<string>, file: TorrentFile)
    requires AllNormal(save) && AllNormal(s)
    ensures var e := Entry(PathOf(save), PathOf(s), file);
            e.Some? && e.value.name == ".." <==> SiblingExtends(s, Front(Location(save, file.path)))
  {
    var at := Location(save, file.path);
    var t := Front(at);
    FileLocation(save, file.path);
    EntryMeaning(save, s, file);
    if SiblingExtends(s, t) {
      assert s[|s| - 1] != t[|s| - 1];
    } else if s <= t && t != s {
      assert Normal(t[|s|]);
    } else if at != [] {
      assert Normal(at[|at| - 1]);
    }
  }

  lemma GhostLocation()
    ensures Location(["d"], "ab/f") == ["d", "ab", "f"]
  {
    SplitConcat("ab", "f");
    SplitPlain("ab");
    SplitPlain("f");
    assert "ab" + "/" + "f" == "ab/f";
    PushedNormal(["d"], ["ab", "f"], true);
  }

  lemma SiblingExample()
    ensures SiblingExtends(["d", "a"], Front(["d", "ab", "f"]))
  {
    assert Front(["d", "ab", "f"]) == ["d", "ab"];
    assert ["d", "a"][..1] == ["d", "ab"][..1];
    assert "a" <= "ab";
  }

  /** Listing `/d/a` while a torrent saves `/d/ab/f` shows the ghost. */
  lemma GhostExample(length: int)
    ensures ".." in WithTorrent(map[], PathOf(["d"]), PathOf(["d", "a"]), [TorrentFile("ab/f", length)], true, {})
  {
    var save, s, files := ["d"], ["d", "a"], [TorrentFile("ab/f", length)];
    GhostLocation();
    SiblingExample();
    assert Selected(0, true, {}) && BesideListed(save, s, files, 0);
    GhostIff(map[], save, s, files, true, {});
  }
}
