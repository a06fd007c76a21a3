/** Listing a directory: what is on disk, what running torrents will put there, and what only the object store
    still holds. */
module VirtualListing {
  import opened FileStore
  import opened LexicalPath
  import opened Relocation
  import opened SqlLike
  import opened TorrentEntries
  import opened Wrappers

  /** The name of the first component. */
  function FirstName(rel: string): string {
    Split(rel)[0]
  }

  /** What an archived row contributes to the directory with the given prefix. */
  function Offered(r: Row, prefix: string): Option<FileItem> {
    if r.s3Key == "" || !Like(r.filePath, prefix + "%") then None
    else
      var rel := TrimPrefix(r.filePath, prefix);
      if rel == "" || rel == r.filePath || FirstName(rel) == "" then None
      else if |Split(rel)| == 1 then Some(FileItem(FirstName(rel), false, r.size, r.s3Key))
      else Some(FileItem(FirstName(rel), true, 0, ""))
  }

  /** An entry that is there already wins. */
  function WithOffer(v: Items, r: Row, prefix: string): Items {
    match Offered(r, prefix)
    case None => v
    case Some(item) => if item.name in v then v else v[item.name := item]
  }

  function WithArchived(v: Items, rows: seq<Row>, prefix: string): Items {
    if rows == [] then v
    else WithOffer(WithArchived(v, rows[..|rows| - 1], prefix), rows[|rows| - 1], prefix)
  }

  function Names(files: seq<FileItem>): set<string> {
    set i | 0 <= i < |files| :: files[i].name
  }

  ghost predicate DistinctNames(files: seq<FileItem>) {
    forall i, j :: 0 <= i < j < |files| ==> files[i].name != files[j].name
  }

  ghost predicate WellNamed(v: Items) {
    forall k :: k in v ==> v[k].name == k
  }

  /** The entry on disk takes the larger size of a virtual file of its name; a folder stays as it is. */
  function Grown(f: FileItem, v: Items): FileItem {
    if !f.isDir && f.name in v && v[f.name].size > f.size then f.(size := v[f.name].size) else f
  }

  /** The merged listing: the physical entries first, each grown, then every other virtual entry once. */
  ghost predicate IsMerge(physical: seq<FileItem>, v: Items, merged: seq<FileItem>) {
    && |physical| <= |merged|
    && (forall i :: 0 <= i < |physical| ==> merged[i] == Grown(physical[i], v))
    && (forall i :: |physical| <= i < |merged| ==>
          merged[i].name in v && merged[i] == v[merged[i].name] && merged[i].name !in Names(physical))
    && DistinctNames(merged)
    && Names(merged) == Names(physical) + v.Keys
  }

  // ----- the handler

  class Listing {
    var virtualFiles: Items
    var files: seq<FileItem>

    constructor (physical: seq<FileItem>)
      ensures virtualFiles == map[] && files == physical
    {
      virtualFiles, files := map[], physical;
    }

    method MergeTorrent(absSaveDir: string, safePath: string, refs: seq<TorrentFile>, allWanted: bool, wanted: set<nat>)
      requires absSaveDir != "" && WellNamed(virtualFiles)
      modifies `virtualFiles
      ensures virtualFiles == WithTorrent(old(virtualFiles), absSaveDir, safePath, refs, allWanted, wanted)
      ensures WellNamed(virtualFiles)
    {
      for i := 0 to |refs|
        invariant virtualFiles == WithTorrent(old(virtualFiles), absSaveDir, safePath, refs[..i], allWanted, wanted)
        invariant WellNamed(virtualFiles)
      {
        assert refs[..i + 1][..i] == refs[..i];
        if allWanted || i in wanted {
          match Entry(absSaveDir, safePath, refs[i]) {
            case None =>
            case Some(item) => virtualFiles := virtualFiles[item.name := item];
          }
        }
      }
      assert refs[..|refs|] == refs;
    }

    method MergeS3VirtualFiles(safeDir: string, rows: seq<Row>, s3Enabled: bool)
      requires WellNamed(virtualFiles)
      modifies `virtualFiles
      ensures virtualFiles == if s3Enabled then WithArchived(old(virtualFiles), rows, AsDir(safeDir)) else old(virtualFiles)
      ensures WellNamed(virtualFiles)
    {
      if !s3Enabled {
        return;
      }
      var prefix := AsDir(safeDir);
      for i := 0 to |rows|
        invariant virtualFiles == WithArchived(old(virtualFiles), rows[..i], prefix)
        invariant WellNamed(virtualFiles)
      {
        assert rows[..i + 1][..i] == rows[..i];
        var rec := rows[i];
        if rec.s3Key == "" || !Like(rec.filePath, prefix + "%") {
          continue;
        }
        var rel := TrimPrefix(rec.filePath, prefix);
        if rel == "" || rel == rec.filePath {
          continue;
        }
        var parts := Split(rel);
        var name := parts[0];
        if name == "" || name in virtualFiles {
          continue;
        }
        if |parts| == 1 {
          virtualFiles := virtualFiles[name := FileItem(name, false, rec.size, rec.s3Key)];
        } else {
          virtualFiles := virtualFiles[name := FileItem(name, true, 0, "")];
        }
      }
      assert rows[..|rows|] == rows;
    }

    /** The index of the entry with the name, or -1. */
    method FindByName(name: string) returns (foundIdx: int)
      ensures foundIdx == -1 ==> name !in Names(files)
      ensures foundIdx != -1 ==> 0 <= foundIdx < |files| && files[foundIdx].name == name
    {
      foundIdx := -1;
      for idx := 0 to |files|
        invariant forall i :: 0 <= i < idx ==> files[i].name != name
      {
        if files[idx].name == name {
          return idx;
        }
      }
    }

    /** The virtual entries join the listing one by one, in any order; directory names on disk are distinct. */
    method MergePhysical()
      requires WellNamed(virtualFiles) && DistinctNames(files)
      modifies `files
      ensures IsMerge(old(files), virtualFiles, files)
    {
      ghost var physical := files;
      var rest := virtualFiles.Keys;
      MergeStarts(physical, virtualFiles);
      while rest != {}
        invariant rest <= virtualFiles.Keys
        invariant IsMerge(physical, virtualFiles - rest, files)
      {
        var name :| name in rest;
        var vf := virtualFiles[name];
        var foundIdx := FindByName(vf.name);
        ghost var before := files;
        if foundIdx != -1 {
          if !files[foundIdx].isDir && vf.size > files[foundIdx].size {
            files := files[foundIdx := files[foundIdx].(size := vf.size)];
          }
          MergeFound(physical, virtualFiles, rest, before, name, foundIdx);
        } else {
          files := files + [vf];
          MergeAppended(physical, virtualFiles, rest, before, name);
        }
        rest := rest - {name};
      }
      assert virtualFiles - rest == virtualFiles;
    }
  }

  lemma MergeStarts(physical: seq<FileItem>, v: Items)
    requires DistinctNames(physical)
    ensures IsMerge(physical, v - v.Keys, physical)
  {
    assert v - v.Keys == map[];
  }

  lemma NamesUpdate(files: seq<FileItem>, i: nat, f: FileItem)
    requires i < |files| && f.name == files[i].name
    ensures Names(files[i := f]) == Names(files)
    ensures DistinctNames(files) ==> DistinctNames(files[i := f])
  {
    var g := files[i := f];
    assert forall j :: 0 <= j < |files| ==> g[j].name == files[j].name;
    forall n | n in Names(files) ensures n in Names(g) {
      var j :| 0 <= j < |files| && files[j].name == n;
      assert g[j].name == n;
    }
  }

  lemma NamesAppend(files: seq<FileItem>, f: FileItem)
    ensures Names(files + [f]) == Names(files) + {f.name}
    ensures DistinctNames(files) && f.name !in Names(files) ==> DistinctNames(files + [f])
  {
    var g := files + [f];
    assert g[|files|].name == f.name;
    forall n | n in Names(files) ensures n in Names(g) {
      var j :| 0 <= j < |files| && files[j].name == n;
      assert g[j].name == n;
    }
    assert forall j :: 0 <= j < |files| ==> files[j].name in Names(files) && g[j] == files[j];
  }

  /** The map without `rest`, after `name` has left `rest`. */
  lemma OneLess(v: Items, rest: set<string>, name: string)
    requires name in rest && rest <= v.Keys
    ensures name !in (v - rest) && v - (rest - {name}) == (v - rest)[name := v[name]]
  {
  }

  lemma GrownMore(f: FileItem, v: Items, name: string, item: FileItem)
    requires name !in v
    ensures Grown(f, v[name := item]) == if f.name == name && !f.isDir && item.size > f.size
                                         then f.(size := item.size) else Grown(f, v)
  {
  }

  lemma MergeFound(physical: seq<FileItem>, v: Items, rest: set<string>, files: seq<FileItem>, name: string, i: nat)
    requires WellNamed(v) && rest <= v.Keys && name in rest && IsMerge(physical, v - rest, files)
    requires i < |files| && files[i].name == name
    ensures var f := files[i];
            IsMerge(physical, v - (rest - {name}),
                    if !f.isDir && v[name].size > f.size then files[i := f.(size := v[name].size)] else files)
  {
    OneLess(v, rest, name);
    var w := v - rest;
    var g := if !files[i].isDir && v[name].size > files[i].size then files[i := files[i].(size := v[name].size)] else files;
    assert i < |physical| by {
      assert name !in w;
    }
    assert physical[i].name == name;
    assert g == files[i := g[i]];
    NamesUpdate(files, i, g[i]);
    forall j | 0 <= j < |physical| ensures g[j] == Grown(physical[j], w[name := v[name]]) {
      GrownMore(physical[j], w, name, v[name]);
      assert j != i ==> files[j].name != name;
    }
    assert name in Names(physical);
    assert Names(physical) + w[name := v[name]].Keys == Names(physical) + w.Keys;
  }

  lemma MergeAppended(physical: seq<FileItem>, v: Items, rest: set<string>, files: seq<FileItem>, name: string)
    requires WellNamed(v) && rest <= v.Keys && name in rest && IsMerge(physical, v - rest, files)
    requires name !in Names(files)
    ensures IsMerge(physical, v - (rest - {name}), files + [v[name]])
  {
    OneLess(v, rest, name);
    var w := v - rest;
    NamesAppend(files, v[name]);
    forall j | 0 <= j < |physical| ensures files[j] == Grown(physical[j], w[name := v[name]]) {
      GrownMore(physical[j], w, name, v[name]);
      assert files[j].name in Names(files);
    }
    assert w[name := v[name]].Keys == w.Keys + {name};
  }

  // ----- what the archived rows add

  /** Whatever wildcards the directory name holds, a row is offered exactly when it is archived and truly lies
      under the directory. */
  lemma OfferedIff(r: Row, prefix: string)
    requires prefix != ""
    ensures Offered(r, prefix).Some? <==> r.s3Key != "" && prefix <= r.filePath && FirstName(r.filePath[|prefix|..]) != ""
  {
    if prefix <= r.filePath {
      LikeOwnPrefix(prefix, r.filePath[|prefix|..]);
      assert r.filePath == prefix + r.filePath[|prefix|..];
    }
  }

  ghost predicate Offers(rows: seq<Row>, j: nat, prefix: string, name: string) {
    j < |rows| && Offered(rows[j], prefix).Some? && Offered(rows[j], prefix).value.name == name
  }

  ghost predicate SomeOffers(rows: seq<Row>, prefix: string, name: string) {
    exists j: nat :: Offers(rows, j, prefix, name)
  }

  lemma OffersSnoc(rows: seq<Row>, r: Row, prefix: string, name: string)
    ensures SomeOffers(rows + [r], prefix, name)
       <==> SomeOffers(rows, prefix, name) || Offers(rows + [r], |rows|, prefix, name)
  {
    forall j: nat | j < |rows| ensures Offers(rows + [r], j, prefix, name) <==> Offers(rows, j, prefix, name) {
      assert (rows + [r])[j] == rows[j];
    }
    if SomeOffers(rows, prefix, name) {
      var j: nat :| Offers(rows, j, prefix, name);
      assert Offers(rows + [r], j, prefix, name);
    }
  }

  /** The virtual names are the earlier ones and those some archived row offers. */
  lemma {:induction false} NamesWithArchived(v: Items, rows: seq<Row>, prefix: string, name: string)
    ensures name in WithArchived(v, rows, prefix) <==> name in v || SomeOffers(rows, prefix, name)
  {
    if rows != [] {
      var n := |rows| - 1;
      NamesWithArchived(v, rows[..n], prefix, name);
      OffersSnoc(rows[..n], rows[n], prefix, name);
      assert rows[..n] + [rows[n]] == rows;
    }
  }

  /** An entry made earlier stays; otherwise the first row that offers the name decides it. */
  lemma {:induction false} FirstOfferDecides(v: Items, rows: seq<Row>, prefix: string, j: nat, name: string)
    requires Offers(rows, j, prefix, name) && forall i: nat :: i < j ==> !Offers(rows, i, prefix, name)
    ensures name in WithArchived(v, rows, prefix)
    ensures WithArchived(v, rows, prefix)[name] == if name in v then v[name] else Offered(rows[j], prefix).value
  {
    var n := |rows| - 1;
    if j < n {
      assert rows[..n][j] == rows[j];
      forall i: nat | i < j ensures !Offers(rows[..n], i, prefix, name) {
        assert rows[..n][i] == rows[i];
        assert !Offers(rows, i, prefix, name);
      }
      FirstOfferDecides(v, rows[..n], prefix, j, name);
    } else {
      forall i: nat ensures !Offers(rows[..n], i, prefix, name) {
        if i < n {
          assert rows[..n][i] == rows[i];
          assert !Offers(rows, i, prefix, name);
        }
      }
      NamesWithArchived(v, rows[..n], prefix, name);
      EntriesKept(v, rows[..n], prefix, name);
    }
  }

  lemma {:induction false} EntriesKept(v: Items, rows: seq<Row>, prefix: string, name: string)
    ensures name in v ==> name in WithArchived(v, rows, prefix) && WithArchived(v, rows, prefix)[name] == v[name]
  {
    if rows != [] {
      EntriesKept(v, rows[..|rows| - 1], prefix, name);
    }
  }

  // ----- every archived file can be reached

  /** The directory reached from `dir` by the given steps. */
  function At(dir: string, steps: seq<string>): string
    decreases |steps|
  {
    if steps == [] then dir else At(AsDir(dir) + steps[0], steps[1..])
  }

  predicate PlainNames(cs: seq<string>) {
    forall i :: 0 <= i < |cs| ==> cs[i] != "" && NoSlash(cs[i])
  }

  lemma OfferedNext(r: Row, prefix: string, rest: seq<string>)
    requires prefix != "" && rest != [] && PlainNames(rest)
    requires r.s3Key != "" && r.filePath == prefix + Joined(rest)
    ensures Offered(r, prefix)
         == Some(if |rest| == 1 then FileItem(rest[0], false, r.size, r.s3Key) else FileItem(rest[0], true, 0, ""))
  {
    SplitJoined(rest);
    assert r.filePath[|prefix|..] == Joined(rest);
    OfferedIff(r, prefix);
  }

  lemma AsDirOfName(d: string, c: string)
    requires c != "" && NoSlash(c)
    ensures AsDir(d + c) == d + c + "/"
  {
    assert (d + c)[|d + c| - 1] == c[|c| - 1];
  }

  lemma Regrouped(d: string, c: string, t: string)
    ensures d + (c + "/" + t) == d + c + "/" + t
  {
  }

  lemma StepDown(dir: string, path: string, rest: seq<string>)
    requires |rest| > 1 && PlainNames(rest) && path == AsDir(dir) + Joined(rest)
    ensures path == AsDir(AsDir(dir) + rest[0]) + Joined(rest[1..])
  {
    AsDirOfName(AsDir(dir), rest[0]);
    Regrouped(AsDir(dir), rest[0], Joined(rest[1..]));
  }

  lemma AtNext(dir: string, rest: seq<string>, k: nat)
    requires 0 < k <= |rest|
    ensures At(dir, rest[..k]) == At(AsDir(dir) + rest[0], rest[1..][..k - 1])
  {
    assert rest[..k][1..] == rest[1..][..k - 1];
  }

  lemma AtStart(dir: string, rest: seq<string>)
    ensures At(dir, rest[..0]) == dir
  {
  }

  /** Down the path of an archived row every directory is offered the next name: a folder until the last one,
      which is the file itself with its size and key. */
  lemma {:induction false} OfferedAtEveryLevel(r: Row, dir: string, rest: seq<string>, k: nat)
    requires k < |rest| && PlainNames(rest) && r.s3Key != "" && r.filePath == AsDir(dir) + Joined(rest)
    ensures Offered(r, AsDir(At(dir, rest[..k])))
         == Some(if k == |rest| - 1 then FileItem(rest[k], false, r.size, r.s3Key) else FileItem(rest[k], true, 0, ""))
    decreases k
  {
    if k == 0 {
      AtStart(dir, rest);
      OfferedNext(r, AsDir(dir), rest);
    } else {
      StepDown(dir, r.filePath, rest);
      AtNext(dir, rest, k);
      OfferedAtEveryLevel(r, AsDir(dir) + rest[0], rest[1..], k - 1);
    }
  }

  /** Whatever is on disk and whatever the torrents added, the merged listing of each directory on the way to an
      archived row has an entry with the next name. */
  lemma EveryLevelListsTheNextName(rows: seq<Row>, j: nat, dir: string, rest: seq<string>, k: nat, v: Items,
                                   physical: seq<FileItem>, merged: seq<FileItem>)
    requires j < |rows| && rows[j].s3Key != "" && rows[j].filePath == AsDir(dir) + Joined(rest)
    requires k < |rest| && PlainNames(rest)
    requires IsMerge(physical, WithArchived(v, rows, AsDir(At(dir, rest[..k]))), merged)
    ensures rest[k] in Names(merged) && Offers(rows, j, AsDir(At(dir, rest[..k])), rest[k])
  {
    var prefix := AsDir(At(dir, rest[..k]));
    OfferedAtEveryLevel(rows[j], dir, rest, k);
    assert Offers(rows, j, prefix, rest[k]);
    NamesWithArchived(v, rows, prefix, rest[k]);
  }

  // ----- which entry it is

  ghost predicate IsFirstOffer(rows: seq<Row>, f: nat, prefix: string, name: string) {
    Offers(rows, f, prefix, name) && forall g: nat :: g < f ==> !Offers(rows, g, prefix, name)
  }

  lemma {:induction false} FirstOffer(rows: seq<Row>, j: nat, prefix: string, name: string) returns (f: nat)
    requires Offers(rows, j, prefix, name)
    ensures f <= j && IsFirstOffer(rows, f, prefix, name)
    decreases j
  {
    if g: nat :| g < j && Offers(rows, g, prefix, name) {
      f := FirstOffer(rows, g, prefix, name);
    } else {
      f := j;
    }
  }

  /** A row offers a folder exactly when it lies below the name, and a file, its own, exactly when it lies at it. */
  lemma OfferedKind(r: Row, prefix: string, name: string)
    requires prefix != "" && Offered(r, prefix).Some? && Offered(r, prefix).value.name == name
    ensures Offered(r, prefix).value.isDir <==> prefix + name + "/" <= r.filePath
    ensures !Offered(r, prefix).value.isDir <==> r.filePath == prefix + name
    ensures !Offered(r, prefix).value.isDir ==> Offered(r, prefix).value == FileItem(name, false, r.size, r.s3Key)
  {
    OfferedIff(r, prefix);
    var rel := r.filePath[|prefix|..];
    assert r.filePath == prefix + rel && TrimPrefix(r.filePath, prefix) == rel;
    var parts := Split(rel);
    JoinedSplit(rel);
    SplitPlain(name);
    assert parts[0] == name && (|parts| > 1 ==> rel == name + "/" + Joined(parts[1..]));
    KindOfRemainder(prefix, name, rel, parts);
  }

  lemma KindOfRemainder(prefix: string, name: string, rel: string, parts: seq<string>)
    requires parts != [] && parts == Split(rel) && parts[0] == name && NoSlash(name)
    requires rel == if |parts| == 1 then name else name + "/" + Joined(parts[1..])
    ensures prefix + name + "/" <= prefix + rel <==> |parts| > 1
    ensures prefix + rel == prefix + name <==> |parts| == 1
  {
    if |parts| > 1 {
      var t := Joined(parts[1..]);
      assert prefix + rel == prefix + name + "/" + t;
    } else {
      assert |prefix + name + "/"| > |prefix + rel|;
    }
  }

  lemma PhysicalEntry(physical: seq<FileItem>, v: Items, merged: seq<FileItem>, i: nat)
    requires IsMerge(physical, v, merged) && i < |merged|
    ensures merged[i].name in Names(physical) <==> i < |physical|
    ensures i < |physical| ==> merged[i] == Grown(physical[i], v) && merged[i].isDir == physical[i].isDir
    ensures i >= |physical| ==> merged[i].name in v && merged[i] == v[merged[i].name]
  {
    if i < |physical| {
      assert physical[i].name == merged[i].name;
    }
  }

  /** At each level of the way to an archived row the entry with the next name is decided by what is on disk; else
      by the torrents; else by the first row that offers the name: a folder exactly when that row lies below it,
      and otherwise the file of that row. */
  lemma LevelEntry(rows: seq<Row>, j: nat, dir: string, rest: seq<string>, k: nat, v: Items,
                   physical: seq<FileItem>, merged: seq<FileItem>) returns (i: nat, f: nat)
    requires j < |rows| && rows[j].s3Key != "" && rows[j].filePath == AsDir(dir) + Joined(rest)
    requires k < |rest| && PlainNames(rest)
    requires IsMerge(physical, WithArchived(v, rows, AsDir(At(dir, rest[..k]))), merged)
    ensures i < |merged| && merged[i].name == rest[k]
    ensures f <= j && IsFirstOffer(rows, f, AsDir(At(dir, rest[..k])), rest[k])
    ensures var here := AsDir(At(dir, rest[..k])) + rest[k];
            if rest[k] in Names(physical) then i < |physical| && merged[i].isDir == physical[i].isDir
            else if rest[k] in v then merged[i] == v[rest[k]]
            else && (merged[i].isDir <==> here + "/" <= rows[f].filePath)
                 && (!merged[i].isDir <==> rows[f].filePath == here)
                 && (!merged[i].isDir ==> merged[i] == FileItem(rest[k], false, rows[f].size, rows[f].s3Key))
  {
    var prefix, name := AsDir(At(dir, rest[..k])), rest[k];
    EveryLevelListsTheNextName(rows, j, dir, rest, k, v, physical, merged);
    i :| 0 <= i < |merged| && merged[i].name == name;
    f := FirstOffer(rows, j, prefix, name);
    PhysicalEntry(physical, WithArchived(v, rows, prefix), merged, i);
    FirstOfferDecides(v, rows, prefix, f, name);
    OfferedKind(rows[f], prefix, name);
  }

  /** Where nothing on disk, no torrent and no archived file stands at the name, the way down is open. */
  lemma WayDownIsOpen(rows: seq<Row>, j: nat, dir: string, rest: seq<string>, k: nat, v: Items,
                      physical: seq<FileItem>, merged: seq<FileItem>) returns (i: nat)
    requires j < |rows| && rows[j].s3Key != "" && rows[j].filePath == AsDir(dir) + Joined(rest)
    requires k < |rest| && PlainNames(rest)
    requires IsMerge(physical, WithArchived(v, rows, AsDir(At(dir, rest[..k]))), merged)
    requires rest[k] !in Names(physical) && rest[k] !in v
    requires forall g :: 0 <= g < |rows| && rows[g].s3Key != "" ==> rows[g].filePath != AsDir(At(dir, rest[..k])) + rest[k]
    ensures i < |merged| && merged[i].name == rest[k] && merged[i].isDir
  {
    var f;
    i, f := LevelEntry(rows, j, dir, rest, k, v, physical, merged);
    assert Offers(rows, f, AsDir(At(dir, rest[..k])), rest[k]);
  }

  lemma OfferedInD(r: Row, rel: string)
    requires r.s3Key != "" && r.filePath == "/d/" + rel && (rel == "a" || rel == "a/b")
    ensures Offered(r, "/d/") == Some(if rel == "a" then FileItem("a", false, r.size, r.s3Key) else FileItem("a", true, 0, ""))
  {
    if rel == "a" {
      assert Joined(["a"]) == "a";
      OfferedNext(r, "/d/", ["a"]);
    } else {
      assert Joined(["b"]) == "b" && ["a", "b"][1..] == ["b"];
      assert Joined(["a", "b"]) == "a" + "/" + "b";
      assert "a" + "/" + "b" == "a/b";
      OfferedNext(r, "/d/", ["a", "b"]);
    }
  }

  /** An archived file `/d/a` hides the archived `/d/a/b`: the listing of `/d` has only the file. */
  lemma FileHidesFolder(r: Row, q: Row)
    requires r.s3Key != "" && q.s3Key != "" && r.filePath == "/d/a" && q.filePath == "/d/a/b"
    ensures WithArchived(map[], [r, q], "/d/") == map["a" := FileItem("a", false, r.size, r.s3Key)]
  {
    assert "/d/" + "a" == "/d/a" && "/d/" + "a/b" == "/d/a/b";
    OfferedInD(r, "a");
    OfferedInD(q, "a/b");
    var rows, one := [r, q], [r];
    assert rows[..1] == one && one[..0] == [];
    assert WithArchived(map[], one, "/d/") == map["a" := FileItem("a", false, r.size, r.s3Key)];
  }

  /** What is on disk keeps its place, its name and its kind; a file shows the larger of the two sizes when something
      virtual has its name, a folder its own. */
  lemma MergedSizes(physical: seq<FileItem>, v: Items, merged: seq<FileItem>, i: nat)
    requires IsMerge(physical, v, merged) && i < |physical|
    ensures var p, m := physical[i], merged[i];
            && m.name == p.name && m.isDir == p.isDir && m.s3Key == p.s3Key
            && (p.isDir || p.name !in v ==> m.size == p.size)
            && (!p.isDir && p.name in v ==> m.size >= p.size && m.size >= v[p.name].size && (m.size == p.size || m.size == v[p.name].size))
  {
    assert merged[i] == Grown(physical[i], v);
  }
}
