/** Moving an item: the registry rows at the old path, or under it, get the new path. */
module Relocation {
  import opened FileStore
  import opened SqlLike
  import opened Wrappers

  /** The path with a separator at its end. */
  function AsDir(path: string): (p: string)
    ensures p != "" && p[|p| - 1] == '/' && path <= p && |p| <= |path| + 1
    ensures p == path <==> path != "" && path[|path| - 1] == '/'
  {
    if path != "" && path[|path| - 1] == '/' then path else path + "/"
  }

  /** `strings.TrimPrefix`. */
  function TrimPrefix(s: string, prefix: string): string {
    if prefix <= s then s[|prefix|..] else s
  }

  /** The new path of a row when everything `LIKE prefix%` moves; a row that only the pattern matches, and not
      the prefix itself, keeps its whole path behind the new one. */
  function Moved(path: string, prefix: string, dstPrefix: string): string {
    if Like(path, prefix + "%") then dstPrefix + TrimPrefix(path, prefix) else path
  }

  function Relocated(rows: seq<Row>, src: string, dst: string): seq<Row> {
    match First(rows, ByPath(src))
    case Some(i) => rows[i := rows[i].(filePath := dst)]
    case None => seq(|rows|, i requires 0 <= i < |rows| =>
                             rows[i].(filePath := Moved(rows[i].filePath, AsDir(src), AsDir(dst))))
  }

  // ----- the update loop

  class Registry {
    var rows: seq<Row>

    constructor (initial: seq<Row>)
      ensures rows == initial
    {
      rows := initial;
    }

    /** The ids of the rows that the pattern matches. */
    method FindLike(pattern: string) returns (ids: seq<nat>)
      ensures forall i: nat :: i in ids <==> i < |rows| && Like(rows[i].filePath, pattern)
      ensures forall a, b :: 0 <= a < b < |ids| ==> ids[a] < ids[b]
    {
      ids := [];
      for n := 0 to |rows|
        invariant forall i: nat :: i in ids <==> i < n && Like(rows[i].filePath, pattern)
        invariant forall a :: 0 <= a < |ids| ==> ids[a] < n
        invariant forall a, b :: 0 <= a < b < |ids| ==> ids[a] < ids[b]
      {
        if Like(rows[n].filePath, pattern) {
          ids := ids + [n];
        }
      }
    }

    method Relocate(src: string, dst: string)
      modifies this
      ensures rows == Relocated(old(rows), src, dst)
    {
      match First(rows, ByPath(src)) {
        case Some(i) =>
          rows := rows[i := rows[i].(filePath := dst)];
        case None =>
          MoveDirectory(AsDir(src), AsDir(dst));
      }
    }

    method MoveDirectory(prefix: string, dstPrefix: string)
      modifies this
      ensures |rows| == |old(rows)|
      ensures forall i :: 0 <= i < |rows| ==>
                rows[i] == old(rows)[i].(filePath := Moved(old(rows)[i].filePath, prefix, dstPrefix))
    {
      ghost var was := rows;
      var records := FindLike(prefix + "%");
      for n := 0 to |records|
        invariant |rows| == |was|
        invariant forall i :: 0 <= i < |rows| ==>
                    rows[i] == if i in records[..n]
                               then was[i].(filePath := Moved(was[i].filePath, prefix, dstPrefix)) else was[i]
      {
        var id := records[n];
        assert id in records;
        assert records[..n + 1] == records[..n] + [id];
        assert id !in records[..n];
        var rel := TrimPrefix(rows[id].filePath, prefix);
        rows := rows[id := rows[id].(filePath := dstPrefix + rel)];
      }
      assert records[..|records|] == records;
    }
  }

  // ----- who moves

  predicate Under(path: string, dir: string) {
    AsDir(dir) <= path
  }

  /** The pattern matches only what truly lies under the directory. */
  ghost predicate LikeIsExact(rows: seq<Row>, dir: string) {
    forall i :: 0 <= i < |rows| && Like(rows[i].filePath, AsDir(dir) + "%") ==> Under(rows[i].filePath, dir)
  }

  ghost predicate OutsideKept(rows: seq<Row>, after: seq<Row>, src: string)
    requires |after| == |rows|
  {
    forall i :: 0 <= i < |rows| && rows[i].filePath != src && !Under(rows[i].filePath, src) ==> after[i] == rows[i]
  }

  /** Rows that are neither at nor under the source keep their place exactly when a row stands at the source
      itself or the pattern matches nothing else. */
  lemma OutsideKeptIff(rows: seq<Row>, src: string, dst: string)
    ensures |Relocated(rows, src, dst)| == |rows|
    ensures OutsideKept(rows, Relocated(rows, src, dst), src)
       <==> First(rows, ByPath(src)).Some? || LikeIsExact(rows, src)
  {
    var after := Relocated(rows, src, dst);
    if First(rows, ByPath(src)).None? {
      forall i | 0 <= i < |rows| && !Under(rows[i].filePath, src)
        ensures after[i] == rows[i] <==> !Like(rows[i].filePath, AsDir(src) + "%")
      {
        assert |AsDir(dst) + rows[i].filePath| > |rows[i].filePath|;
      }
      if !LikeIsExact(rows, src) {
        var i :| 0 <= i < |rows| && Like(rows[i].filePath, AsDir(src) + "%") && !Under(rows[i].filePath, src);
        assert after[i] != rows[i];
      }
    }
  }

  predicate Arrives(path: string, newPath: string, src: string, dst: string) {
    && (path == src ==> newPath == dst)
    && (path != src && Under(path, src) ==> newPath == AsDir(dst) + path[|AsDir(src)|..])
  }

  /** Everything at or under the source arrives under its name at the destination. */
  ghost predicate AllArrive(rows: seq<Row>, after: seq<Row>, src: string, dst: string)
    requires |after| == |rows|
  {
    forall i :: 0 <= i < |rows| ==> Arrives(rows[i].filePath, after[i].filePath, src, dst)
  }

  lemma UnderMoves(path: string, p: string, q: string)
    requires p <= path
    ensures Moved(path, p, q) == q + path[|p|..]
  {
    LikeOwnPrefix(p, path[|p|..]);
    assert path == p + path[|p|..];
  }

  /** A directory without a row of its own arrives whole. */
  lemma DirectoryArrives(rows: seq<Row>, src: string, dst: string)
    requires First(rows, ByPath(src)).None?
    ensures AllArrive(rows, Relocated(rows, src, dst), src, dst)
  {
    var after := Relocated(rows, src, dst);
    forall i | 0 <= i < |rows|
      ensures rows[i].filePath != src
      ensures Under(rows[i].filePath, src) ==> after[i].filePath == AsDir(dst) + rows[i].filePath[|AsDir(src)|..]
    {
      assert !Matches(ByPath(src), rows[i]);
      if Under(rows[i].filePath, src) {
        UnderMoves(rows[i].filePath, AsDir(src), AsDir(dst));
      }
    }
  }

  /** With a row at the source itself only the first such row moves: all the others stay behind. */
  lemma OnlyFirstMoves(rows: seq<Row>, src: string, dst: string, i: nat, j: nat)
    requires First(rows, ByPath(src)) == Some(i) && j < |rows| && j != i
    ensures Relocated(rows, src, dst)[j] == rows[j] && Relocated(rows, src, dst)[i].filePath == dst
  {
  }

  /** A row that stays behind is where it should arrive only when the two places are the same. */
  predicate StaysInPlace(path: string, src: string, dst: string) {
    (path == src ==> src == dst) && (path != src && Under(path, src) ==> AsDir(src) == AsDir(dst))
  }

  lemma OthersArriveIff(rows: seq<Row>, src: string, dst: string, i: nat)
    requires First(rows, ByPath(src)) == Some(i)
    ensures AllArrive(rows, Relocated(rows, src, dst), src, dst)
       <==> forall j :: 0 <= j < |rows| && j != i ==> StaysInPlace(rows[j].filePath, src, dst)
  {
    var after := Relocated(rows, src, dst);
    assert rows[i].filePath == src && after[i].filePath == dst;
    forall j | 0 <= j < |rows| && j != i
      ensures Arrives(rows[j].filePath, after[j].filePath, src, dst) <==> StaysInPlace(rows[j].filePath, src, dst)
    {
      assert after[j] == rows[j];
      ArrivesInPlaceIff(rows[j].filePath, src, dst);
    }
  }

  lemma ArrivesInPlaceIff(path: string, src: string, dst: string)
    ensures Arrives(path, path, src, dst) <==> StaysInPlace(path, src, dst)
  {
    if Under(path, src) {
      var rest := path[|AsDir(src)|..];
      assert path == AsDir(src) + rest;
      SamePrefix(AsDir(src), AsDir(dst), rest);
    }
  }

  lemma SamePrefix(p: string, q: string, rest: string)
    ensures p + rest == q + rest <==> p == q
  {
    if p + rest == q + rest {
      assert p == (p + rest)[..|p|] && q == (q + rest)[..|p|];
    }
  }

  /** All of it arrives exactly when no row stands at the source, or that row has no other beside or below it. */
  lemma AllArriveIff(rows: seq<Row>, src: string, dst: string)
    ensures AllArrive(rows, Relocated(rows, src, dst), src, dst)
       <==> match First(rows, ByPath(src))
            case None => true
            case Some(i) => forall j :: 0 <= j < |rows| && j != i ==> StaysInPlace(rows[j].filePath, src, dst)
  {
    match First(rows, ByPath(src))
    case None => DirectoryArrives(rows, src, dst);
    case Some(i) => OthersArriveIff(rows, src, dst, i);
  }

  // ----- there and back

  lemma BackIff(path: string, p: string, q: string)
    requires p != "" && q != ""
    ensures Moved(Moved(path, p, q), q, p) == path
       <==> if Like(path, p + "%") then p <= path else !Like(path, q + "%")
  {
    if Like(path, p + "%") {
      var rel := TrimPrefix(path, p);
      LikeOwnPrefix(q, rel);
      assert TrimPrefix(q + rel, q) == rel;
      assert p <= path ==> p + rel == path;
      assert !(p <= path) ==> |p + rel| > |path|;
    } else if Like(path, q + "%") {
      var rel := TrimPrefix(path, q);
      LikeOwnPrefix(p, rel);
    }
  }

  /** When a row stands at the source: none of the rows before it is at the destination. */
  ghost predicate FileReturns(rows: seq<Row>, dst: string, i: nat) {
    forall j :: 0 <= j < i && j < |rows| ==> rows[j].filePath != dst
  }

  /** When none does: the pattern of the source is exact, no row it moves lands on the bare destination, and no
      row it leaves is at the destination or matched by its pattern. */
  ghost predicate DirectoryReturns(rows: seq<Row>, src: string, dst: string) {
    && LikeIsExact(rows, src)
    && (forall i :: 0 <= i < |rows| ==> Moved(rows[i].filePath, AsDir(src), AsDir(dst)) != dst)
    && (forall i :: 0 <= i < |rows| && !Like(rows[i].filePath, AsDir(src) + "%") ==>
          !Like(rows[i].filePath, AsDir(dst) + "%"))
  }

  lemma FileReturnsIff(rows: seq<Row>, src: string, dst: string, i: nat)
    requires First(rows, ByPath(src)) == Some(i)
    ensures Relocated(Relocated(rows, src, dst), dst, src) == rows <==> FileReturns(rows, dst, i)
  {
    var mid := Relocated(rows, src, dst);
    var k := First(mid, ByPath(dst));
    assert Matches(ByPath(dst), mid[i]);
    assert k.Some? && k.value <= i;
    assert rows[i].filePath == src;
    var end := Relocated(mid, dst, src);
    assert end[k.value].filePath == src;
    if k.value == i {
      assert forall j :: 0 <= j < i ==> mid[j] == rows[j] && !Matches(ByPath(dst), mid[j]);
      assert end[i] == rows[i];
    } else {
      assert mid[k.value] == rows[k.value];
      assert rows[k.value].filePath == dst;
      assert !Matches(ByPath(src), rows[k.value]);
      assert end[k.value] != rows[k.value];
    }
  }

  lemma LandingOnDestinationNeverReturns(rows: seq<Row>, src: string, dst: string)
    requires First(rows, ByPath(src)).None? && First(Relocated(rows, src, dst), ByPath(dst)).Some?
    ensures Relocated(Relocated(rows, src, dst), dst, src) != rows
  {
    var mid := Relocated(rows, src, dst);
    var k := First(mid, ByPath(dst)).value;
    assert Relocated(mid, dst, src)[k].filePath == src;
    assert !Matches(ByPath(src), rows[k]);
  }

  lemma DirectoryReturnsIff(rows: seq<Row>, src: string, dst: string)
    requires First(rows, ByPath(src)).None?
    ensures Relocated(Relocated(rows, src, dst), dst, src) == rows <==> DirectoryReturns(rows, src, dst)
  {
    var p, q := AsDir(src), AsDir(dst);
    var mid := Relocated(rows, src, dst);
    if First(mid, ByPath(dst)).Some? {
      LandingOnDestinationNeverReturns(rows, src, dst);
      var k := First(mid, ByPath(dst)).value;
      assert Moved(rows[k].filePath, p, q) == dst;
    } else {
      var end := Relocated(mid, dst, src);
      forall i | 0 <= i < |rows|
        ensures Moved(rows[i].filePath, p, q) != dst
        ensures end[i] == rows[i] <==> if Like(rows[i].filePath, p + "%") then p <= rows[i].filePath
                                       else !Like(rows[i].filePath, q + "%")
      {
        assert !Matches(ByPath(dst), mid[i]);
        BackIff(rows[i].filePath, p, q);
      }
      if DirectoryReturns(rows, src, dst) {
        assert forall i :: 0 <= i < |rows| ==> end[i] == rows[i];
      } else if end == rows {
        assert forall i :: 0 <= i < |rows| ==> end[i] == rows[i];
      }
    }
  }

  /** Moving there and back restores the registry exactly when the guard of the branch taken holds. */
  lemma RoundTripIff(rows: seq<Row>, src: string, dst: string)
    ensures Relocated(Relocated(rows, src, dst), dst, src) == rows
       <==> match First(rows, ByPath(src))
            case Some(i) => FileReturns(rows, dst, i)
            case None => DirectoryReturns(rows, src, dst)
  {
    match First(rows, ByPath(src))
    case Some(i) => FileReturnsIff(rows, src, dst, i);
    case None => DirectoryReturnsIff(rows, src, dst);
  }

  // ----- plain paths

  /** No row has the prefix in another spelling of its letters. */
  ghost predicate OneSpelling(rows: seq<Row>, dir: string) {
    var n := |AsDir(dir)|;
    forall i :: 0 <= i < |rows| && n <= |rows[i].filePath| && SameLetters(rows[i].filePath[..n], AsDir(dir))
      ==> Under(rows[i].filePath, dir)
  }

  lemma PlainPatternIsExact(rows: seq<Row>, dir: string)
    requires WildcardFree(dir) && OneSpelling(rows, dir)
    ensures LikeIsExact(rows, dir)
    ensures forall i :: 0 <= i < |rows| && !Under(rows[i].filePath, dir) ==> !Like(rows[i].filePath, AsDir(dir) + "%")
  {
    forall i | 0 <= i < |rows| && Like(rows[i].filePath, AsDir(dir) + "%") ensures Under(rows[i].filePath, dir) {
      LikePrefixIff(rows[i].filePath, AsDir(dir));
    }
  }

  /** Paths without wildcards, spelled one way, with nothing at or under the destination: there and back
      restores every row. */
  lemma PlainDirectoryReturns(rows: seq<Row>, src: string, dst: string)
    requires First(rows, ByPath(src)).None? && dst != AsDir(dst)
    requires WildcardFree(src) && WildcardFree(dst) && OneSpelling(rows, src) && OneSpelling(rows, dst)
    requires forall i :: 0 <= i < |rows| ==> rows[i].filePath != dst && !Under(rows[i].filePath, dst)
    ensures Relocated(Relocated(rows, src, dst), dst, src) == rows
    ensures OutsideKept(rows, Relocated(rows, src, dst), src)
  {
    PlainPatternIsExact(rows, src);
    PlainPatternIsExact(rows, dst);
    OutsideKeptIff(rows, src, dst);
    forall i | 0 <= i < |rows| ensures Moved(rows[i].filePath, AsDir(src), AsDir(dst)) != dst {
      assert |AsDir(dst)| > |dst|;
    }
    RoundTripIff(rows, src, dst);
  }

  lemma UnderscoreMatchesNeighbour(s: string)
    requires s == "/d/aXb/f"
    ensures AsDir("/d/a_b") == "/d/a_b/" && Like(s, AsDir("/d/a_b") + "%") && !Under(s, "/d/a_b") && s != "/d/a_b"
  {
    var prefix := "/d/a_b/";
    assert prefix + "%" == "/d/a_b/%";
    LikeSuffix(s, prefix + "%", 0);
    assert s[0..] == s && (prefix + "%")[0..] == prefix + "%";
    assert prefix[4] != s[4];
  }

  /** An underscore in a directory name drags a neighbour along, whole path and all. */
  lemma UnderscoreDragsNeighbour(r: Row)
    requires r.filePath == "/d/aXb/f"
    ensures Relocated([r], "/d/a_b", "/d/c") == [r.(filePath := "/d/c//d/aXb/f")]
  {
    var s, row := r.filePath, [r];
    UnderscoreMatchesNeighbour(s);
    assert TrimPrefix(s, "/d/a_b/") == s && AsDir("/d/c") == "/d/c/";
    assert "/d/c/" + s == "/d/c//d/aXb/f";
    assert !Matches(ByPath("/d/a_b"), row[0]);
    assert First(row, ByPath("/d/a_b")).None?;
    assert Relocated(row, "/d/a_b", "/d/c")[0] == r.(filePath := "/d/c//d/aXb/f");
  }

  /** The characters of the example match the pattern one by one. */
  lemma {:induction false} LikeSuffix(s: string, pat: string, i: nat)
    requires s == "/d/aXb/f" && pat == "/d/a_b/%" && i <= 7
    ensures Like(s[i..], pat[i..])
    decreases 7 - i
  {
    if i == 7 {
      PercentMatchesAll(s[7..]);
      assert pat[7..] == "%";
    } else {
      LikeSuffix(s, pat, i + 1);
      assert s[i..][1..] == s[i + 1..] && pat[i..][1..] == pat[i + 1..];
    }
  }
}
