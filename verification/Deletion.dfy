/** Deleting an item: the registry rows at its path or under it go, and with them their objects. */
module Deletion {
  import opened FileStore
  import opened Relocation
  import opened SqlLike

  /** The rows by id. */
  type Rows = map<nat, Row>

  type Objects = map<string, Bytes>

  /** With the store disabled the separator is always appended, also behind a path that ends with one. */
  function Pattern(dir: string, enabled: bool): string {
    (if enabled then AsDir(dir) else dir + "/") + "%"
  }

  predicate Hit(r: Row, dir: string, enabled: bool) {
    r.filePath == dir || Like(r.filePath, Pattern(dir, enabled))
  }

  function Hits(rows: Rows, dir: string, enabled: bool): set<nat> {
    set i | i in rows && Hit(rows[i], dir, enabled)
  }

  function RowsLeft(rows: Rows, dir: string, enabled: bool): Rows {
    rows - Hits(rows, dir, enabled)
  }

  /** The row has an object, and the store carries its deletion out; `answers` tells for which keys. */
  predicate Deletable(r: Row, answers: string -> bool) {
    r.s3Key != "" && answers(r.s3Key)
  }

  function KeysOf(rows: Rows, ids: set<nat>, answers: string -> bool): set<string> {
    set i | i in ids && i in rows && Deletable(rows[i], answers) :: rows[i].s3Key
  }

  function ObjectsLeft(objects: Objects, rows: Rows, dir: string, enabled: bool, answers: string -> bool): Objects {
    if enabled then objects - KeysOf(rows, Hits(rows, dir, true), answers) else objects
  }

  class S3Registry {
    const enabled: bool
    var rows: Rows
    var objects: Objects

    constructor (rows: Rows, objects: Objects, enabled: bool)
      ensures this.rows == rows && this.objects == objects && this.enabled == enabled
    {
      this.rows, this.objects, this.enabled := rows, objects, enabled;
    }

    method FindHits(dir: string) returns (ids: set<nat>)
      ensures ids == Hits(rows, dir, enabled)
    {
      ids := {};
      var rest := rows.Keys;
      while rest != {}
        invariant rest <= rows.Keys
        invariant ids == set i | i in rows && i !in rest && Hit(rows[i], dir, enabled)
      {
        var i :| i in rest;
        rest := rest - {i};
        if Hit(rows[i], dir, enabled) {
          ids := ids + {i};
        }
      }
    }

    method DeleteRecord(id: nat, answers: string -> bool)
      requires id in rows
      modifies this
      ensures rows == old(rows) - {id}
      ensures objects == if enabled then old(objects) - KeysOf(old(rows), {id}, answers) else old(objects)
    {
      var rec := rows[id];
      if enabled && rec.s3Key != "" && answers(rec.s3Key) {
        objects := objects - {rec.s3Key};
      }
      rows := rows - {id};
    }

    /** The records are deleted one by one, in any order. */
    method DeleteS3Entries(dir: string, answers: string -> bool)
      modifies this
      ensures rows == RowsLeft(old(rows), dir, enabled)
      ensures objects == ObjectsLeft(old(objects), old(rows), dir, enabled, answers)
    {
      ghost var was, had := rows, objects;
      var records := FindHits(dir);
      ghost var gone: set<nat> := {};
      var rest := records;
      while rest != {}
        invariant rest <= records && gone == records - rest && records == Hits(was, dir, enabled)
        invariant rows == was - gone
        invariant objects == if enabled then had - KeysOf(was, gone, answers) else had
      {
        var id :| id in rest;
        KeysOfOneMore(was, gone, id, answers);
        DeleteRecord(id, answers);
        rest, gone := rest - {id}, gone + {id};
      }
      assert gone == records;
    }
  }

  lemma KeysOfOneMore(rows: Rows, ids: set<nat>, id: nat, answers: string -> bool)
    requires id in rows && id !in ids
    ensures KeysOf(rows, ids + {id}, answers) == KeysOf(rows, ids, answers) + KeysOf(rows - ids, {id}, answers)
  {
  }

  // ----- what is lost

  predicate Inside(r: Row, dir: string) {
    r.filePath == dir || Under(r.filePath, dir)
  }

  lemma InsideIsHit(r: Row, dir: string, enabled: bool)
    requires Inside(r, dir) && (enabled || AsDir(dir) == dir + "/")
    ensures Hit(r, dir, enabled)
  {
    if Under(r.filePath, dir) {
      var rest := r.filePath[|AsDir(dir)|..];
      LikeOwnPrefix(AsDir(dir), rest);
      assert r.filePath == AsDir(dir) + rest;
    }
  }

  /** Exactly the rows at or under the path go, when and only when the pattern matches no row elsewhere and, for a
      path that ends with a separator while the store is disabled, still matches every row below it. */
  lemma OnlyInsideDeletedIff(rows: Rows, dir: string, enabled: bool)
    ensures RowsLeft(rows, dir, enabled) == (map i | i in rows && !Inside(rows[i], dir) :: rows[i])
       <==> && (forall i :: i in rows && Like(rows[i].filePath, Pattern(dir, enabled)) ==> Inside(rows[i], dir))
            && (enabled || AsDir(dir) == dir + "/"
                || forall i :: i in rows && Inside(rows[i], dir) ==> Hit(rows[i], dir, enabled))
  {
    var left, outside := RowsLeft(rows, dir, enabled), map i | i in rows && !Inside(rows[i], dir) :: rows[i];
    if enabled || AsDir(dir) == dir + "/" {
      forall i | i in rows && Inside(rows[i], dir) ensures Hit(rows[i], dir, enabled) {
        InsideIsHit(rows[i], dir, enabled);
      }
    }
    if left == outside {
      forall i | i in rows ensures Hit(rows[i], dir, enabled) <==> Inside(rows[i], dir) {
        assert i in left <==> i in outside;
      }
    }
  }

  /** No two rows have the same key. */
  ghost predicate UniqueKeys(rows: Rows) {
    forall i, j :: i in rows && j in rows && i != j && rows[i].s3Key == rows[j].s3Key ==> rows[i].s3Key == ""
  }

  /** An archived row outside the path loses its object exactly when the store is enabled and carries the deletion
      out, and the pattern matches its path, or that of a row with the same key. */
  lemma OutsideObjectLostIff(rows: Rows, objects: Objects, dir: string, enabled: bool, answers: string -> bool, j: nat)
    requires j in rows && !Inside(rows[j], dir) && rows[j].s3Key != "" && rows[j].s3Key in objects
    ensures rows[j].s3Key !in ObjectsLeft(objects, rows, dir, enabled, answers)
       <==> && enabled && answers(rows[j].s3Key)
            && exists i :: i in rows && rows[i].s3Key == rows[j].s3Key
                           && (Inside(rows[i], dir) || Like(rows[i].filePath, AsDir(dir) + "%"))
  {
    var k := rows[j].s3Key;
    forall i | i in rows && rows[i].s3Key == k
      ensures i in Hits(rows, dir, true) <==> Inside(rows[i], dir) || Like(rows[i].filePath, AsDir(dir) + "%")
    {
      if Inside(rows[i], dir) {
        InsideIsHit(rows[i], dir, true);
      }
    }
  }

  /** Where keys are unique, that is exactly a false match of the row's own path. */
  lemma OutsideObjectLostIffMatched(rows: Rows, objects: Objects, dir: string, enabled: bool, answers: string -> bool, j: nat)
    requires UniqueKeys(rows)
    requires j in rows && !Inside(rows[j], dir) && rows[j].s3Key != "" && rows[j].s3Key in objects
    ensures rows[j].s3Key !in ObjectsLeft(objects, rows, dir, enabled, answers)
       <==> enabled && answers(rows[j].s3Key) && Like(rows[j].filePath, AsDir(dir) + "%")
  {
    OutsideObjectLostIff(rows, objects, dir, enabled, answers, j);
  }

  /** Deleting `/d/a_b` deletes the object of `/d/aXb/f`. */
  lemma UnderscoreDeletesNeighbour(r: Row, content: Bytes, answers: string -> bool)
    requires r.filePath == "/d/aXb/f" && r.s3Key != "" && answers(r.s3Key)
    ensures RowsLeft(map[0 := r], "/d/a_b", true) == map[]
    ensures ObjectsLeft(map[r.s3Key := content], map[0 := r], "/d/a_b", true, answers) == map[]
    ensures !Inside(r, "/d/a_b")
  {
    UnderscoreMatchesNeighbour(r.filePath);
    var rows := map[0 := r];
    assert Hits(rows, "/d/a_b", true) == {0};
    assert KeysOf(rows, {0}, answers) == {rows[0].s3Key};
  }

  /** With the store disabled, deleting a path that ends with a separator misses what lies directly below it: only a
      row at the path itself, or behind a second separator, is hit. With the store enabled every row below is. */
  lemma DisabledMissesBelowSeparator(r: Row, dir: string)
    requires WildcardFree(dir) && dir != "" && dir[|dir| - 1] == '/' && dir <= r.filePath
    ensures Hit(r, dir, true)
    ensures Hit(r, dir, false) <==> r.filePath == dir || r.filePath[|dir|] == '/'
  {
    InsideIsHit(r, dir, true);
    LikePrefixIff(r.filePath, dir + "/");
    assert WildcardFree(dir + "/");
    if |dir| < |r.filePath| {
      var front := r.filePath[..|dir| + 1];
      assert front[..|dir|] == dir;
      assert SameLetters(front, dir + "/") <==> SameLetter(r.filePath[|dir|], '/');
    }
  }
}
