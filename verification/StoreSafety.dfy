/** No run of registrations, archivings and uploads loses a registered content. */
module StoreSafety {
  import opened FileStore
  import opened Wrappers

  ghost predicate Injective(hash: Bytes -> string) {
    forall a, b :: hash(a) == hash(b) ==> a == b
  }

  /** A download's temporary artifact, which archiving sweeps away. */
  predicate Temporary(path: string) {
    |path| >= 5 && path[|path| - 5..] == ".gtmp"
  }

  ghost predicate OnDisk(s: Store, c: Bytes) {
    exists p :: p in s.disk && !Temporary(p) && s.disk[p] == c
  }

  ghost predicate InS3(s: Store, hash: Bytes -> string, c: Bytes) {
    hash(c) in s.objects && s.objects[hash(c)] == c
  }

  /** The content is on disk at a path that is not temporary, or in S3 under its checksum. */
  ghost predicate Held(s: Store, hash: Bytes -> string, c: Bytes) {
    OnDisk(s, c) || InS3(s, hash, c)
  }

  ghost predicate RowSound(s: Store, hash: Bytes -> string, r: Row) {
    && !Temporary(r.filePath)
    && (r.s3Key == "" || r.s3Key == r.checksum)
    && (r.filePath in s.disk ==> hash(s.disk[r.filePath]) == r.checksum || r.checksum in s.objects)
  }

  ghost predicate OwnedBy(u: Upload, r: Row) {
    r.checksum == u.checksum && r.filePath == u.path
  }

  ghost predicate Owned(s: Store, u: Upload) {
    exists i :: 0 <= i < |s.rows| && OwnedBy(u, s.rows[i])
  }

  ghost predicate UploadSound(s: Store, hash: Bytes -> string, u: Upload) {
    u.path in s.disk ==> hash(s.disk[u.path]) == u.checksum && Owned(s, u)
  }

  /** One record per checksum, a master file on disk has its record's checksum or is a stub of what the object
      store holds, the object store is content-addressed, and a queued upload still finds the file it was queued
      for. */
  ghost predicate Sound(s: Store, hash: Bytes -> string) {
    && (forall i, j :: 0 <= i < j < |s.rows| ==> s.rows[i].checksum != s.rows[j].checksum)
    && (forall i :: 0 <= i < |s.rows| ==> RowSound(s, hash, s.rows[i]))
    && (forall k :: k in s.objects ==> hash(s.objects[k]) == k)
    && (forall u :: u in s.pending ==> UploadSound(s, hash, u))
  }

  ghost predicate RowHeld(s: Store, hash: Bytes -> string, r: Row) {
    exists c :: hash(c) == r.checksum && Held(s, hash, c)
  }

  /** Every registered content is held. */
  ghost predicate AllHeld(s: Store, hash: Bytes -> string) {
    forall i :: 0 <= i < |s.rows| ==> RowHeld(s, hash, s.rows[i])
  }

  // ----- what one call changes

  /** The call takes the branch that replaces the file by a link to the record's own. */
  predicate Deduplicates(s: Store, hash: Bytes -> string, path: string, readable: bool) {
    && path in s.disk && readable
    && var f := First(s.rows, ByChecksum(hash(s.disk[path])));
       f.Some? && s.rows[f.value].filePath != path && s.rows[f.value].filePath in s.disk
  }

  ghost predicate SameElsewhere(d: map<string, Bytes>, d': map<string, Bytes>, path: string) {
    forall p :: p != path ==> (p in d <==> p in d') && (p in d ==> d'[p] == d[p])
  }

  /** A record's checksum never changes; its path only moves away from a file that is gone. */
  ghost predicate RowKept(s: Store, r: Row, r': Row, path: string) {
    && r'.checksum == r.checksum
    && (r'.filePath == r.filePath || (r.filePath !in s.disk && r'.filePath == path))
  }

  lemma RegisteredDisk(s: Store, hash: Bytes -> string, path: string, opt: Tags, io: RegisterIO)
    ensures var s' := Registered(s, hash, path, opt, io).0;
            && s'.objects == s.objects && s'.enabled == s.enabled
            && (if Deduplicates(s, hash, path, io.readable) then SameElsewhere(s.disk, s'.disk, path) else s'.disk == s.disk)
  {
  }

  ghost predicate NewRow(s: Store, s': Store, k: string, path: string) {
    && |s'.rows| == |s.rows| + 1 && s'.rows[..|s.rows|] == s.rows
    && var row := s'.rows[|s.rows|];
       row.checksum == k && row.filePath == path && (row.s3Key == "" || row.s3Key == k)
  }

  lemma SavedRows(rows: seq<Row>, i: nat, reg: Row, opt: Tags, save: bool)
    requires i < |rows| && reg.checksum == rows[i].checksum && reg.s3Key == rows[i].s3Key
    ensures |Saved(rows, i, reg, opt, save)| == |rows|
    ensures forall j :: 0 <= j < |rows| ==>
              var r := Saved(rows, i, reg, opt, save)[j];
              && r.checksum == rows[j].checksum && r.s3Key == rows[j].s3Key
              && (r.filePath == rows[j].filePath || (j == i && r.filePath == reg.filePath))
  {
  }

  ghost predicate RowsKept(s: Store, hash: Bytes -> string, path: string, rows: seq<Row>)
  {
    && |s.rows| <= |rows|
    && (forall i :: 0 <= i < |s.rows| ==> RowKept(s, s.rows[i], rows[i], path) && rows[i].s3Key == s.rows[i].s3Key)
    && (forall i :: 0 <= i < |s.rows| && rows[i].filePath != s.rows[i].filePath ==>
          path in s.disk && hash(s.disk[path]) == s.rows[i].checksum)
  }

  /** The three ways a known content leaves the records: as they were, tagged, or moved and tagged. */
  lemma RegisteredKnown(s: Store, hash: Bytes -> string, path: string, opt: Tags, io: RegisterIO, i: nat)
    requires path in s.disk && First(s.rows, ByChecksum(hash(s.disk[path]))) == Some(i)
    ensures var rows, reg := Registered(s, hash, path, opt, io).0.rows, s.rows[i];
            || rows == s.rows
            || rows == Saved(s.rows, i, reg, opt, io.save)
            || (reg.filePath !in s.disk
                && rows == Saved(s.rows, i, reg.(filePath := path, size := |s.disk[path]|), opt, io.save))
  {
  }

  lemma RegisteredKnownRows(s: Store, hash: Bytes -> string, path: string, opt: Tags, io: RegisterIO)
    requires path in s.disk && First(s.rows, ByChecksum(hash(s.disk[path]))).Some?
    ensures var rows := Registered(s, hash, path, opt, io).0.rows; |rows| == |s.rows| && RowsKept(s, hash, path, rows)
  {
    var i := First(s.rows, ByChecksum(hash(s.disk[path]))).value;
    RegisteredKnown(s, hash, path, opt, io, i);
    var reg, rows := s.rows[i], Registered(s, hash, path, opt, io).0.rows;
    SavedRows(s.rows, i, reg, opt, io.save);
    SavedRows(s.rows, i, reg.(filePath := path, size := |s.disk[path]|), opt, io.save);
    assert s.rows[i].checksum == hash(s.disk[path]);
    forall j | 0 <= j < |s.rows| ensures RowKept(s, s.rows[j], rows[j], path) {
    }
  }

  lemma RegisteredRows(s: Store, hash: Bytes -> string, path: string, opt: Tags, io: RegisterIO)
    ensures var s' := Registered(s, hash, path, opt, io).0;
            && RowsKept(s, hash, path, s'.rows)
            && (|s'.rows| > |s.rows| ==>
                  && path in s.disk && First(s.rows, ByChecksum(hash(s.disk[path]))).None?
                  && NewRow(s, s', hash(s.disk[path]), path))
  {
    if path in s.disk && First(s.rows, ByChecksum(hash(s.disk[path]))).Some? {
      RegisteredKnownRows(s, hash, path, opt, io);
    }
  }

  // ----- registering

  lemma RegisteredKeepsContent(s: Store, hash: Bytes -> string, path: string, opt: Tags, io: RegisterIO, c: Bytes)
    requires Injective(hash) && Sound(s, hash) && Held(s, hash, c)
    ensures Held(Registered(s, hash, path, opt, io).0, hash, c)
  {
    var s' := Registered(s, hash, path, opt, io).0;
    RegisteredDisk(s, hash, path, opt, io);
    if !InS3(s, hash, c) {
      var p :| p in s.disk && !Temporary(p) && s.disk[p] == c;
      if Deduplicates(s, hash, path, io.readable) && p == path {
        assert RowSound(s, hash, s.rows[First(s.rows, ByChecksum(hash(c))).value]);
        assert hash(c) in s.objects ==> InS3(s, hash, c);
        p := s.rows[First(s.rows, ByChecksum(hash(c))).value].filePath;
      }
      assert p in s'.disk && s'.disk[p] == c;
    }
  }

  lemma UniqueRow(s: Store, hash: Bytes -> string, i: nat, j: nat)
    requires Sound(s, hash) && i < |s.rows| && j < |s.rows| && s.rows[i].checksum == s.rows[j].checksum
    ensures i == j
  {
  }

  /** Only records of archived contents point at the file that deduplication replaces. */
  lemma ReplacedFileIsArchived(s: Store, hash: Bytes -> string, path: string, readable: bool, i: nat)
    requires Sound(s, hash) && Deduplicates(s, hash, path, readable) && i < |s.rows|
    ensures s.rows[i].filePath != path || s.rows[i].checksum in s.objects
  {
    var f := First(s.rows, ByChecksum(hash(s.disk[path]))).value;
    assert RowSound(s, hash, s.rows[i]);
    assert i != f ==> s.rows[i].checksum != s.rows[f].checksum;
  }

  /** No upload is queued for it. */
  lemma ReplacedFileHasNoUpload(s: Store, hash: Bytes -> string, path: string, readable: bool, u: Upload)
    requires Sound(s, hash) && Deduplicates(s, hash, path, readable) && u in s.pending
    ensures u.path != path
  {
    var f := First(s.rows, ByChecksum(hash(s.disk[path]))).value;
    assert UploadSound(s, hash, u);
    if Owned(s, u) {
      var i :| 0 <= i < |s.rows| && OwnedBy(u, s.rows[i]);
      assert i != f ==> s.rows[i].checksum != s.rows[f].checksum;
    }
  }

  lemma RegisteredKeepsUpload(s: Store, hash: Bytes -> string, path: string, opt: Tags, io: RegisterIO, u: Upload)
    requires Sound(s, hash) && u in Registered(s, hash, path, opt, io).0.pending
    ensures UploadSound(Registered(s, hash, path, opt, io).0, hash, u)
  {
    var s' := Registered(s, hash, path, opt, io).0;
    RegisteredDisk(s, hash, path, opt, io);
    RegisteredRows(s, hash, path, opt, io);
    if u in s.pending {
      if Deduplicates(s, hash, path, io.readable) {
        ReplacedFileHasNoUpload(s, hash, path, io.readable, u);
      }
      if u.path in s'.disk {
        assert UploadSound(s, hash, u) && u.path in s.disk;
        var i :| 0 <= i < |s.rows| && OwnedBy(u, s.rows[i]);
        assert OwnedBy(u, s'.rows[i]);
      }
    } else {
      assert OwnedBy(u, s'.rows[|s.rows|]);
    }
  }

  lemma RegisteredKeepsSound(s: Store, hash: Bytes -> string, path: string, opt: Tags, io: RegisterIO)
    requires Injective(hash) && Sound(s, hash) && !Temporary(path)
    ensures Sound(Registered(s, hash, path, opt, io).0, hash)
  {
    var s' := Registered(s, hash, path, opt, io).0;
    RegisteredDisk(s, hash, path, opt, io);
    RegisteredRows(s, hash, path, opt, io);
    forall i | 0 <= i < |s'.rows| ensures RowSound(s', hash, s'.rows[i]) {
      if i < |s.rows| {
        assert RowSound(s, hash, s.rows[i]);
        if Deduplicates(s, hash, path, io.readable) {
          ReplacedFileIsArchived(s, hash, path, io.readable, i);
        }
      }
    }
    forall u | u in s'.pending ensures UploadSound(s', hash, u) {
      RegisteredKeepsUpload(s, hash, path, opt, io, u);
    }
  }

  // ----- archiving

  /** The call reached its end: the object is in the store, or the store took it without keeping it. */
  predicate Archives(s: Store, hash: Bytes -> string, path: string, opt: Tags, keepSparse: bool, io: ArchiveIO) {
    Archived(s, hash, path, opt, keepSparse, io).1.Done?
  }

  lemma KnownKeepsDisk(s: Store, k: string, i: nat, path: string, opt: Tags, io: ArchiveIO)
    requires path in s.disk && i < |s.rows|
    ensures var s' := ArchivedKnown(s, k, i, path, opt, io).0;
            s'.disk == s.disk && s'.enabled == s.enabled && s'.pending == s.pending
  {
  }

  lemma NewKeepsDisk(s: Store, k: string, path: string, opt: Tags, io: ArchiveIO)
    requires path in s.disk
    ensures var s' := ArchivedNew(s, k, path, opt, io).0;
            s'.disk == s.disk && s'.enabled == s.enabled && s'.pending == s.pending
  {
    if io.create.Raced? {
      KnownKeepsDisk(s.(rows := s.rows + [RivalRow(k, io.create)]), k, |s.rows|, path, opt, io);
    }
  }

  lemma CleanUpRemoves(s: Store, path: string, keepSparse: bool, remove: bool)
    ensures var s' := CleanedUp(s, path, keepSparse, remove);
            && s'.enabled == s.enabled && s'.pending == s.pending
            && (forall p :: p in s'.disk ==> p in s.disk && s'.disk[p] == s.disk[p])
            && (forall p :: p in s.disk && p != path && p != TempName(path) ==> p in s'.disk)
            && (path in s.disk && path !in s'.disk ==> !keepSparse && remove)
  {
    assert |path| < |TempName(path)|;
  }

  lemma ArchivedDisk(s: Store, hash: Bytes -> string, path: string, opt: Tags, keepSparse: bool, io: ArchiveIO)
    ensures var s' := Archived(s, hash, path, opt, keepSparse, io).0;
            && s'.enabled == s.enabled && s'.pending == s.pending
            && (forall p :: p in s'.disk ==> p in s.disk && s'.disk[p] == s.disk[p])
            && (forall p :: p in s.disk && p != path && p != TempName(path) ==> p in s'.disk)
            && (path in s.disk && path !in s'.disk ==> !keepSparse && io.remove && Archives(s, hash, path, opt, keepSparse, io))
  {
    if path in s.disk && io.readable {
      var k := hash(s.disk[path]);
      match First(s.rows, ByChecksum(k)) {
        case None =>
          NewKeepsDisk(s, k, path, opt, io);
          CleanUpRemoves(ArchivedNew(s, k, path, opt, io).0, path, keepSparse, io.remove);
        case Some(i) =>
          KnownKeepsDisk(s, k, i, path, opt, io);
          CleanUpRemoves(ArchivedKnown(s, k, i, path, opt, io).0, path, keepSparse, io.remove);
      }
    }
  }

  /** What a stage leaves in the object store: as it was, or with the file's object; after success the content's
      object is there. */
  ghost predicate ObjectsKept(s: Store, s': Store, hash: Bytes -> string, c: Bytes, done: bool) {
    && (s'.objects == s.objects || s'.objects == s.objects[hash(c) := c])
    && (s.enabled && done ==> InS3(s', hash, c))
  }

  ghost predicate ContentAddressed(s: Store, hash: Bytes -> string) {
    forall k :: k in s.objects ==> hash(s.objects[k]) == k
  }

  lemma KnownObjects(s: Store, hash: Bytes -> string, i: nat, path: string, opt: Tags, io: ArchiveIO)
    requires Injective(hash) && ContentAddressed(s, hash) && path in s.disk
    requires i < |s.rows| && (s.rows[i].s3Key == "" || s.rows[i].s3Key == hash(s.disk[path]))
    ensures var (s', r) := ArchivedKnown(s, hash(s.disk[path]), i, path, opt, io);
            ObjectsKept(s, s', hash, s.disk[path], r.Done?)
  {
  }

  lemma NewObjects(s: Store, hash: Bytes -> string, path: string, opt: Tags, io: ArchiveIO)
    requires Injective(hash) && ContentAddressed(s, hash) && path in s.disk
    ensures var (s', r) := ArchivedNew(s, hash(s.disk[path]), path, opt, io);
            ObjectsKept(s, s', hash, s.disk[path], r.Done?)
  {
    if io.create.Raced? {
      KnownObjects(s.(rows := s.rows + [RivalRow(hash(s.disk[path]), io.create)]), hash, |s.rows|, path, opt, io);
    }
  }

  lemma ArchivedObjects(s: Store, hash: Bytes -> string, path: string, opt: Tags, keepSparse: bool, io: ArchiveIO)
    requires Injective(hash) && Sound(s, hash)
    ensures var s' := Archived(s, hash, path, opt, keepSparse, io).0;
            && (s'.objects == s.objects || (path in s.disk && s'.objects == s.objects[hash(s.disk[path]) := s.disk[path]]))
            && (s.enabled && Archives(s, hash, path, opt, keepSparse, io) ==> path in s.disk && InS3(s', hash, s.disk[path]))
  {
    if path in s.disk && io.readable {
      match First(s.rows, ByChecksum(hash(s.disk[path]))) {
        case None => NewObjects(s, hash, path, opt, io);
        case Some(i) =>
          assert RowSound(s, hash, s.rows[i]);
          KnownObjects(s, hash, i, path, opt, io);
      }
    }
  }

  ghost predicate RowArchived(r: Row, r': Row) {
    r'.checksum == r.checksum && r'.filePath == r.filePath && (r'.s3Key == r.s3Key || r'.s3Key == r.checksum)
  }

  lemma KnownRows(s: Store, k: string, i: nat, path: string, opt: Tags, io: ArchiveIO)
    requires path in s.disk && i < |s.rows| && s.rows[i].checksum == k
    ensures var s' := ArchivedKnown(s, k, i, path, opt, io).0;
            |s'.rows| == |s.rows| && forall j :: 0 <= j < |s.rows| ==> RowArchived(s.rows[j], s'.rows[j])
  {
  }

  /** The path of a record that the call adds. */
  function NewPath(path: string, io: ArchiveIO): string {
    if io.create.Raced? then io.create.filePath else path
  }

  /** A worker that was faster left a record for a file that, if it is there, holds the same content or is a stub of
      what the object store holds. */
  ghost predicate FairRace(s: Store, hash: Bytes -> string, path: string, io: ArchiveIO) {
    io.create.Raced? && path in s.disk ==>
      && !Temporary(io.create.filePath)
      && (io.create.filePath in s.disk ==>
            hash(s.disk[io.create.filePath]) == hash(s.disk[path]) || hash(s.disk[path]) in s.objects)
  }

  lemma NewRows(s: Store, k: string, path: string, opt: Tags, io: ArchiveIO)
    requires path in s.disk
    ensures var s' := ArchivedNew(s, k, path, opt, io).0; s'.rows == s.rows || NewRow(s, s', k, NewPath(path, io))
  {
    if io.create.Raced? {
      var s1 := s.(rows := s.rows + [RivalRow(k, io.create)]);
      KnownRows(s1, k, |s.rows|, path, opt, io);
      KnownKeepsOthers(s1, k, |s.rows|, path, opt, io);
    }
  }

  lemma KnownKeepsOthers(s: Store, k: string, i: nat, path: string, opt: Tags, io: ArchiveIO)
    requires path in s.disk && i + 1 == |s.rows|
    ensures var rows := ArchivedKnown(s, k, i, path, opt, io).0.rows; |rows| == |s.rows| && rows[..i] == s.rows[..i]
  {
  }

  lemma ArchivedRows(s: Store, hash: Bytes -> string, path: string, opt: Tags, keepSparse: bool, io: ArchiveIO)
    ensures var s' := Archived(s, hash, path, opt, keepSparse, io).0;
            && |s.rows| <= |s'.rows|
            && (forall i :: 0 <= i < |s.rows| ==> RowArchived(s.rows[i], s'.rows[i]))
            && (|s'.rows| > |s.rows| ==>
                  path in s.disk && First(s.rows, ByChecksum(hash(s.disk[path]))).None? && NewRow(s, s', hash(s.disk[path]), NewPath(path, io)))
  {
    var s' := Archived(s, hash, path, opt, keepSparse, io).0;
    if path in s.disk && io.readable {
      var k := hash(s.disk[path]);
      var f := First(s.rows, ByChecksum(k));
      if f.Some? {
        KnownRows(s, k, f.value, path, opt, io);
      } else {
        NewRows(s, k, path, opt, io);
        assert forall i :: 0 <= i < |s.rows| ==> s'.rows[..|s.rows|][i] == s'.rows[i];
      }
    }
  }

  /** All that archiving may change; `file` is the path of a record it adds. */
  ghost predicate ArchiveChange(s: Store, s': Store, hash: Bytes -> string, path: string, file: string) {
    && s'.enabled == s.enabled && s'.pending == s.pending
    && (forall p :: p in s'.disk ==> p in s.disk && s'.disk[p] == s.disk[p])
    && (forall p :: p in s.disk && p != path && p != TempName(path) ==> p in s'.disk)
    && (s'.objects == s.objects || (path in s.disk && s'.objects == s.objects[hash(s.disk[path]) := s.disk[path]]))
    && |s.rows| <= |s'.rows|
    && (forall i :: 0 <= i < |s.rows| ==> RowArchived(s.rows[i], s'.rows[i]))
    && (|s'.rows| > |s.rows| ==>
          path in s.disk && First(s.rows, ByChecksum(hash(s.disk[path]))).None? && NewRow(s, s', hash(s.disk[path]), file))
  }

  lemma ArchivedChanges(s: Store, hash: Bytes -> string, path: string, opt: Tags, keepSparse: bool, io: ArchiveIO)
    requires Injective(hash) && Sound(s, hash)
    ensures ArchiveChange(s, Archived(s, hash, path, opt, keepSparse, io).0, hash, path, NewPath(path, io))
  {
    ArchivedDisk(s, hash, path, opt, keepSparse, io);
    ArchivedObjects(s, hash, path, opt, keepSparse, io);
    ArchivedRows(s, hash, path, opt, keepSparse, io);
  }

  lemma ChangeKeepsContent(s: Store, s': Store, hash: Bytes -> string, path: string, file: string, c: Bytes)
    requires Injective(hash) && ArchiveChange(s, s', hash, path, file) && Held(s, hash, c)
    requires path in s.disk && path !in s'.disk ==> InS3(s', hash, s.disk[path])
    ensures Held(s', hash, c)
  {
    if !InS3(s, hash, c) {
      var p :| p in s.disk && !Temporary(p) && s.disk[p] == c;
      assert p != TempName(path);
      if p in s'.disk {
        assert OnDisk(s', c);
      }
    }
  }

  lemma ChangeKeepsRow(s: Store, s': Store, hash: Bytes -> string, path: string, file: string, i: nat)
    requires Injective(hash) && Sound(s, hash) && ArchiveChange(s, s', hash, path, file) && i < |s'.rows|
    requires |s'.rows| > |s.rows| ==> RowSound(s, hash, Row(hash(s.disk[path]), file, "", 0, NO_TAGS))
    ensures RowSound(s', hash, s'.rows[i])
  {
    if i < |s.rows| {
      assert RowSound(s, hash, s.rows[i]);
    }
  }

  lemma ChangeKeepsSound(s: Store, s': Store, hash: Bytes -> string, path: string, file: string)
    requires Injective(hash) && Sound(s, hash) && ArchiveChange(s, s', hash, path, file)
    requires |s'.rows| > |s.rows| ==> RowSound(s, hash, Row(hash(s.disk[path]), file, "", 0, NO_TAGS))
    ensures Sound(s', hash)
  {
    forall i | 0 <= i < |s'.rows| ensures RowSound(s', hash, s'.rows[i]) {
      ChangeKeepsRow(s, s', hash, path, file, i);
    }
    forall u | u in s'.pending ensures UploadSound(s', hash, u) {
      if u.path in s'.disk {
        assert UploadSound(s, hash, u);
        var i :| 0 <= i < |s.rows| && OwnedBy(u, s.rows[i]);
        assert OwnedBy(u, s'.rows[i]);
      }
    }
    ChangeKeepsChecksums(s, s', hash, path, file);
  }

  lemma ChangeKeepsChecksums(s: Store, s': Store, hash: Bytes -> string, path: string, file: string)
    requires Sound(s, hash) && ArchiveChange(s, s', hash, path, file)
    ensures forall i, j :: 0 <= i < j < |s'.rows| ==> s'.rows[i].checksum != s'.rows[j].checksum
  {
    forall i | 0 <= i < |s.rows| && |s'.rows| > |s.rows| ensures s'.rows[i].checksum != s'.rows[|s.rows|].checksum {
      assert RowArchived(s.rows[i], s'.rows[i]);
      assert !Matches(ByChecksum(hash(s.disk[path])), s.rows[i]);
    }
  }

  lemma ArchivedKeepsContent(s: Store, hash: Bytes -> string, path: string, opt: Tags, keepSparse: bool, io: ArchiveIO, c: Bytes)
    requires Injective(hash) && Sound(s, hash) && Held(s, hash, c)
    requires s.enabled || keepSparse
    ensures Held(Archived(s, hash, path, opt, keepSparse, io).0, hash, c)
  {
    ArchivedChanges(s, hash, path, opt, keepSparse, io);
    ArchivedDisk(s, hash, path, opt, keepSparse, io);
    ArchivedObjects(s, hash, path, opt, keepSparse, io);
    ChangeKeepsContent(s, Archived(s, hash, path, opt, keepSparse, io).0, hash, path, NewPath(path, io), c);
  }

  lemma ArchivedKeepsSound(s: Store, hash: Bytes -> string, path: string, opt: Tags, keepSparse: bool, io: ArchiveIO)
    requires Injective(hash) && Sound(s, hash) && !Temporary(path) && FairRace(s, hash, path, io)
    ensures Sound(Archived(s, hash, path, opt, keepSparse, io).0, hash)
  {
    ArchivedChanges(s, hash, path, opt, keepSparse, io);
    ChangeKeepsSound(s, Archived(s, hash, path, opt, keepSparse, io).0, hash, path, NewPath(path, io));
  }

  // ----- runs

  datatype Step =
    | Register(path: string, opt: Tags, rio: RegisterIO)
    | Archive(path: string, opt: Tags, keepSparse: bool, aio: ArchiveIO)
    | UploadLands(u: Upload, ok: bool, persist: bool)
    | Download(path: string, content: Bytes)
    | LoseFile(path: string)
    | LoseObject(key: string)

  /** What was held stays held. */
  ghost predicate StaysHeld(s: Store, s': Store, hash: Bytes -> string, c: Bytes) {
    Held(s, hash, c) ==> Held(s', hash, c)
  }

  /** What the file holds is also in the object store, or in another file. */
  ghost predicate HasBackup(s: Store, hash: Bytes -> string, path: string)
    requires path in s.disk
  {
    || InS3(s, hash, s.disk[path])
    || exists p :: p in s.disk && p != path && !Temporary(p) && s.disk[p] == s.disk[path]
  }

  /** A download may write any path, and so may the step that turns an archived torrent file into a sparse stub,
      which is a download of zeros. Where a record names the path, its content must come back or be in the object
      store; where an upload is queued for the path, its content must come back. A file may be overwritten or
      vanish when it has a backup. An object may vanish when its content is on disk and no stub stands for it. */
  ghost predicate Enabled(s: Store, hash: Bytes -> string, step: Step) {
    match step
    case Register(path, _, _) => !Temporary(path)
    case Archive(path, _, keepSparse, io) => !Temporary(path) && (s.enabled || keepSparse) && FairRace(s, hash, path, io)
    case UploadLands(u, _, _) => u in s.pending
    case Download(path, c) =>
      && (forall i :: 0 <= i < |s.rows| && s.rows[i].filePath == path ==>
            s.rows[i].checksum == hash(c) || s.rows[i].checksum in s.objects)
      && (forall u :: u in s.pending && u.path == path ==> u.checksum == hash(c) && Owned(s, u))
      && (path in s.disk ==> Temporary(path) || s.disk[path] == c || HasBackup(s, hash, path))
    case LoseFile(path) => path in s.disk && (Temporary(path) || HasBackup(s, hash, path))
    case LoseObject(key) =>
      && key in s.objects && OnDisk(s, s.objects[key])
      && (forall i :: 0 <= i < |s.rows| && s.rows[i].checksum == key && s.rows[i].filePath in s.disk ==>
            hash(s.disk[s.rows[i].filePath]) == key)
  }

  /** The queued upload reads the file as it is now; then the record's key is set. */
  function Landed(s: Store, u: Upload, ok: bool, persist: bool): Store {
    if u.path !in s.disk || !s.enabled || UploadFails(s, u.checksum, ok) then s
    else
      var s1 := s.(objects := s.objects[u.checksum := s.disk[u.path]]);
      match First(s.rows, ByChecksum(u.checksum))
      case None => s1
      case Some(i) => if persist then s1.(rows := s.rows[i := s.rows[i].(s3Key := u.checksum)]) else s1
  }

  function Apply(s: Store, hash: Bytes -> string, step: Step): Store {
    match step
    case Register(path, opt, io) => Registered(s, hash, path, opt, io).0
    case Archive(path, opt, keepSparse, io) => Archived(s, hash, path, opt, keepSparse, io).0
    case UploadLands(u, ok, persist) => Landed(s, u, ok, persist)
    case Download(path, c) => s.(disk := s.disk[path := c])
    case LoseFile(path) => s.(disk := s.disk - {path})
    case LoseObject(key) => s.(objects := s.objects - {key})
  }

  lemma LandedIsSound(s: Store, hash: Bytes -> string, u: Upload, ok: bool, persist: bool)
    requires Injective(hash) && Sound(s, hash) && u in s.pending
    ensures Sound(Landed(s, u, ok, persist), hash)
    ensures forall c :: Held(s, hash, c) ==> Held(Landed(s, u, ok, persist), hash, c)
  {
    var s' := Landed(s, u, ok, persist);
    assert UploadSound(s, hash, u);
    if u.path in s.disk && ok && s.enabled {
      var i :| 0 <= i < |s.rows| && OwnedBy(u, s.rows[i]);
      assert RowSound(s, hash, s.rows[i]);
      assert hash(s.disk[u.path]) == u.checksum;
      forall j | 0 <= j < |s'.rows| ensures RowSound(s', hash, s'.rows[j]) {
        assert RowSound(s, hash, s.rows[j]);
      }
      forall v | v in s'.pending ensures UploadSound(s', hash, v) {
        assert UploadSound(s, hash, v);
        if v.path in s'.disk {
          var j :| 0 <= j < |s.rows| && OwnedBy(v, s.rows[j]);
          assert OwnedBy(v, s'.rows[j]);
        }
      }
    }
  }

  lemma EnvironmentKeepsHeld(s: Store, hash: Bytes -> string, step: Step, c: Bytes)
    requires Injective(hash) && Sound(s, hash) && Enabled(s, hash, step) && Held(s, hash, c)
    requires step.Download? || step.LoseFile? || step.LoseObject?
    ensures Held(Apply(s, hash, step), hash, c)
  {
    var s' := Apply(s, hash, step);
    if InS3(s, hash, c) {
      if step.LoseObject? && step.key == hash(c) {
        assert OnDisk(s, c);
        assert s'.disk == s.disk;
      }
    } else {
      var p :| p in s.disk && !Temporary(p) && s.disk[p] == c;
      if !step.LoseObject? && step.path == p && !(p in s'.disk && s'.disk[p] == c) {
        assert HasBackup(s, hash, p);
        p :| p in s.disk && p != step.path && !Temporary(p) && s.disk[p] == c;
      }
      assert p in s'.disk && s'.disk[p] == c;
    }
  }

  lemma EnvironmentIsSound(s: Store, hash: Bytes -> string, step: Step)
    requires Injective(hash) && Sound(s, hash) && Enabled(s, hash, step)
    requires step.Download? || step.LoseFile? || step.LoseObject?
    ensures Sound(Apply(s, hash, step), hash)
    ensures forall c :: Held(s, hash, c) ==> Held(Apply(s, hash, step), hash, c)
  {
    var s' := Apply(s, hash, step);
    forall i | 0 <= i < |s'.rows| ensures RowSound(s', hash, s'.rows[i]) {
      assert RowSound(s, hash, s.rows[i]);
    }
    forall u | u in s'.pending ensures UploadSound(s', hash, u) {
      assert UploadSound(s, hash, u);
      assert Owned(s, u) ==> Owned(s', u);
    }
    forall c | Held(s, hash, c) ensures Held(s', hash, c) {
      EnvironmentKeepsHeld(s, hash, step, c);
    }
  }

  /** What is still held after the file at the path changed or went has a backup. */
  lemma SurvivorHasBackup(s: Store, s': Store, hash: Bytes -> string, path: string)
    requires path in s.disk && !Temporary(path) && StaysHeld(s, s', hash, s.disk[path]) && s'.objects == s.objects
    requires path in s'.disk ==> s'.disk[path] != s.disk[path]
    requires forall p :: p in s'.disk && p != path ==> p in s.disk && s'.disk[p] == s.disk[p]
    ensures HasBackup(s, hash, path)
  {
    assert OnDisk(s, s.disk[path]);
    if !InS3(s, hash, s.disk[path]) {
      var p :| p in s'.disk && !Temporary(p) && s'.disk[p] == s.disk[path];
      assert p != path && p in s.disk;
    }
  }

  lemma SafeDownloadIsEnabled(s: Store, hash: Bytes -> string, path: string, c: Bytes)
    requires Sound(Apply(s, hash, Download(path, c)), hash)
    requires forall d :: StaysHeld(s, Apply(s, hash, Download(path, c)), hash, d)
    ensures Enabled(s, hash, Download(path, c))
  {
    var s' := Apply(s, hash, Download(path, c));
    forall i | 0 <= i < |s.rows| && s.rows[i].filePath == path
      ensures s.rows[i].checksum == hash(c) || s.rows[i].checksum in s.objects
    {
      assert RowSound(s', hash, s'.rows[i]);
    }
    forall u | u in s.pending && u.path == path ensures u.checksum == hash(c) && Owned(s, u) {
      assert UploadSound(s', hash, u) && Owned(s', u);
    }
    if path in s.disk && !Temporary(path) && s.disk[path] != c {
      SurvivorHasBackup(s, s', hash, path);
    }
  }

  /** The guard of a download is no stricter than the store needs: a download keeps the store sound and what was
      held exactly when the guard holds. */
  lemma DownloadIsSafeIff(s: Store, hash: Bytes -> string, path: string, c: Bytes)
    requires Injective(hash) && Sound(s, hash)
    ensures var s' := Apply(s, hash, Download(path, c));
            Enabled(s, hash, Download(path, c)) <==> Sound(s', hash) && forall d :: StaysHeld(s, s', hash, d)
  {
    var s' := Apply(s, hash, Download(path, c));
    if Enabled(s, hash, Download(path, c)) {
      EnvironmentIsSound(s, hash, Download(path, c));
    }
    if Sound(s', hash) && forall d :: StaysHeld(s, s', hash, d) {
      SafeDownloadIsEnabled(s, hash, path, c);
    }
  }

  lemma SafeLossIsEnabled(s: Store, hash: Bytes -> string, step: Step)
    requires Injective(hash) && Sound(s, hash) && Sound(Apply(s, hash, step), hash)
    requires forall d :: StaysHeld(s, Apply(s, hash, step), hash, d)
    requires (step.LoseFile? && step.path in s.disk) || (step.LoseObject? && step.key in s.objects)
    ensures Enabled(s, hash, step)
  {
    var s' := Apply(s, hash, step);
    if step.LoseFile? {
      if !Temporary(step.path) {
        SurvivorHasBackup(s, s', hash, step.path);
      }
    } else {
      var c := s.objects[step.key];
      assert InS3(s, hash, c) && StaysHeld(s, s', hash, c);
      assert OnDisk(s', c) && s'.disk == s.disk;
      forall i | 0 <= i < |s.rows| && s.rows[i].checksum == step.key && s.rows[i].filePath in s.disk
        ensures hash(s.disk[s.rows[i].filePath]) == step.key
      {
        assert RowSound(s', hash, s'.rows[i]);
      }
    }
  }

  /** The same for the loss of a file or an object. */
  lemma LossIsSafeIff(s: Store, hash: Bytes -> string, step: Step)
    requires Injective(hash) && Sound(s, hash)
    requires (step.LoseFile? && step.path in s.disk) || (step.LoseObject? && step.key in s.objects)
    ensures var s' := Apply(s, hash, step);
            Enabled(s, hash, step) <==> Sound(s', hash) && forall d :: StaysHeld(s, s', hash, d)
  {
    var s' := Apply(s, hash, step);
    if Enabled(s, hash, step) {
      EnvironmentIsSound(s, hash, step);
    }
    if Sound(s', hash) && forall d :: StaysHeld(s, s', hash, d) {
      SafeLossIsEnabled(s, hash, step);
    }
  }

  lemma StepKeepsSound(s: Store, hash: Bytes -> string, step: Step)
    requires Injective(hash) && Sound(s, hash) && Enabled(s, hash, step)
    ensures Sound(Apply(s, hash, step), hash)
    ensures forall c :: Held(s, hash, c) ==> Held(Apply(s, hash, step), hash, c)
  {
    match step
    case Register(path, opt, io) =>
      RegisteredKeepsSound(s, hash, path, opt, io);
      forall c | Held(s, hash, c) ensures Held(Apply(s, hash, step), hash, c) {
        RegisteredKeepsContent(s, hash, path, opt, io, c);
      }
    case Archive(path, opt, keepSparse, io) =>
      ArchivedKeepsSound(s, hash, path, opt, keepSparse, io);
      forall c | Held(s, hash, c) ensures Held(Apply(s, hash, step), hash, c) {
        ArchivedKeepsContent(s, hash, path, opt, keepSparse, io, c);
      }
    case UploadLands(u, ok, persist) => LandedIsSound(s, hash, u, ok, persist);
    case _ => EnvironmentIsSound(s, hash, step);
  }

  /** A record created by a step is for a content that was on disk. */
  lemma NewRowsAreHeld(s: Store, hash: Bytes -> string, step: Step, i: nat) returns (c: Bytes)
    requires Injective(hash) && Sound(s, hash) && Enabled(s, hash, step)
    requires |s.rows| <= i < |Apply(s, hash, step).rows|
    ensures Held(s, hash, c) && hash(c) == Apply(s, hash, step).rows[i].checksum
  {
    match step
    case Register(path, opt, io) =>
      RegisteredRows(s, hash, path, opt, io);
      c := s.disk[path];
      assert OnDisk(s, c);
    case Archive(path, opt, keepSparse, io) =>
      ArchivedRows(s, hash, path, opt, keepSparse, io);
      c := s.disk[path];
      assert OnDisk(s, c);
    case _ =>
      c := [];
  }

  lemma OldRowsStay(s: Store, hash: Bytes -> string, step: Step, i: nat)
    requires i < |s.rows|
    ensures i < |Apply(s, hash, step).rows| && Apply(s, hash, step).rows[i].checksum == s.rows[i].checksum
  {
    match step
    case Register(path, opt, io) => RegisteredRows(s, hash, path, opt, io);
    case Archive(path, opt, keepSparse, io) => ArchivedRows(s, hash, path, opt, keepSparse, io);
    case _ =>
  }

  lemma StepKeepsAllHeld(s: Store, hash: Bytes -> string, step: Step)
    requires Injective(hash) && Sound(s, hash) && AllHeld(s, hash) && Enabled(s, hash, step)
    ensures AllHeld(Apply(s, hash, step), hash)
  {
    var s' := Apply(s, hash, step);
    StepKeepsSound(s, hash, step);
    forall i | 0 <= i < |s'.rows| ensures RowHeld(s', hash, s'.rows[i]) {
      if i < |s.rows| {
        OldRowsStay(s, hash, step, i);
        assert RowHeld(s, hash, s.rows[i]);
        var c :| hash(c) == s.rows[i].checksum && Held(s, hash, c);
        assert Held(s', hash, c);
      } else {
        var c := NewRowsAreHeld(s, hash, step, i);
        assert Held(s', hash, c);
      }
    }
  }

  ghost predicate IsRun(s: Store, hash: Bytes -> string, steps: seq<Step>)
    decreases |steps|
  {
    steps == [] || (Enabled(s, hash, steps[0]) && IsRun(Apply(s, hash, steps[0]), hash, steps[1..]))
  }

  function Final(s: Store, hash: Bytes -> string, steps: seq<Step>): Store
    decreases |steps|
  {
    if steps == [] then s else Final(Apply(s, hash, steps[0]), hash, steps[1..])
  }

  /** Over any run of calls, with arbitrary failures, every registered content stays on disk or in S3,
      and so does every content that was ever held. */
  lemma {:induction false} NoContentIsLost(s: Store, hash: Bytes -> string, steps: seq<Step>)
    requires Injective(hash) && Sound(s, hash) && AllHeld(s, hash) && IsRun(s, hash, steps)
    ensures Sound(Final(s, hash, steps), hash) && AllHeld(Final(s, hash, steps), hash)
    ensures forall c :: Held(s, hash, c) ==> Held(Final(s, hash, steps), hash, c)
    decreases |steps|
  {
    if steps != [] {
      StepKeepsSound(s, hash, steps[0]);
      StepKeepsAllHeld(s, hash, steps[0]);
      NoContentIsLost(Apply(s, hash, steps[0]), hash, steps[1..]);
    }
  }

  // ----- archived files that become stubs

  /** After a successful archiving that kept the file, anything may take its place, a stub of zeros for one,
      unless an upload of the path is still queued. */
  lemma StubAfterArchive(s: Store, hash: Bytes -> string, path: string, opt: Tags, io: ArchiveIO, stub: Bytes)
    requires Injective(hash) && Sound(s, hash) && !Temporary(path) && FairRace(s, hash, path, io)
    requires s.enabled && path in s.disk && Archives(s, hash, path, opt, true, io)
    requires forall u :: u in s.pending ==> u.path != path
    ensures Enabled(Archived(s, hash, path, opt, true, io).0, hash, Download(path, stub))
  {
    var s' := Archived(s, hash, path, opt, true, io).0;
    ArchivedDisk(s, hash, path, opt, true, io);
    ArchivedObjects(s, hash, path, opt, true, io);
    ArchivedKeepsSound(s, hash, path, opt, true, io);
    assert path in s'.disk && s'.disk[path] == s.disk[path];
    forall i | 0 <= i < |s'.rows| && s'.rows[i].filePath == path ensures s'.rows[i].checksum in s'.objects {
      assert RowSound(s', hash, s'.rows[i]);
    }
  }

  /** Archive a torrent file, make it a stub, then register another copy, which is replaced by a link to the stub:
      everything that was held is held, the archived content in the object store. */
  lemma ArchiveStubRegister(s: Store, hash: Bytes -> string, path: string, opt: Tags, io: ArchiveIO, stub: Bytes,
                            q: string, opt2: Tags, rio: RegisterIO)
    requires Injective(hash) && Sound(s, hash) && !Temporary(path) && FairRace(s, hash, path, io) && !Temporary(q)
    requires s.enabled && path in s.disk && Archives(s, hash, path, opt, true, io)
    requires forall u :: u in s.pending ==> u.path != path
    ensures var s1 := Apply(s, hash, Archive(path, opt, true, io));
            var s2 := Apply(s1, hash, Download(path, stub));
            var s3 := Apply(s2, hash, Register(q, opt2, rio));
            Sound(s3, hash) && Held(s3, hash, s.disk[path]) && forall c :: Held(s, hash, c) ==> Held(s3, hash, c)
  {
    var s1 := Apply(s, hash, Archive(path, opt, true, io));
    var s2 := Apply(s1, hash, Download(path, stub));
    StubAfterArchive(s, hash, path, opt, io, stub);
    StepKeepsSound(s, hash, Archive(path, opt, true, io));
    StepKeepsSound(s1, hash, Download(path, stub));
    StepKeepsSound(s2, hash, Register(q, opt2, rio));
    assert OnDisk(s, s.disk[path]);
  }

  // ----- exactly when a call loses or changes content, without assuming a sound store

  /** No other file and no object holds what this file holds. */
  ghost predicate OnlyCopy(s: Store, hash: Bytes -> string, path: string)
    requires path in s.disk
  {
    !InS3(s, hash, s.disk[path]) && forall p :: p in s.disk && p != path ==> s.disk[p] != s.disk[path]
  }

  /** Registering the only copy of a content loses it exactly when the deduplicating branch is taken: the
      record's own file, which then holds something else, replaces it, or nothing does when the link fails. */
  lemma RegisterLosesIff(s: Store, hash: Bytes -> string, path: string, opt: Tags, io: RegisterIO)
    requires path in s.disk && !Temporary(path) && OnlyCopy(s, hash, path)
    ensures !Held(Registered(s, hash, path, opt, io).0, hash, s.disk[path]) <==>
            Deduplicates(s, hash, path, io.readable) && io.link != CopyFailed(Some(s.disk[path]))
  {
    var s', c := Registered(s, hash, path, opt, io).0, s.disk[path];
    RegisteredDisk(s, hash, path, opt, io);
    if path in s'.disk && s'.disk[path] == c {
      assert OnDisk(s', c);
    }
    if OnDisk(s', c) {
      var p :| p in s'.disk && !Temporary(p) && s'.disk[p] == c;
      assert p == path;
    }
  }

  const NO_TAGS := Tags("", "", 0, "")
  const PLAIN := RegisterIO(true, true, Linked, true)

  function Fresh(disk: map<string, Bytes>, enabled: bool): Store {
    Store(disk, map[], [], [], enabled)
  }

  /** The store after one registration from nothing, with the given disk. */
  function OneRow(disk: map<string, Bytes>, k: string, p: string, size: nat, enabled: bool): Store {
    Store(disk, map[], [Row(k, p, "", size, NO_TAGS)], if enabled && k != "" then [Upload(k, p)] else [], enabled)
  }

  lemma FirstRegistration(hash: Bytes -> string, p: string, a: Bytes, enabled: bool)
    ensures Apply(Fresh(map[p := a], enabled), hash, Register(p, NO_TAGS, PLAIN))
         == OneRow(map[p := a], hash(a), p, |a|, enabled)
  {
  }

  /** A second copy of a known content is replaced by a link to what the record's file holds now. */
  lemma SecondRegistration(hash: Bytes -> string, p: string, q: string, a: Bytes, b: Bytes, enabled: bool)
    requires p != q
    ensures Apply(OneRow(map[q := a, p := b], hash(a), p, |a|, enabled), hash, Register(q, NO_TAGS, PLAIN))
         == OneRow(map[p := b, q := b], hash(a), p, |a|, enabled)
  {
    var s := OneRow(map[q := a, p := b], hash(a), p, |a|, enabled);
    assert Matches(ByChecksum(hash(a)), s.rows[0]);
    assert First(s.rows, ByChecksum(hash(a))) == Some(0);
    assert s.disk - {q} - {q} == map[p := b];
    assert map[p := b][q := b] == map[p := b, q := b];
  }

  lemma Moving(hash: Bytes -> string, p: string, q: string, a: Bytes, enabled: bool)
    requires p != q && !Temporary(q)
    ensures var s := OneRow(map[p := a], hash(a), p, |a|, enabled);
            && Enabled(s, hash, Download(q, a))
            && Enabled(Apply(s, hash, Download(q, a)), hash, LoseFile(p))
            && Apply(Apply(s, hash, Download(q, a)), hash, LoseFile(p)) == OneRow(map[q := a], hash(a), p, |a|, enabled)
  {
    var s := OneRow(map[p := a], hash(a), p, |a|, enabled);
    var s3, s4 := Apply(s, hash, Download(q, a)), OneRow(map[q := a], hash(a), p, |a|, enabled);
    assert s3.disk - {p} == s4.disk;
    assert s4.disk[q] == a && OnDisk(s4, a);
  }

  /** The three last stores of the run below. */
  lemma RewritingMaster(hash: Bytes -> string, p: string, q: string, a: Bytes, b: Bytes, enabled: bool)
    requires Injective(hash) && p != q && !Temporary(q) && a != b
    ensures var s4, s5 := OneRow(map[q := a], hash(a), p, |a|, enabled), OneRow(map[q := a, p := b], hash(a), p, |a|, enabled);
            var s6 := OneRow(map[p := b, q := b], hash(a), p, |a|, enabled);
            && Apply(s4, hash, Download(p, b)) == s5 && !Enabled(s4, hash, Download(p, b))
            && AllHeld(s5, hash) && Held(s5, hash, a)
            && !Held(s6, hash, a) && !AllHeld(s6, hash)
  {
    var s4, s5 := OneRow(map[q := a], hash(a), p, |a|, enabled), OneRow(map[q := a, p := b], hash(a), p, |a|, enabled);
    var s6 := OneRow(map[p := b, q := b], hash(a), p, |a|, enabled);
    assert s4.rows[0].filePath == p && s4.rows[0].checksum != hash(b);
    assert s5.disk[q] == a && RowHeld(s5, hash, s5.rows[0]);
    assert !RowHeld(s6, hash, s6.rows[0]);
  }

  /** A losing store can be reached from the empty one: a download rewrites the file of a record with another
      content while a second copy is on disk, and registering that copy replaces it. Only that download is
      outside the guard. */
  lemma RewrittenMasterLosesContent(hash: Bytes -> string, p: string, q: string, a: Bytes, b: Bytes, enabled: bool)
    requires Injective(hash) && p != q && !Temporary(p) && !Temporary(q) && a != b
    ensures var s0 := Fresh(map[], enabled);
            var s1 := Apply(s0, hash, Download(p, a));
            var s2 := Apply(s1, hash, Register(p, NO_TAGS, PLAIN));
            var s3 := Apply(s2, hash, Download(q, a));
            var s4 := Apply(s3, hash, LoseFile(p));
            var s5 := Apply(s4, hash, Download(p, b));
            var s6 := Apply(s5, hash, Register(q, NO_TAGS, PLAIN));
            && Enabled(s0, hash, Download(p, a)) && Enabled(s1, hash, Register(p, NO_TAGS, PLAIN))
            && Enabled(s2, hash, Download(q, a)) && Enabled(s3, hash, LoseFile(p))
            && !Enabled(s4, hash, Download(p, b)) && Enabled(s5, hash, Register(q, NO_TAGS, PLAIN))
            && AllHeld(s5, hash) && Held(s5, hash, a)
            && !Held(s6, hash, a) && !AllHeld(s6, hash)
  {
    FirstRegistration(hash, p, a, enabled);
    Moving(hash, p, q, a, enabled);
    SecondRegistration(hash, p, q, a, b, enabled);
    RewritingMaster(hash, p, q, a, b, enabled);
  }

  const SMOOTH := ArchiveIO(true, Created, true, true, true, true, true)

  /** The store with one archived file. */
  function OneArchived(disk: map<string, Bytes>, k: string, p: string, a: Bytes, pending: seq<Upload>): Store {
    Store(disk, map[k := a], [Row(k, p, k, |a|, NO_TAGS)], pending, true)
  }

  lemma FirstArchiving(hash: Bytes -> string, p: string, a: Bytes)
    requires hash(a) != ""
    ensures Apply(Fresh(map[p := a], true), hash, Archive(p, NO_TAGS, true, SMOOTH))
         == OneArchived(map[p := a], hash(a), p, a, [])
  {
    TempIsElsewhere(p, a);
  }

  lemma ArchivingRegistered(hash: Bytes -> string, p: string, a: Bytes)
    requires hash(a) != ""
    ensures Apply(OneRow(map[p := a], hash(a), p, |a|, true), hash, Archive(p, NO_TAGS, true, SMOOTH))
         == OneArchived(map[p := a], hash(a), p, a, [Upload(hash(a), p)])
  {
    var s := OneRow(map[p := a], hash(a), p, |a|, true);
    assert Matches(ByChecksum(hash(a)), s.rows[0]);
    assert First(s.rows, ByChecksum(hash(a))) == Some(0);
    TempIsElsewhere(p, a);
  }

  lemma TempIsElsewhere(p: string, a: Bytes)
    ensures map[p := a] - {TempName(p)} == map[p := a]
  {
    assert |p| < |TempName(p)|;
  }

  /** The archived file has become a stub, a second copy is on disk, and the object is gone. */
  function Stranded(p: string, q: string, k: string, a: Bytes, stub: Bytes): Store {
    OneArchived(map[p := stub, q := a], k, p, a, []).(objects := map[])
  }

  lemma StubIsLinked(hash: Bytes -> string, p: string, q: string, a: Bytes, stub: Bytes)
    requires p != q
    ensures Apply(Stranded(p, q, hash(a), a, stub), hash, Register(q, NO_TAGS, PLAIN))
         == Stranded(p, q, hash(a), a, stub).(disk := map[p := stub, q := stub])
  {
    var s := Stranded(p, q, hash(a), a, stub);
    assert Matches(ByChecksum(hash(a)), s.rows[0]) && First(s.rows, ByChecksum(hash(a))) == Some(0);
    assert s.disk - {q} - {q} == map[p := stub];
    assert map[p := stub][q := stub] == map[p := stub, q := stub];
  }

  lemma ObjectOfStub(hash: Bytes -> string, p: string, q: string, a: Bytes, stub: Bytes)
    requires Injective(hash) && p != q && !Temporary(q) && a != stub
    ensures var s3 := OneArchived(map[p := stub, q := a], hash(a), p, a, []);
            && !Enabled(s3, hash, LoseObject(hash(a)))
            && Apply(s3, hash, LoseObject(hash(a))) == Stranded(p, q, hash(a), a, stub)
            && Held(Stranded(p, q, hash(a), a, stub), hash, a)
  {
    var s3 := OneArchived(map[p := stub, q := a], hash(a), p, a, []);
    assert s3.rows[0].filePath == p && s3.rows[0].checksum == hash(a) && hash(s3.disk[p]) != hash(a);
    assert Stranded(p, q, hash(a), a, stub).disk[q] == a;
    assert OnDisk(Stranded(p, q, hash(a), a, stub), a);
  }

  /** Losing the object of a stubbed file is outside the guard, and rightly: registering a second copy, which was
      still on disk, then replaces it by a link to the stub. */
  lemma StubWithoutObjectLosesContent(hash: Bytes -> string, p: string, q: string, a: Bytes, stub: Bytes)
    requires Injective(hash) && p != q && !Temporary(p) && !Temporary(q) && a != stub && hash(a) != ""
    ensures var s1 := Apply(Fresh(map[p := a], true), hash, Archive(p, NO_TAGS, true, SMOOTH));
            var s2 := Apply(s1, hash, Download(p, stub));
            var s3 := Apply(s2, hash, Download(q, a));
            var s4 := Apply(s3, hash, LoseObject(hash(a)));
            var s5 := Apply(s4, hash, Register(q, NO_TAGS, PLAIN));
            && Enabled(s1, hash, Download(p, stub)) && Enabled(s2, hash, Download(q, a))
            && !Enabled(s3, hash, LoseObject(hash(a))) && Enabled(s4, hash, Register(q, NO_TAGS, PLAIN))
            && Held(s4, hash, a) && !Held(s5, hash, a)
  {
    FirstArchiving(hash, p, a);
    var s1 := OneArchived(map[p := a], hash(a), p, a, []);
    assert Apply(Apply(s1, hash, Download(p, stub)), hash, Download(q, a))
        == OneArchived(map[p := stub, q := a], hash(a), p, a, []);
    ObjectOfStub(hash, p, q, a, stub);
    StubIsLinked(hash, p, q, a, stub);
  }

  lemma UploadOfStub(k: string, p: string, a: Bytes, stub: Bytes)
    requires k != ""
    ensures Landed(OneArchived(map[p := stub], k, p, a, [Upload(k, p)]), Upload(k, p), true, true)
         == OneArchived(map[p := stub], k, p, a, [Upload(k, p)]).(objects := map[k := stub])
  {
    var s := OneArchived(map[p := stub], k, p, a, [Upload(k, p)]);
    assert Matches(ByChecksum(k), s.rows[0]) && First(s.rows, ByChecksum(k)) == Some(0);
    assert s.objects[k := stub] == map[k := stub];
  }

  lemma StubUnderUpload(hash: Bytes -> string, p: string, a: Bytes, stub: Bytes)
    requires Injective(hash) && a != stub
    ensures var s2 := OneArchived(map[p := a], hash(a), p, a, [Upload(hash(a), p)]);
            && !Enabled(s2, hash, Download(p, stub))
            && Apply(s2, hash, Download(p, stub)) == OneArchived(map[p := stub], hash(a), p, a, [Upload(hash(a), p)])
  {
    var s2 := OneArchived(map[p := a], hash(a), p, a, [Upload(hash(a), p)]);
    assert s2.pending[0] == Upload(hash(a), p) && Upload(hash(a), p) in s2.pending;
  }

  /** Making a stub while an upload of the path is queued is outside the guard, and rightly: the upload reads the
      stub, and overwrites the archived object with it. */
  lemma LateUploadOverwritesObject(hash: Bytes -> string, p: string, a: Bytes, stub: Bytes)
    requires Injective(hash) && !Temporary(p) && a != stub && hash(a) != ""
    ensures var s1 := Apply(Fresh(map[p := a], true), hash, Register(p, NO_TAGS, PLAIN));
            var s2 := Apply(s1, hash, Archive(p, NO_TAGS, true, SMOOTH));
            var s3 := Apply(s2, hash, Download(p, stub));
            var s4 := Apply(s3, hash, UploadLands(Upload(hash(a), p), true, true));
            && Enabled(s1, hash, Archive(p, NO_TAGS, true, SMOOTH)) && !Enabled(s2, hash, Download(p, stub))
            && Enabled(s3, hash, UploadLands(Upload(hash(a), p), true, true))
            && Held(s3, hash, a) && !Held(s4, hash, a)
  {
    FirstRegistration(hash, p, a, true);
    ArchivingRegistered(hash, p, a);
    StubUnderUpload(hash, p, a, stub);
    UploadOfStub(hash(a), p, a, stub);
    var s3 := OneArchived(map[p := stub], hash(a), p, a, [Upload(hash(a), p)]);
    assert s3.pending[0] == Upload(hash(a), p);
    assert InS3(s3, hash, a);
  }

  /** After a successful registration the path reads as before exactly when it was not replaced by a
      link to a master file with other bytes (a sparse stub, for one). */
  lemma RegisteredReadsBackIff(s: Store, hash: Bytes -> string, path: string, opt: Tags, io: RegisterIO)
    requires Registered(s, hash, path, opt, io).1.Done?
    ensures path in s.disk && path in Registered(s, hash, path, opt, io).0.disk
    ensures Registered(s, hash, path, opt, io).0.disk[path] == s.disk[path] <==>
            (Deduplicates(s, hash, path, io.readable) ==>
               s.disk[s.rows[First(s.rows, ByChecksum(hash(s.disk[path]))).value].filePath] == s.disk[path])
  {
  }

  /** The record, or the one of a faster worker, claims an object that the store reports present: nothing is
      uploaded. */
  predicate TrustsObject(s: Store, hash: Bytes -> string, path: string, io: ArchiveIO)
    requires path in s.disk
  {
    var k := hash(s.disk[path]);
    match First(s.rows, ByChecksum(k))
    case Some(i) => Exists(s, s.rows[i].s3Key, io.head)
    case None => io.create.Raced? && io.create.archived && Exists(s, k, io.head)
  }

  /** What a successful archiving leaves of the file and its object. */
  lemma ArchivedExactly(s: Store, hash: Bytes -> string, path: string, opt: Tags, keepSparse: bool, io: ArchiveIO)
    requires path in s.disk && Archives(s, hash, path, opt, keepSparse, io)
    ensures var s' := Archived(s, hash, path, opt, keepSparse, io).0;
            && (path !in s'.disk <==> !keepSparse && io.remove)
            && s'.objects == if s.enabled && !TrustsObject(s, hash, path, io)
                             then s.objects[hash(s.disk[path]) := s.disk[path]] else s.objects
  {
    assert |path| < |TempName(path)|;
  }

  /** Archiving the only copy of a content loses it exactly when the file is removed although the
      store is disabled or the record's object, which holds something else, was trusted. */
  lemma ArchiveLosesIff(s: Store, hash: Bytes -> string, path: string, opt: Tags, keepSparse: bool, io: ArchiveIO)
    requires path in s.disk && !Temporary(path) && OnlyCopy(s, hash, path)
    ensures !Held(Archived(s, hash, path, opt, keepSparse, io).0, hash, s.disk[path]) <==>
            && Archives(s, hash, path, opt, keepSparse, io) && !keepSparse && io.remove
            && (!s.enabled || TrustsObject(s, hash, path, io))
  {
    var s', c := Archived(s, hash, path, opt, keepSparse, io).0, s.disk[path];
    ArchivedDisk(s, hash, path, opt, keepSparse, io);
    if Archives(s, hash, path, opt, keepSparse, io) {
      ArchivedExactly(s, hash, path, opt, keepSparse, io);
    }
    if path in s'.disk {
      assert OnDisk(s', c);
    }
  }

  /** Linking a file onto itself deletes it; any other `SafeLink` leaves the source alone. */
  lemma SafeLinkKeepsSourceIff(disk: map<string, Bytes>, src: string, dst: string, o: LinkOutcome)
    requires src in disk
    ensures (src in SafeLinked(disk, src, dst, o).0 && SafeLinked(disk, src, dst, o).0[src] == disk[src]) <==>
            src != dst || o == NoDirectory
  {
  }
}
