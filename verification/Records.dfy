/** What the registry's records say after a call: tags are only ever filled in, a new record carries what the
    caller gave, and the record handed back is the one that was written. */
module Records {
  import opened FileStore
  import opened StoreSafety
  import opened Wrappers

  /** No tag that is set changes. */
  ghost predicate TagsKept(t: Tags, t': Tags) {
    && (t.url != "" ==> t'.url == t.url)
    && (t.etag != "" ==> t'.etag == t.etag)
    && (t.tgFileID != 0 ==> t'.tgFileID == t.tgFileID)
    && (t.torrentHash != "" ==> t'.torrentHash == t.torrentHash)
  }

  /** Every tag that is not set becomes the caller's. */
  ghost predicate TagsFilled(t: Tags, t': Tags, opt: Tags) {
    && (t.url == "" ==> t'.url == opt.url)
    && (t.etag == "" ==> t'.etag == opt.etag)
    && (t.tgFileID == 0 ==> t'.tgFileID == opt.tgFileID)
    && (t.torrentHash == "" ==> t'.torrentHash == opt.torrentHash)
  }

  /** The caller gives a tag that is not set. */
  ghost predicate GivesTag(t: Tags, opt: Tags) {
    || (t.url == "" && opt.url != "")
    || (t.etag == "" && opt.etag != "")
    || (t.tgFileID == 0 && opt.tgFileID != 0)
    || (t.torrentHash == "" && opt.torrentHash != "")
  }

  /** The rows are those of before, with one more at the end. */
  ghost predicate Appended(rows: seq<Row>, rows': seq<Row>, row: Row) {
    rows' == rows + [row]
  }

  /** Only the row at `i` may differ. */
  ghost predicate OnlyRow(rows: seq<Row>, rows': seq<Row>, i: nat) {
    |rows'| == |rows| && forall j :: 0 <= j < |rows| && j != i ==> rows'[j] == rows[j]
  }

  lemma TaggedIsFilled(t: Tags, opt: Tags)
    ensures TagsKept(t, Tagged(t, opt)) && TagsFilled(t, Tagged(t, opt), opt)
    ensures Tagged(t, opt) != t <==> GivesTag(t, opt)
  {
  }

  /** What writing the tags back does to the rows. */
  lemma SavedRow(rows: seq<Row>, i: nat, reg: Row, opt: Tags, save: bool)
    requires i < |rows|
    ensures OnlyRow(rows, Saved(rows, i, reg, opt, save), i)
    ensures Saved(rows, i, reg, opt, save)[i]
         == if save && GivesTag(reg.tags, opt) then reg.(tags := Tagged(reg.tags, opt)) else rows[i]
  {
    TaggedIsFilled(reg.tags, opt);
  }

  lemma FoundFirst(rows: seq<Row>, k: string, i: nat)
    requires i < |rows| && rows[i].checksum == k && forall j :: 0 <= j < i ==> rows[j].checksum != k
    ensures First(rows, ByChecksum(k)) == Some(i)
  {
    assert Matches(ByChecksum(k), rows[i]);
  }

  // ----- registering

  /** Registering new content adds one record, with the caller's tags, the path and the length of the file and no
      key; the record is handed back, and an upload is queued when the store is enabled. */
  lemma RegisteredNewRecord(s: Store, hash: Bytes -> string, path: string, opt: Tags, io: RegisterIO)
    requires path in s.disk && io.readable && forall i :: 0 <= i < |s.rows| ==> s.rows[i].checksum != hash(s.disk[path])
    ensures var (s', r), k := Registered(s, hash, path, opt, io), hash(s.disk[path]);
            && (io.create <==> r.Done?) && s'.disk == s.disk && s'.objects == s.objects
            && (r.Done? ==> r.row == Row(k, path, "", |s.disk[path]|, opt) && Appended(s.rows, s'.rows, r.row))
            && (r.Done? ==> s'.pending == s.pending + (if s.enabled && k != "" then [Upload(k, path)] else []))
            && (!r.Done? ==> s' == s)
  {
    assert First(s.rows, ByChecksum(hash(s.disk[path]))).None?;
  }

  /** The record handed back for known content. */
  ghost predicate RegisteredRecord(s: Store, path: string, size: nat, old': Row, r: Row, opt: Tags) {
    && r.checksum == old'.checksum && r.s3Key == old'.s3Key
    && TagsKept(old'.tags, r.tags) && TagsFilled(old'.tags, r.tags, opt)
    && (if old'.filePath != path && old'.filePath !in s.disk then r.filePath == path && r.size == size
        else r.filePath == old'.filePath && r.size == old'.size)
  }

  /** Registering known content hands back the content's first record with the empty tags filled in, moved to the
      call's path when its own file is gone. It is written, as a whole, exactly when the caller gave a tag that was
      missing and the save goes through; no other record changes. */
  lemma RegisteredKnownRecord(s: Store, hash: Bytes -> string, path: string, opt: Tags, io: RegisterIO, i: nat)
    requires path in s.disk && io.readable
    requires i < |s.rows| && s.rows[i].checksum == hash(s.disk[path])
    requires forall j :: 0 <= j < i ==> s.rows[j].checksum != hash(s.disk[path])
    ensures var (s', r) := Registered(s, hash, path, opt, io);
            && s'.pending == s.pending && s'.objects == s.objects
            && OnlyRow(s.rows, s'.rows, i)
            && (!r.Done? ==> s'.rows == s.rows)
            && (r.Done? ==> RegisteredRecord(s, path, |s.disk[path]|, s.rows[i], r.row, opt))
            && (r.Done? ==> s'.rows[i] == if io.save && GivesTag(s.rows[i].tags, opt) then r.row else s.rows[i])
  {
    FoundFirst(s.rows, hash(s.disk[path]), i);
    var reg := s.rows[i];
    TaggedIsFilled(reg.tags, opt);
    if reg.filePath != path && reg.filePath !in s.disk {
      SavedRow(s.rows, i, reg.(filePath := path, size := |s.disk[path]|), opt, io.save);
    } else {
      SavedRow(s.rows, i, reg, opt, io.save);
    }
  }

  /** It fails exactly when the file cannot be read, or the duplicate cannot be linked. */
  lemma RegisteredKnownFailsIff(s: Store, hash: Bytes -> string, path: string, opt: Tags, io: RegisterIO, i: nat)
    requires path in s.disk && io.readable
    requires i < |s.rows| && s.rows[i].checksum == hash(s.disk[path])
    requires forall j :: 0 <= j < i ==> s.rows[j].checksum != hash(s.disk[path])
    ensures !Registered(s, hash, path, opt, io).1.Done? <==>
            && s.rows[i].filePath != path && s.rows[i].filePath in s.disk
            && (io.link == NoDirectory || io.link.CopyFailed?)
  {
    FoundFirst(s.rows, hash(s.disk[path]), i);
  }

  // ----- archiving

  /** The record handed back after archiving content that has a record. */
  ghost predicate ArchivedRecord(old': Row, r: Row, k: string, trusted: bool, opt: Tags) {
    && r.checksum == old'.checksum && r.filePath == old'.filePath && r.size == old'.size
    && r.s3Key == (if trusted then old'.s3Key else k)
    && TagsKept(old'.tags, r.tags) && TagsFilled(old'.tags, r.tags, opt)
  }

  /** The record claims a key whose object the store reports present. */
  ghost predicate ObjectThere(s: Store, key: string, head: bool) {
    s.enabled && key != "" && key in s.objects && head
  }

  lemma KnownRecordWritten(s: Store, k: string, i: nat, path: string, opt: Tags, io: ArchiveIO)
    requires path in s.disk && i < |s.rows|
    ensures var (s', r), old', trusted := ArchivedKnown(s, k, i, path, opt, io), s.rows[i], ObjectThere(s, s.rows[i].s3Key, io.head);
            && OnlyRow(s.rows, s'.rows, i)
            && (r.Done? <==> trusted || !s.enabled || (k != "" && io.upload))
            && (!r.Done? ==> s' == s && r == FailedWith(old'))
            && (r.Done? ==> ArchivedRecord(old', r.row, k, trusted, opt))
            && (r.Done? ==> s'.rows[i] == if io.save && GivesTag(old'.tags, opt) then r.row
                                          else if !trusted && io.persist then old'.(s3Key := k) else old')
  {
    var reg := s.rows[i];
    var reg2 := reg.(s3Key := k);
    SavedRow(s.rows, i, reg, opt, io.save);
    SavedRow(s.rows, i, reg2, opt, io.save);
    SavedRow(s.rows[i := reg2], i, reg2, opt, io.save);
    TaggedIsFilled(reg.tags, opt);
  }

  /** Archiving known content hands back the content's first record with the empty tags filled in and, unless the
      store reports its object present, the checksum as its key. The whole record is written when a tag was filled
      in and the save goes through, else only its new key, when the update does; no other record changes. */
  lemma ArchivedKnownRecord(s: Store, hash: Bytes -> string, path: string, opt: Tags, keepSparse: bool, io: ArchiveIO, i: nat)
    requires path in s.disk && io.readable
    requires i < |s.rows| && s.rows[i].checksum == hash(s.disk[path])
    requires forall j :: 0 <= j < i ==> s.rows[j].checksum != hash(s.disk[path])
    ensures var (s', r), k := Archived(s, hash, path, opt, keepSparse, io), hash(s.disk[path]);
            var old', trusted := s.rows[i], ObjectThere(s, s.rows[i].s3Key, io.head);
            && OnlyRow(s.rows, s'.rows, i)
            && (r.Done? <==> trusted || !s.enabled || (k != "" && io.upload))
            && (!r.Done? ==> s' == s && r == FailedWith(old'))
            && (r.Done? ==> ArchivedRecord(old', r.row, k, trusted, opt))
            && (r.Done? ==> s'.rows[i] == if io.save && GivesTag(old'.tags, opt) then r.row
                                          else if !trusted && io.persist then old'.(s3Key := k) else old')
  {
    FoundFirst(s.rows, hash(s.disk[path]), i);
    KnownRecordWritten(s, hash(s.disk[path]), i, path, opt, io);
  }

  /** Archiving new content adds one record with the caller's tags, the path and the length of the file. Its key is
      the checksum, in the record handed back always and in the stored one when the update goes through; after a
      failed upload it has none. */
  lemma ArchivedNewRecord(s: Store, hash: Bytes -> string, path: string, opt: Tags, keepSparse: bool, io: ArchiveIO)
    requires path in s.disk && io.readable && io.create.Created?
    requires forall i :: 0 <= i < |s.rows| ==> s.rows[i].checksum != hash(s.disk[path])
    ensures var (s', r), k := Archived(s, hash, path, opt, keepSparse, io), hash(s.disk[path]);
            var bare := Row(k, path, "", |s.disk[path]|, opt);
            && (r.Done? <==> !s.enabled || (k != "" && io.upload))
            && (r.Done? ==> r.row == bare.(s3Key := k) && Appended(s.rows, s'.rows, if io.persist then r.row else bare))
            && (!r.Done? ==> r == FailedWith(bare) && Appended(s.rows, s'.rows, bare))
  {
    assert First(s.rows, ByChecksum(hash(s.disk[path]))).None?;
  }

  /** A record that lost the race: the faster worker's record is at the end, and this call fills in its empty tags
      and stores its key as for any known content. */
  lemma ArchivedRacedRecord(s: Store, hash: Bytes -> string, path: string, opt: Tags, keepSparse: bool, io: ArchiveIO)
    requires path in s.disk && io.readable && io.create.Raced?
    requires forall i :: 0 <= i < |s.rows| ==> s.rows[i].checksum != hash(s.disk[path])
    ensures var (s', r), k := Archived(s, hash, path, opt, keepSparse, io), hash(s.disk[path]);
            var rival := Row(k, io.create.filePath, if io.create.archived then k else "", io.create.size, io.create.tags);
            var trusted := ObjectThere(s, rival.s3Key, io.head);
            && OnlyRow(s.rows + [rival], s'.rows, |s.rows|)
            && (!r.Done? ==> r == FailedWith(rival) && s'.rows == s.rows + [rival])
            && (r.Done? ==> ArchivedRecord(rival, r.row, k, trusted, opt))
            && (r.Done? ==> s'.rows[|s.rows|] == if io.save && GivesTag(rival.tags, opt) then r.row
                                                 else if !trusted && io.persist then rival.(s3Key := k) else rival)
  {
    assert First(s.rows, ByChecksum(hash(s.disk[path]))).None?;
    var k := hash(s.disk[path]);
    KnownRecordWritten(s.(rows := s.rows + [RivalRow(k, io.create)]), k, |s.rows|, path, opt, io);
  }

  // ----- the other outcomes

  /** `SafeLink`: without the directory nothing happens. Else what was at the destination is gone; on success it holds
      what the source held, and a copy that breaks leaves its part. Nothing else on disk changes. */
  lemma LinkMeaning(disk: map<string, Bytes>, src: string, dst: string, o: LinkOutcome, p: string)
    ensures var (d, err) := SafeLinked(disk, src, dst, o);
            && (o.NoDirectory? ==> d == disk && err)
            && (!o.NoDirectory? ==> (err <==> o.CopyFailed? || src !in disk || src == dst))
            && (!err ==> dst in d && d[dst] == disk[src])
            && (err && !o.NoDirectory? && dst in d ==> src in disk && o.CopyFailed? && o.leftover == Some(d[dst]))
            && (p != dst ==> (p in d <==> p in disk) && (p in disk ==> d[p] == disk[p]))
  {
  }

  /** A file that is not there or cannot be read changes nothing, and neither does a record that cannot be made. */
  lemma FailuresChangeNothing(s: Store, hash: Bytes -> string, path: string, opt: Tags, keepSparse: bool, rio: RegisterIO, io: ArchiveIO)
    ensures path !in s.disk || !rio.readable ==> Registered(s, hash, path, opt, rio) == (s, Failed)
    ensures path !in s.disk || !io.readable ==> Archived(s, hash, path, opt, keepSparse, io) == (s, Failed)
    ensures path in s.disk && io.readable && io.create.NotCreated? && (forall i :: 0 <= i < |s.rows| ==> s.rows[i].checksum != hash(s.disk[path]))
            ==> Archived(s, hash, path, opt, keepSparse, io) == (s, Failed)
  {
    if path in s.disk && forall i :: 0 <= i < |s.rows| ==> s.rows[i].checksum != hash(s.disk[path]) {
      assert First(s.rows, ByChecksum(hash(s.disk[path]))).None?;
    }
  }

  /** After a success the download's artifact is gone; the file is gone exactly when the caller did not ask to keep
      it and the removal works; every other file stays. */
  lemma ArchivedCleansUp(s: Store, hash: Bytes -> string, path: string, opt: Tags, keepSparse: bool, io: ArchiveIO)
    requires Archived(s, hash, path, opt, keepSparse, io).1.Done?
    ensures var s' := Archived(s, hash, path, opt, keepSparse, io).0;
            && path + ".gtmp" !in s'.disk
            && (path !in s'.disk <==> !keepSparse && io.remove)
            && forall p :: p != path && p != path + ".gtmp" ==> (p in s'.disk <==> p in s.disk) && (p in s.disk ==> s'.disk[p] == s.disk[p])
  {
    ArchivedDisk(s, hash, path, opt, keepSparse, io);
    assert path != path + ".gtmp";
  }

  /** A queued upload that goes through puts the file, as it is now, under its checksum and, when the update works,
      the key into the content's first record; tags and paths stay. Without the file or the store it does nothing. */
  lemma LandedStores(s: Store, u: Upload, ok: bool, persist: bool)
    ensures u.path !in s.disk || !s.enabled ==> Landed(s, u, ok, persist) == s
    ensures var s' := Landed(s, u, ok, persist);
            u.path in s.disk && s.enabled ==>
            && s'.disk == s.disk && s'.pending == s.pending
            && s'.objects == (if u.checksum != "" && ok then s.objects[u.checksum := s.disk[u.path]] else s.objects)
            && |s'.rows| == |s.rows|
            && (forall i :: 0 <= i < |s.rows| ==> s'.rows[i] == s.rows[i].(s3Key := s'.rows[i].s3Key))
            && (forall i :: 0 <= i < |s.rows| && s.rows[i].checksum == u.checksum
                         && (forall j :: 0 <= j < i ==> s.rows[j].checksum != u.checksum)
                  ==> s'.rows[i].s3Key == if u.checksum != "" && ok && persist then u.checksum else s.rows[i].s3Key)
            && (forall i :: 0 <= i < |s.rows| && s.rows[i].checksum != u.checksum ==> s'.rows[i] == s.rows[i])
  {
    var f := First(s.rows, ByChecksum(u.checksum));
    forall i | 0 <= i < |s.rows| && s.rows[i].checksum == u.checksum && (forall j :: 0 <= j < i ==> s.rows[j].checksum != u.checksum)
      ensures f == Some(i)
    {
      assert Matches(ByChecksum(u.checksum), s.rows[i]);
    }
  }

  // ----- tags over runs

  lemma RegisteredKeepsTags(s: Store, hash: Bytes -> string, path: string, opt: Tags, io: RegisterIO, i: nat)
    requires i < |s.rows|
    ensures var rows := Registered(s, hash, path, opt, io).0.rows; i < |rows| && TagsKept(s.rows[i].tags, rows[i].tags)
  {
    if path in s.disk && io.readable {
      var f := First(s.rows, ByChecksum(hash(s.disk[path])));
      if f.Some? {
        RegisteredKnownRecord(s, hash, path, opt, io, f.value);
      }
    }
  }

  lemma ArchivedKeepsTags(s: Store, hash: Bytes -> string, path: string, opt: Tags, keepSparse: bool, io: ArchiveIO, i: nat)
    requires i < |s.rows|
    ensures var rows := Archived(s, hash, path, opt, keepSparse, io).0.rows; i < |rows| && TagsKept(s.rows[i].tags, rows[i].tags)
  {
    if path in s.disk && io.readable {
      match First(s.rows, ByChecksum(hash(s.disk[path]))) {
        case Some(f) => ArchivedKnownRecord(s, hash, path, opt, keepSparse, io, f);
        case None =>
          assert forall j :: 0 <= j < |s.rows| ==> !Matches(ByChecksum(hash(s.disk[path])), s.rows[j]);
          if io.create.Raced? {
            ArchivedRacedRecord(s, hash, path, opt, keepSparse, io);
          } else if io.create.Created? {
            ArchivedNewRecord(s, hash, path, opt, keepSparse, io);
          }
      }
    }
  }

  lemma StepKeepsTags(s: Store, hash: Bytes -> string, step: Step, i: nat)
    requires i < |s.rows|
    ensures var rows := Apply(s, hash, step).rows; i < |rows| && TagsKept(s.rows[i].tags, rows[i].tags)
  {
    match step
    case Register(path, opt, io) => RegisteredKeepsTags(s, hash, path, opt, io, i);
    case Archive(path, opt, keepSparse, io) => ArchivedKeepsTags(s, hash, path, opt, keepSparse, io, i);
    case _ =>
  }

  /** No step ever changes a tag that is set, so in any run whatsoever it stays as it was first given. */
  lemma {:induction false} TagsStay(s: Store, hash: Bytes -> string, steps: seq<Step>, i: nat)
    requires i < |s.rows|
    ensures var rows := Final(s, hash, steps).rows; i < |rows| && TagsKept(s.rows[i].tags, rows[i].tags)
    decreases |steps|
  {
    if steps != [] {
      StepKeepsTags(s, hash, steps[0], i);
      TagsStay(Apply(s, hash, steps[0]), hash, steps[1..], i);
    }
  }
}
