/** The file registry, the local disk and the content-addressed object store: registering,
    deduplicating and archiving files, with every outcome of the outside world as a parameter. */
module FileStore {
  import opened SqlLike
  import opened Wrappers

  type Bytes = seq<int>

  datatype Tags = Tags(url: string, etag: string, tgFileID: int, torrentHash: string)

  datatype Row = Row(checksum: string, filePath: string, s3Key: string, size: nat, tags: Tags)

  /** An asynchronous upload that `scheduleS3Upload` has queued. */
  datatype Upload = Upload(checksum: string, path: string)

  datatype Store = Store(
    disk: map<string, Bytes>, objects: map<string, Bytes>, rows: seq<Row>, pending: seq<Upload>, enabled: bool)

  /** The registry is searched in the order of its ids. */
  datatype Query =
    | ByChecksum(checksum: string)
    | ByPath(path: string)
    | ByTorrentArchived(torrentHash: string)
    | ByPathLikeArchived(pattern: string)
    | ByKey(key: string)

  predicate Matches(q: Query, r: Row) {
    match q
    case ByChecksum(k) => r.checksum == k
    case ByPath(p) => r.filePath == p
    case ByTorrentArchived(h) => r.tags.torrentHash == h && r.s3Key != ""
    case ByPathLikeArchived(pat) => Like(r.filePath, pat) && r.s3Key != ""
    case ByKey(k) => r.s3Key == k
  }

  function First(rows: seq<Row>, q: Query): (r: Option<nat>)
    ensures r.Some? ==> r.value < |rows| && Matches(q, rows[r.value]) && forall j :: 0 <= j < r.value ==> !Matches(q, rows[j])
    ensures r.None? ==> forall j :: 0 <= j < |rows| ==> !Matches(q, rows[j])
  {
    if rows == [] then None
    else if Matches(q, rows[0]) then Some(0)
    else match First(rows[1..], q) case None => None case Some(i) => Some(i + 1)
  }

  // ----- SafeLink

  datatype LinkOutcome = NoDirectory | Linked | Copied | CopyFailed(leftover: Option<Bytes>)

  /** `SafeLink`: the destination is removed first; the flag is the error. */
  function SafeLinked(disk: map<string, Bytes>, src: string, dst: string, o: LinkOutcome): (map<string, Bytes>, bool) {
    if o == NoDirectory then (disk, true)
    else
      var d := disk - {dst};
      if src !in d then (d, true)
      else if !o.CopyFailed? then (d[dst := d[src]], false)
      else (if o.leftover.Some? then d[dst := o.leftover.value] else d, true)
  }

  // ----- RegisterFile

  datatype Outcome = Failed | FailedWith(row: Row) | Done(row: Row)

  datatype RegisterIO = RegisterIO(readable: bool, create: bool, link: LinkOutcome, save: bool)

  /** A tag is filled in only when the record lacks it. */
  function Tagged(t: Tags, opt: Tags): Tags {
    Tags(if t.url == "" then opt.url else t.url,
         if t.etag == "" then opt.etag else t.etag,
         if t.tgFileID == 0 then opt.tgFileID else t.tgFileID,
         if t.torrentHash == "" then opt.torrentHash else t.torrentHash)
  }

  /** The record is written back, as a whole, only when a tag was filled in. */
  function Saved(rows: seq<Row>, i: nat, reg: Row, opt: Tags, save: bool): seq<Row>
    requires i < |rows|
  {
    if Tagged(reg.tags, opt) != reg.tags && save then rows[i := reg.(tags := Tagged(reg.tags, opt))] else rows
  }

  function Registered(s: Store, hash: Bytes -> string, path: string, opt: Tags, io: RegisterIO): (Store, Outcome) {
    if path !in s.disk || !io.readable then (s, Failed)
    else
      var k := hash(s.disk[path]);
      match First(s.rows, ByChecksum(k))
      case None =>
        if !io.create then (s, Failed)
        else
          var row := Row(k, path, "", |s.disk[path]|, opt);
          (s.(rows := s.rows + [row],
              pending := if s.enabled && k != "" then s.pending + [Upload(k, path)] else s.pending),
           Done(row))
      case Some(i) =>
        var reg := s.rows[i];
        if reg.filePath != path && reg.filePath in s.disk then
          var (d, err) := SafeLinked(s.disk - {path}, reg.filePath, path, io.link);
          if err then (s.(disk := d), Failed)
          else (s.(disk := d, rows := Saved(s.rows, i, reg, opt, io.save)), Done(reg.(tags := Tagged(reg.tags, opt))))
        else
          var reg' := if reg.filePath == path then reg else reg.(filePath := path, size := |s.disk[path]|);
          (s.(rows := Saved(s.rows, i, reg', opt, io.save)), Done(reg'.(tags := Tagged(reg'.tags, opt))))
  }

  // ----- RegisterAndArchiveToS3

  /** How creating the record ends. The third way: another worker has created a record for the same content in
      the meantime, and the second query finds that one. */
  datatype Creation = Created | NotCreated | Raced(filePath: string, size: nat, tags: Tags, archived: bool)

  datatype ArchiveIO = ArchiveIO(readable: bool, create: Creation, head: bool, upload: bool, persist: bool, save: bool, remove: bool)

  /** `S3ObjectExists`: false too when the store is disabled or does not answer. */
  predicate Exists(s: Store, key: string, head: bool) {
    s.enabled && key != "" && head && key in s.objects
  }

  /** A disabled store accepts an upload without keeping it. */
  function Uploaded(s: Store, key: string, content: Bytes): Store {
    if s.enabled then s.(objects := s.objects[key := content]) else s
  }

  predicate UploadFails(s: Store, key: string, ok: bool) {
    s.enabled && (key == "" || !ok)
  }

  function TempName(path: string): string {
    path + ".gtmp"
  }

  function CleanedUp(s: Store, path: string, keepSparse: bool, remove: bool): Store {
    var d := if keepSparse || !remove then s.disk else s.disk - {path};
    s.(disk := d - {TempName(path)})
  }

  /** Known content: uploaded again when it has no key or its object is not found. */
  function ArchivedKnown(s: Store, k: string, i: nat, path: string, opt: Tags, io: ArchiveIO): (Store, Outcome)
    requires path in s.disk && i < |s.rows|
  {
    var reg := s.rows[i];
    if reg.s3Key != "" && Exists(s, reg.s3Key, io.head) then
      (s.(rows := Saved(s.rows, i, reg, opt, io.save)), Done(reg.(tags := Tagged(reg.tags, opt))))
    else if UploadFails(s, k, io.upload) then (s, FailedWith(reg))
    else
      var reg2 := reg.(s3Key := k);
      var rows2 := if io.persist then s.rows[i := reg2] else s.rows;
      (Uploaded(s, k, s.disk[path]).(rows := Saved(rows2, i, reg2, opt, io.save)),
       Done(reg2.(tags := Tagged(reg2.tags, opt))))
  }

  /** The record of the worker that was faster. */
  function RivalRow(k: string, c: Creation): Row
    requires c.Raced?
  {
    Row(k, c.filePath, if c.archived then k else "", c.size, c.tags)
  }

  /** New content: the record is created without key, the file uploaded, the key stored. A record that lost the
      race is taken for a known content's. */
  function ArchivedNew(s: Store, k: string, path: string, opt: Tags, io: ArchiveIO): (Store, Outcome)
    requires path in s.disk
  {
    var row := Row(k, path, "", |s.disk[path]|, opt);
    if io.create.NotCreated? then (s, Failed)
    else if io.create.Raced? then
      ArchivedKnown(s.(rows := s.rows + [RivalRow(k, io.create)]), k, |s.rows|, path, opt, io)
    else
      var s1 := s.(rows := s.rows + [row]);
      if UploadFails(s, k, io.upload) then (s1, FailedWith(row))
      else
        var row2 := row.(s3Key := k);
        var s2 := Uploaded(s1, k, s.disk[path]);
        (if io.persist then s2.(rows := s.rows + [row2]) else s2, Done(row2))
  }

  function Archived(s: Store, hash: Bytes -> string, path: string, opt: Tags, keepSparse: bool, io: ArchiveIO): (Store, Outcome) {
    if path !in s.disk || !io.readable then (s, Failed)
    else
      var k := hash(s.disk[path]);
      var (s1, r) := match First(s.rows, ByChecksum(k))
        case None => ArchivedNew(s, k, path, opt, io)
        case Some(i) => ArchivedKnown(s, k, i, path, opt, io);
      if r.Done? then (CleanedUp(s1, path, keepSparse, io.remove), r) else (s1, r)
  }

  // ----- the code

  class FileCore {
    const hash: Bytes -> string
    const enabled: bool
    var disk: map<string, Bytes>
    var objects: map<string, Bytes>
    var rows: seq<Row>
    var pending: seq<Upload>

    function Snapshot(): Store
      reads this
    {
      Store(disk, objects, rows, pending, enabled)
    }

    constructor (hash: Bytes -> string, enabled: bool)
      ensures Snapshot() == Store(map[], map[], [], [], enabled) && this.hash == hash
    {
      this.hash, this.enabled := hash, enabled;
      disk, objects, rows, pending := map[], map[], [], [];
    }

    method SafeLink(src: string, dst: string, o: LinkOutcome) returns (err: bool)
      modifies `disk
      ensures (disk, err) == SafeLinked(old(disk), src, dst, o)
    {
      if o == NoDirectory {
        return true;
      }
      if dst in disk {
        disk := disk - {dst};
      }
      assert disk == old(disk) - {dst};
      if src in disk && (o == Linked || o == Copied) {
        disk := disk[dst := disk[src]];
        return false;
      }
      if src in disk && o.CopyFailed? && o.leftover.Some? {
        disk := disk[dst := o.leftover.value];
      }
      return true;
    }

    method UpdateRegistryTags(i: nat, reg: Row, opt: Tags, save: bool) returns (reg': Row)
      requires i < |rows|
      modifies `rows
      ensures rows == Saved(old(rows), i, reg, opt, save)
      ensures reg' == reg.(tags := Tagged(reg.tags, opt))
    {
      var t, updated := reg.tags, false;
      if opt.url != "" && t.url == "" {
        t, updated := t.(url := opt.url), true;
      }
      if opt.etag != "" && t.etag == "" {
        t, updated := t.(etag := opt.etag), true;
      }
      if opt.tgFileID != 0 && t.tgFileID == 0 {
        t, updated := t.(tgFileID := opt.tgFileID), true;
      }
      if opt.torrentHash != "" && t.torrentHash == "" {
        t, updated := t.(torrentHash := opt.torrentHash), true;
      }
      reg' := reg.(tags := t);
      if updated && save {
        rows := rows[i := reg'];
      }
    }

    method RegisterFile(path: string, opt: Tags, io: RegisterIO) returns (r: Outcome)
      modifies this
      ensures (Snapshot(), r) == Registered(old(Snapshot()), hash, path, opt, io)
    {
      if path !in disk || !io.readable {
        return Failed;
      }
      var checksum, size := hash(disk[path]), |disk[path]|;
      var found := First(rows, ByChecksum(checksum));
      if found.None? {
        if !io.create {
          return Failed;
        }
        var row := Row(checksum, path, "", size, opt);
        rows := rows + [row];
        if enabled && checksum != "" {
          pending := pending + [Upload(checksum, path)];
        }
        return Done(row);
      }
      var reg := rows[found.value];
      if reg.filePath != path {
        if reg.filePath in disk {
          disk := disk - {path};
          var err := SafeLink(reg.filePath, path, io.link);
          if err {
            return Failed;
          }
        } else {
          reg := reg.(filePath := path, size := size);
        }
      }
      reg := UpdateRegistryTags(found.value, reg, opt, io.save);
      return Done(reg);
    }

    method UploadFileToS3(key: string, path: string, ok: bool) returns (err: bool)
      requires path in disk
      modifies `objects
      ensures err <==> enabled && (key == "" || !ok)
      ensures objects == if enabled && key != "" && ok then old(objects)[key := disk[path]] else old(objects)
    {
      if !enabled {
        return false;
      }
      if key == "" {
        return true;
      }
      if ok {
        objects := objects[key := disk[path]];
      }
      return !ok;
    }

    method ArchiveKnown(checksum: string, i: nat, path: string, opt: Tags, io: ArchiveIO) returns (r: Outcome)
      requires path in disk && i < |rows|
      modifies this
      ensures (Snapshot(), r) == ArchivedKnown(old(Snapshot()), checksum, i, path, opt, io)
    {
      var reg := rows[i];
      var needUpload := reg.s3Key == "";
      if !needUpload && !Exists(Snapshot(), reg.s3Key, io.head) {
        needUpload := true;
      }
      if needUpload {
        var err := UploadFileToS3(checksum, path, io.upload);
        if err {
          return FailedWith(reg);
        }
        reg := reg.(s3Key := checksum);
        if io.persist {
          rows := rows[i := reg];
        }
      }
      reg := UpdateRegistryTags(i, reg, opt, io.save);
      return Done(reg);
    }

    method ArchiveNew(checksum: string, path: string, opt: Tags, io: ArchiveIO) returns (r: Outcome)
      requires path in disk
      modifies this
      ensures (Snapshot(), r) == ArchivedNew(old(Snapshot()), checksum, path, opt, io)
    {
      if io.create.NotCreated? {
        return Failed;
      }
      if io.create.Raced? {
        rows := rows + [RivalRow(checksum, io.create)];
        r := ArchiveKnown(checksum, |rows| - 1, path, opt, io);
        return;
      }
      var reg := Row(checksum, path, "", |disk[path]|, opt);
      rows := rows + [reg];
      var err := UploadFileToS3(checksum, path, io.upload);
      if err {
        return FailedWith(reg);
      }
      reg := reg.(s3Key := checksum);
      if io.persist {
        rows := rows[|rows| - 1 := reg];
        assert rows == old(rows) + [reg];
      }
      return Done(reg);
    }

    method RegisterAndArchiveToS3(path: string, opt: Tags, keepSparse: bool, io: ArchiveIO) returns (r: Outcome)
      modifies this
      ensures (Snapshot(), r) == Archived(old(Snapshot()), hash, path, opt, keepSparse, io)
    {
      if path !in disk || !io.readable {
        return Failed;
      }
      var checksum := hash(disk[path]);
      var found := First(rows, ByChecksum(checksum));
      if found.None? {
        r := ArchiveNew(checksum, path, opt, io);
      } else {
        r := ArchiveKnown(checksum, found.value, path, opt, io);
      }
      if r.Done? {
        if !keepSparse && io.remove {
          disk := disk - {path};
        }
        disk := disk - {TempName(path)};
      }
    }
  }
}
