/** `MaterializeForUploadWithTorrent`: find a readable copy of a file that may have been archived,
    in strict order, and account for every temporary file on the way. */
module Rehydrate {
  import opened FileStore
  import opened StoreSafety
  import LexicalPath
  import SandboxPath
  import opened Wrappers

  datatype Reason = NoPath | IsDirectory | Transport | UploadPending | CloudFailed | NotFound

  datatype Resolution = LocalFile | TempFile(content: Bytes) | Error(reason: Reason)

  /** How the object store answers: whether a HEAD gets through, whether a download does, and whether
      a temporary file can be made. */
  datatype Net = Net(head: string -> bool, fetch: string -> bool, temp: bool)

  /** How one candidate of the cloud index comes in: no temporary file, a stream that breaks, or a whole one. */
  datatype Candidate = NoTemp | Broken(partial: Bytes) | Streamed(content: Bytes)

  /** What the cloud index yields. */
  datatype Cloud = NoCandidate | Fetched(content: Bytes) | AllFailed

  /** An empty copy counts as a failure. */
  predicate Usable(c: Candidate) {
    c.Streamed? && c.content != []
  }

  function FirstUsable(candidates: seq<Candidate>): Cloud {
    if candidates == [] then AllFailed
    else if Usable(candidates[0]) then Fetched(candidates[0].content)
    else FirstUsable(candidates[1..])
  }

  /** `tryRcloneIndex`: the first candidate that can be fetched wins. */
  function CloudAnswer(path: string, candidates: seq<Candidate>): Cloud {
    var b := LexicalPath.BaseName(path);
    if b == "" || b == "." || b == "/" || candidates == [] then NoCandidate else FirstUsable(candidates)
  }

  /** `IsSparseStubFile`: something is there, and its first 4096 bytes are zero. */
  predicate IsSparseStub(content: Bytes) {
    content != [] && forall i :: 0 <= i < |content| && i < 4096 ==> content[i] == 0
  }

  predicate IsHexKey(s: string) {
    |s| >= 16 && |s| % 2 == 0 && forall i :: 0 <= i < |s| ==> '0' <= s[i] <= '9' || 'a' <= s[i] <= 'f'
  }

  // ----- the priority list

  datatype Attempt = Object(key: string) | ReadLocal | Refuse(reason: Reason) | CloudIndex

  /** `lookupAlternateS3Key`: at most one key, by torrent hash or else by file name. */
  function AlternateKey(s: Store, path: string, torrentHash: string): Option<string> {
    var byHash := if torrentHash == "" then None else First(s.rows, ByTorrentArchived(torrentHash));
    if byHash.Some? then Some(s.rows[byHash.value].s3Key)
    else
      var b := LexicalPath.BaseName(path);
      var byName := if b == "" || b == "." then None else First(s.rows, ByPathLikeArchived("%/" + b));
      if byName.Some? then Some(s.rows[byName.value].s3Key) else None
  }

  function Attempted(key: Option<string>): seq<Attempt> {
    if key.Some? then [Object(key.value)] else []
  }

  /** The record whose key is the file name. */
  function KeyByName(s: Store, path: string): Option<nat> {
    var b := LexicalPath.BaseName(path);
    if b == "" || b == "." then None else First(s.rows, ByKey(b))
  }

  /** The record whose checksum is the file name. The query reuses the variable of the search by key, so
      when that search found a record, this one is confined to the same record. */
  function ChecksumByName(s: Store, path: string): Option<nat> {
    var b := LexicalPath.BaseName(path);
    if b == "" || b == "." then None
    else
      var f := KeyByName(s, path);
      if f.Some? then (if s.rows[f.value].checksum == b then f else None) else First(s.rows, ByChecksum(b))
  }

  function KeyOf(s: Store, f: Option<nat>): Option<string>
    requires f.Some? ==> f.value < |s.rows|
  {
    if f.Some? && s.rows[f.value].s3Key != "" then Some(s.rows[f.value].s3Key) else None
  }

  predicate Stored(s: Store, f: Option<nat>)
    requires f.Some? ==> f.value < |s.rows|
  {
    s.enabled && KeyOf(s, f).Some?
  }

  predicate StubOnDisk(s: Store, path: string, torrentHash: string) {
    path in s.disk && torrentHash != "" && s.enabled && IsSparseStub(s.disk[path])
  }

  /** The tiers behind the exact record and the real local file. */
  function Recovery(s: Store, path: string, torrentHash: string): seq<Attempt> {
    Attempted(AlternateKey(s, path, torrentHash))
    + (Attempted(KeyOf(s, KeyByName(s, path)))
    + (Attempted(KeyOf(s, ChecksumByName(s, path)))
    + (Attempted(RawKey(s, path))
    + [CloudIndex, if path in s.disk then ReadLocal else Refuse(NotFound)])))
  }

  /** A file name that looks like a key is tried as one, without any record. */
  function RawKey(s: Store, path: string): Option<string> {
    if s.enabled && IsHexKey(LexicalPath.BaseName(path)) then Some(LexicalPath.BaseName(path)) else None
  }

  /** The whole list for a path; `lookup` is the path as the registry lookup normalises it again. */
  function Plan(s: Store, path: string, lookup: string, torrentHash: string): seq<Attempt> {
    var f := First(s.rows, ByPath(lookup));
    var exact := if Stored(s, f) then Attempted(KeyOf(s, f)) else [];
    if path in s.disk && !StubOnDisk(s, path, torrentHash) then exact + [ReadLocal]
    else if f.Some? && !Stored(s, f) then [Refuse(UploadPending)]
    else exact + Recovery(s, path, torrentHash)
  }

  /** An attempt settles the call, or falls through. */
  function Try(s: Store, net: Net, cloud: Cloud, a: Attempt): Option<Resolution> {
    match a
    case Object(k) =>
      if !Exists(s, k, net.head(k)) then None
      else if !net.temp || !net.fetch(k) then Some(Error(Transport))
      else Some(TempFile(s.objects[k]))
    case ReadLocal => Some(LocalFile)
    case Refuse(e) => Some(Error(e))
    case CloudIndex =>
      match cloud
      case NoCandidate => None
      case Fetched(c) => Some(TempFile(c))
      case AllFailed => Some(Error(CloudFailed))
  }

  function FirstHit(s: Store, net: Net, cloud: Cloud, plan: seq<Attempt>): Resolution {
    if plan == [] then Error(NotFound)
    else if Try(s, net, cloud, plan[0]).Some? then Try(s, net, cloud, plan[0]).value
    else FirstHit(s, net, cloud, plan[1..])
  }

  function Resolved(s: Store, net: Net, cloud: Cloud, path: string, lookup: string, torrentHash: string): Resolution {
    FirstHit(s, net, cloud, Plan(s, path, lookup, torrentHash))
  }

  lemma {:induction false} FirstHitSkips(s: Store, net: Net, cloud: Cloud, a: seq<Attempt>, b: seq<Attempt>)
    requires forall i :: 0 <= i < |a| ==> Try(s, net, cloud, a[i]).None?
    ensures FirstHit(s, net, cloud, a + b) == FirstHit(s, net, cloud, b)
  {
    if a == [] {
      assert a + b == b;
    } else {
      FirstHitSkips(s, net, cloud, a[1..], b);
      assert (a + b)[1..] == a[1..] + b;
    }
  }

  /** The answer is that of the first attempt that settles the call; an object handed out is present. */
  lemma {:induction false} FirstHitIsFirst(s: Store, net: Net, cloud: Cloud, plan: seq<Attempt>) returns (i: nat)
    requires plan != [] && (plan[|plan| - 1].ReadLocal? || plan[|plan| - 1].Refuse?)
    ensures i < |plan| && Try(s, net, cloud, plan[i]) == Some(FirstHit(s, net, cloud, plan))
    ensures forall j :: 0 <= j < i ==> Try(s, net, cloud, plan[j]).None?
    ensures plan[i].Object? ==> plan[i].key in s.objects
  {
    if Try(s, net, cloud, plan[0]).Some? {
      i := 0;
    } else {
      i := FirstHitIsFirst(s, net, cloud, plan[1..]);
      i := i + 1;
    }
  }

  /** The resolver answers from the first tier of its list that is not empty-handed: every earlier tier
      fell through, an object handed out is physically there, and some tier always answers. */
  lemma ResolvedByFirstTier(s: Store, net: Net, cloud: Cloud, path: string, lookup: string, torrentHash: string) returns (i: nat)
    ensures var plan := Plan(s, path, lookup, torrentHash);
            && i < |plan| && Try(s, net, cloud, plan[i]) == Some(Resolved(s, net, cloud, path, lookup, torrentHash))
            && (forall j :: 0 <= j < i ==> Try(s, net, cloud, plan[j]).None?)
            && (plan[i].Object? ==> plan[i].key in s.objects)
  {
    var plan := Plan(s, path, lookup, torrentHash);
    assert plan[|plan| - 1].ReadLocal? || plan[|plan| - 1].Refuse?;
    i := FirstHitIsFirst(s, net, cloud, plan);
  }

  // ----- the reused query variable

  /** The search by checksum, had it a variable of its own. */
  function ChecksumAlone(s: Store, path: string): Option<nat> {
    var b := LexicalPath.BaseName(path);
    if b == "" || b == "." then None else First(s.rows, ByChecksum(b))
  }

  /** Reusing the variable changes the second search exactly when the file name is the key of one record and the
      checksum of another; that other record is then hidden. */
  lemma ReuseHidesIff(s: Store, path: string)
    ensures ChecksumByName(s, path) != ChecksumAlone(s, path)
       <==> KeyByName(s, path).Some? && ChecksumAlone(s, path).Some? && KeyByName(s, path) != ChecksumAlone(s, path)
  {
    if KeyByName(s, path).Some? && KeyByName(s, path) == ChecksumAlone(s, path) {
      assert Matches(ByChecksum(LexicalPath.BaseName(path)), s.rows[KeyByName(s, path).value]);
    }
    if KeyByName(s, path).Some? && ChecksumAlone(s, path).None? {
      assert !Matches(ByChecksum(LexicalPath.BaseName(path)), s.rows[KeyByName(s, path).value]);
    }
  }

  /** Where every key is its record's checksum and no two records share one, it changes nothing. */
  lemma ReuseIsHarmlessWhenSound(s: Store, hash: Bytes -> string, path: string)
    requires Sound(s, hash)
    ensures ChecksumByName(s, path) == ChecksumAlone(s, path)
  {
    ReuseHidesIff(s, path);
    var f, g := KeyByName(s, path), ChecksumAlone(s, path);
    if f.Some? && g.Some? {
      assert RowSound(s, hash, s.rows[f.value]);
      assert s.rows[f.value].checksum == s.rows[g.value].checksum;
      UniqueRow(s, hash, f.value, g.value);
    }
  }

  // ----- the code

  class TempDir {
    var temps: map<nat, Bytes>
    var next: nat

    ghost predicate Valid()
      reads this
    {
      forall t :: t in temps ==> t < next
    }

    /** `tryS3` around `materializeFromS3`: `None` when the object is not physically there. */
    method TryS3(s: Store, net: Net, key: string) returns (r: Option<Resolution>)
      requires Valid()
      modifies this
      ensures Valid() && r == Try(s, net, NoCandidate, Object(key))
      ensures Accounted(old(temps), temps, r)
    {
      if !Exists(s, key, net.head(key)) {
        return None;
      }
      if !net.temp {
        return Some(Error(Transport));
      }
      var tmp := next;
      temps, next := temps[tmp := []], next + 1;
      if !net.fetch(key) {
        temps := temps - {tmp};
        assert temps == old(temps);
        return Some(Error(Transport));
      }
      temps := temps[tmp := s.objects[key]];
      assert tmp !in old(temps) && temps == old(temps)[tmp := s.objects[key]];
      return Some(TempFile(s.objects[key]));
    }

    /** One tier: nothing to try, or one key. */
    method TryTier(s: Store, net: Net, ghost cloud: Cloud, key: Option<string>, ghost rest: seq<Attempt>) returns (r: Option<Resolution>)
      requires Valid()
      modifies this
      ensures Valid() && Accounted(old(temps), temps, r)
      ensures FirstHit(s, net, cloud, Attempted(key) + rest) == if r.Some? then r.value else FirstHit(s, net, cloud, rest)
    {
      r := None;
      if key.None? {
        assert Attempted(key) + rest == rest;
      } else {
        assert (Attempted(key) + rest)[0] == Object(key.value) && (Attempted(key) + rest)[1..] == rest;
        r := TryS3(s, net, key.value);
      }
    }

    /** `MaterializeRemoteFile`: a copy that breaks or is empty is removed again. */
    method MaterializeRemoteFile(c: Candidate) returns (r: Option<Resolution>)
      requires Valid()
      modifies this
      ensures Valid() && Accounted(old(temps), temps, r)
      ensures r == if Usable(c) then Some(TempFile(c.content)) else None
    {
      if c.NoTemp? {
        return None;
      }
      var tmp := next;
      temps, next := temps[tmp := if c.Broken? then c.partial else c.content], next + 1;
      if c.Broken? || c.content == [] {
        temps := temps - {tmp};
        assert temps == old(temps);
        return None;
      }
      assert tmp !in old(temps) && temps == old(temps)[tmp := c.content];
      return Some(TempFile(c.content));
    }

    method TryRcloneIndex(path: string, candidates: seq<Candidate>) returns (r: Option<Resolution>)
      requires Valid()
      modifies this
      ensures Valid() && forall s, net :: Try(s, net, CloudAnswer(path, candidates), CloudIndex) == r
      ensures Accounted(old(temps), temps, r)
    {
      var b := LexicalPath.BaseName(path);
      if b == "" || b == "." || b == "/" || |candidates| == 0 {
        return None;
      }
      for i := 0 to |candidates|
        invariant Valid() && temps == old(temps)
        invariant FirstUsable(candidates) == FirstUsable(candidates[i..])
      {
        r := MaterializeRemoteFile(candidates[i]);
        if r.Some? {
          return;
        }
      }
      return Some(Error(CloudFailed));
    }

    /** The tiers behind the exact record and the real local file. */
    method Recover(s: Store, net: Net, candidates: seq<Candidate>, path: string, torrentHash: string) returns (r: Resolution)
      requires Valid()
      modifies this
      ensures Valid() && r == FirstHit(s, net, CloudAnswer(path, candidates), Recovery(s, path, torrentHash))
      ensures Accounted(old(temps), temps, Some(r))
    {
      ghost var cloud := CloudAnswer(path, candidates);
      ghost var last := [CloudIndex, if path in s.disk then ReadLocal else Refuse(NotFound)];
      ghost var byRaw := Attempted(RawKey(s, path)) + last;
      ghost var byChecksum := Attempted(KeyOf(s, ChecksumByName(s, path))) + byRaw;
      ghost var byName := Attempted(KeyOf(s, KeyByName(s, path))) + byChecksum;
      var t := TryTier(s, net, cloud, AlternateKey(s, path, torrentHash), byName);
      if t.Some? { return t.value; }
      t := TryTier(s, net, cloud, KeyOf(s, KeyByName(s, path)), byChecksum);
      if t.Some? { return t.value; }
      t := TryTier(s, net, cloud, KeyOf(s, ChecksumByName(s, path)), byRaw);
      if t.Some? { return t.value; }
      t := TryTier(s, net, cloud, RawKey(s, path), last);
      if t.Some? { return t.value; }
      t := TryRcloneIndex(path, candidates);
      assert last[1..] == [last[1]];
      if t.Some? { return t.value; }
      if path in s.disk {
        return LocalFile;
      }
      return Error(NotFound);
    }

    method MaterializeForUpload(s: Store, net: Net, candidates: seq<Candidate>, isDir: bool, path: string, lookup: string,
                                torrentHash: string)
      returns (r: Resolution)
      requires Valid()
      modifies this
      ensures Valid() && Accounted(old(temps), temps, Some(r))
      ensures r == if path == "" then Error(NoPath) else if isDir then Error(IsDirectory)
                   else Resolved(s, net, CloudAnswer(path, candidates), path, lookup, torrentHash)
    {
      ghost var cloud := CloudAnswer(path, candidates);
      if path == "" {
        return Error(NoPath);
      }
      if isDir {
        return Error(IsDirectory);
      }
      var onDisk := path in s.disk;
      var sparseStub := StubOnDisk(s, path, torrentHash);
      var f := First(s.rows, ByPath(lookup));
      var exact := if Stored(s, f) then KeyOf(s, f) else None;
      ghost var rest := if onDisk && !sparseStub then [ReadLocal]
                        else if f.Some? && !Stored(s, f) then [Refuse(UploadPending)]
                        else Recovery(s, path, torrentHash);
      assert Plan(s, path, lookup, torrentHash) == Attempted(exact) + rest;
      var t := TryTier(s, net, cloud, exact, rest);
      if t.Some? { return t.value; }
      if onDisk && !sparseStub {
        return LocalFile;
      }
      if f.Some? && !Stored(s, f) {
        return Error(UploadPending);
      }
      r := Recover(s, net, candidates, path, torrentHash);
    }
  }

  /** Exactly one new temporary file exists when a copy was made, and none otherwise. */
  ghost predicate Accounted(before: map<nat, Bytes>, after: map<nat, Bytes>, r: Option<Resolution>) {
    if r.Some? && r.value.TempFile? then exists t: nat :: t !in before && after == before[t := r.value.content]
    else after == before
  }

  // ----- archive, then materialize

  /** The first record for a path decides: when its object is present and reachable, that object is what is read. */
  lemma ExactRecordDecides(s: Store, net: Net, cloud: Cloud, path: string, lookup: string, torrentHash: string)
    requires First(s.rows, ByPath(lookup)).Some?
    requires var key := s.rows[First(s.rows, ByPath(lookup)).value].s3Key;
             Exists(s, key, net.head(key)) && net.temp && net.fetch(key)
    ensures Resolved(s, net, cloud, path, lookup, torrentHash) ==
            TempFile(s.objects[s.rows[First(s.rows, ByPath(lookup)).value].s3Key])
  {
  }

  /** The key reaches the record: it was there, the update went through, or the record was saved with a new tag. */
  predicate RowKeyStored(r: Row, opt: Tags, io: ArchiveIO) {
    r.s3Key != "" || io.persist || (Tagged(r.tags, opt) != r.tags && io.save)
  }

  /** The same for the record that the call ends up with. */
  predicate KeyStored(s: Store, hash: Bytes -> string, path: string, opt: Tags, io: ArchiveIO)
    requires path in s.disk
  {
    var k := hash(s.disk[path]);
    match First(s.rows, ByChecksum(k))
    case Some(i) => RowKeyStored(s.rows[i], opt, io)
    case None => if io.create.Raced? then RowKeyStored(RivalRow(k, io.create), opt, io) else io.persist
  }

  lemma KnownRecord(s: Store, k: string, i: nat, path: string, opt: Tags, io: ArchiveIO)
    requires path in s.disk && i < |s.rows| && s.rows[i].checksum == k && (s.rows[i].s3Key == "" || s.rows[i].s3Key == k)
    requires ArchivedKnown(s, k, i, path, opt, io).1.Done?
    ensures var rows := ArchivedKnown(s, k, i, path, opt, io).0.rows;
            && |rows| == |s.rows| && rows[i].s3Key == (if RowKeyStored(s.rows[i], opt, io) then k else "")
            && forall j :: 0 <= j < |rows| && j != i ==> rows[j] == s.rows[j]
  {
  }

  lemma NewRecord(s: Store, k: string, path: string, opt: Tags, io: ArchiveIO)
    requires path in s.disk && ArchivedNew(s, k, path, opt, io).1.Done?
    ensures var rows := ArchivedNew(s, k, path, opt, io).0.rows;
            && |rows| == |s.rows| + 1 && rows[..|s.rows|] == s.rows
            && rows[|s.rows|].s3Key == if (if io.create.Raced? then RowKeyStored(RivalRow(k, io.create), opt, io) else io.persist)
                                       then k else ""
  {
    if io.create.Raced? {
      KnownRecord(s.(rows := s.rows + [RivalRow(k, io.create)]), k, |s.rows|, path, opt, io);
    }
  }

  /** After a successful archiving the record of the content carries its key exactly when the key was stored: the
      error of the update is not looked at. */
  lemma ArchivedRecord(s: Store, hash: Bytes -> string, path: string, opt: Tags, keepSparse: bool, io: ArchiveIO, f: nat)
    requires Injective(hash) && Sound(s, hash) && path in s.disk && Archives(s, hash, path, opt, keepSparse, io)
    requires var s' := Archived(s, hash, path, opt, keepSparse, io).0;
             f < |s'.rows| && s'.rows[f].checksum == hash(s.disk[path])
    ensures Archived(s, hash, path, opt, keepSparse, io).0.rows[f].s3Key
         == if KeyStored(s, hash, path, opt, io) then hash(s.disk[path]) else ""
  {
    var k := hash(s.disk[path]);
    ArchivedRows(s, hash, path, opt, keepSparse, io);
    match First(s.rows, ByChecksum(k)) {
      case None =>
        NewRecord(s, k, path, opt, io);
        assert f < |s.rows| ==> !Matches(ByChecksum(k), s.rows[f]);
      case Some(i) =>
        assert RowSound(s, hash, s.rows[i]);
        KnownRecord(s, k, i, path, opt, io);
        UniqueRow(s, hash, f, i);
    }
  }

  /** What is read under a path is a given content exactly when the path's first record is that content's. */
  lemma FirstRecordDecidesContent(s: Store, hash: Bytes -> string, net: Net, cloud: Cloud, path: string, lookup: string,
                                  torrentHash: string, c: Bytes)
    requires Injective(hash) && Sound(s, hash) && First(s.rows, ByPath(lookup)).Some?
    requires var key := s.rows[First(s.rows, ByPath(lookup)).value].s3Key;
             Exists(s, key, net.head(key)) && net.temp && net.fetch(key)
    ensures Resolved(s, net, cloud, path, lookup, torrentHash) == TempFile(c) <==>
            s.rows[First(s.rows, ByPath(lookup)).value].checksum == hash(c)
  {
    var f := First(s.rows, ByPath(lookup)).value;
    assert RowSound(s, hash, s.rows[f]);
    ExactRecordDecides(s, net, cloud, path, lookup, torrentHash);
  }

  /** A record without a key refuses everything but the real local file. */
  lemma PendingRecordRefuses(s: Store, net: Net, cloud: Cloud, path: string, lookup: string, torrentHash: string)
    requires First(s.rows, ByPath(lookup)).Some? && s.rows[First(s.rows, ByPath(lookup)).value].s3Key == ""
    ensures Resolved(s, net, cloud, path, lookup, torrentHash)
         == if path in s.disk && !StubOnDisk(s, path, torrentHash) then LocalFile else Error(UploadPending)
  {
  }

  /** After a successful archiving, with the path's first record the content's own and the store answering,
      materializing the path yields the archived content exactly when the key was stored. When it was not, the file
      is read if the call has left it, and else the answer is that the upload is still pending. */
  lemma ArchiveThenMaterialize(s: Store, hash: Bytes -> string, path: string, opt: Tags, keepSparse: bool, io: ArchiveIO,
                               net: Net, cloud: Cloud, lookup: string, torrentHash: string)
    requires Injective(hash) && Sound(s, hash) && path in s.disk && s.enabled
    requires Archives(s, hash, path, opt, keepSparse, io)
    requires net.temp && net.head(hash(s.disk[path])) && net.fetch(hash(s.disk[path]))
    requires var s' := Archived(s, hash, path, opt, keepSparse, io).0;
             First(s'.rows, ByPath(lookup)).Some? && s'.rows[First(s'.rows, ByPath(lookup)).value].checksum == hash(s.disk[path])
    ensures var s' := Archived(s, hash, path, opt, keepSparse, io).0;
            Resolved(s', net, cloud, path, lookup, torrentHash)
            == if KeyStored(s, hash, path, opt, io) then TempFile(s.disk[path])
               else if path in s'.disk && !StubOnDisk(s', path, torrentHash) then LocalFile
               else Error(UploadPending)
  {
    var s' := Archived(s, hash, path, opt, keepSparse, io).0;
    ArchivedObjects(s, hash, path, opt, keepSparse, io);
    ArchivedDisk(s, hash, path, opt, keepSparse, io);
    ArchivedRecord(s, hash, path, opt, keepSparse, io, First(s'.rows, ByPath(lookup)).value);
    if KeyStored(s, hash, path, opt, io) {
      KeyIsNotEmpty(s, hash, path, opt, keepSparse, io);
      ExactRecordDecides(s', net, cloud, path, lookup, torrentHash);
    } else {
      PendingRecordRefuses(s', net, cloud, path, lookup, torrentHash);
    }
  }

  /** A torrent file that was archived and then made a stub is read from the object store, exactly when the key was
      stored; without it the stub itself is read, or refused where it is recognised. */
  lemma StubThenMaterialize(s: Store, hash: Bytes -> string, path: string, opt: Tags, io: ArchiveIO, stub: Bytes,
                            net: Net, cloud: Cloud, lookup: string, torrentHash: string)
    requires Injective(hash) && Sound(s, hash) && path in s.disk && s.enabled
    requires Archives(s, hash, path, opt, true, io)
    requires net.temp && net.head(hash(s.disk[path])) && net.fetch(hash(s.disk[path]))
    requires var s' := Archived(s, hash, path, opt, true, io).0;
             First(s'.rows, ByPath(lookup)).Some? && s'.rows[First(s'.rows, ByPath(lookup)).value].checksum == hash(s.disk[path])
    ensures var s2 := Apply(Archived(s, hash, path, opt, true, io).0, hash, Download(path, stub));
            Resolved(s2, net, cloud, path, lookup, torrentHash)
            == if KeyStored(s, hash, path, opt, io) then TempFile(s.disk[path])
               else if torrentHash != "" && IsSparseStub(stub) then Error(UploadPending)
               else LocalFile
  {
    var s' := Archived(s, hash, path, opt, true, io).0;
    var s2 := Apply(s', hash, Download(path, stub));
    ArchivedObjects(s, hash, path, opt, true, io);
    ArchivedDisk(s, hash, path, opt, true, io);
    ArchivedRecord(s, hash, path, opt, true, io, First(s'.rows, ByPath(lookup)).value);
    if KeyStored(s, hash, path, opt, io) {
      KeyIsNotEmpty(s, hash, path, opt, true, io);
      ExactRecordDecides(s2, net, cloud, path, lookup, torrentHash);
    } else {
      PendingRecordRefuses(s2, net, cloud, path, lookup, torrentHash);
    }
  }

  /** An enabled store takes no object without a key. */
  lemma KeyIsNotEmpty(s: Store, hash: Bytes -> string, path: string, opt: Tags, keepSparse: bool, io: ArchiveIO)
    requires Sound(s, hash) && path in s.disk && s.enabled && Archives(s, hash, path, opt, keepSparse, io)
    ensures hash(s.disk[path]) != ""
  {
    var f := First(s.rows, ByChecksum(hash(s.disk[path])));
    if f.Some? {
      assert RowSound(s, hash, s.rows[f.value]);
    }
  }

  /** When the store does not answer, the local copy that is still there is read, and it is the content. */
  lemma UnreachableThenLocal(s: Store, hash: Bytes -> string, path: string, opt: Tags, keepSparse: bool, io: ArchiveIO,
                             net: Net, cloud: Cloud, lookup: string, torrentHash: string)
    requires var s' := Archived(s, hash, path, opt, keepSparse, io).0;
             path in s'.disk && !StubOnDisk(s', path, torrentHash)
    requires forall key :: !net.head(key)
    ensures var s' := Archived(s, hash, path, opt, keepSparse, io).0;
            Resolved(s', net, cloud, path, lookup, torrentHash) == LocalFile && path in s.disk && s'.disk[path] == s.disk[path]
  {
    ArchivedDisk(s, hash, path, opt, keepSparse, io);
    LocalWhenUnreachable(Archived(s, hash, path, opt, keepSparse, io).0, net, cloud, path, lookup, torrentHash);
  }

  lemma LocalWhenUnreachable(s: Store, net: Net, cloud: Cloud, path: string, lookup: string, torrentHash: string)
    requires path in s.disk && !StubOnDisk(s, path, torrentHash) && forall key :: !net.head(key)
    ensures Resolved(s, net, cloud, path, lookup, torrentHash) == LocalFile
  {
    var f := First(s.rows, ByPath(lookup));
    var exact := if Stored(s, f) then Attempted(KeyOf(s, f)) else [];
    FirstHitSkips(s, net, cloud, exact, [ReadLocal]);
  }

  /** With the paths as the program computes them: the archived content is found again under the raw path,
      although the registry lookup normalises the path a second time. */
  lemma RawPathRoundTrip(env: SandboxPath.Env, raw: string, s: Store, hash: Bytes -> string, opt: Tags, keepSparse: bool,
                         io: ArchiveIO, net: Net, cloud: Cloud, torrentHash: string, path: string)
    requires SandboxPath.IsEnv(env) && raw != "" && LexicalPath.Clean(raw) == raw && SandboxPath.Settles(env, raw)
    requires path == SandboxPath.GetAbsolutePath(env, raw) && path in s.disk
    requires Injective(hash) && Sound(s, hash) && s.enabled && Archives(s, hash, path, opt, keepSparse, io)
    requires net.temp && net.head(hash(s.disk[path])) && net.fetch(hash(s.disk[path]))
    requires var rows := Archived(s, hash, path, opt, keepSparse, io).0.rows;
             First(rows, ByPath(path)).Some? && rows[First(rows, ByPath(path)).value].checksum == hash(s.disk[path])
    ensures var s' := Archived(s, hash, path, opt, keepSparse, io).0;
            Resolved(s', net, cloud, path, SandboxPath.GetAbsolutePath(env, path), torrentHash)
            == if KeyStored(s, hash, path, opt, io) then TempFile(s.disk[path])
               else if path in s'.disk && !StubOnDisk(s', path, torrentHash) then LocalFile
               else Error(UploadPending)
  {
    SandboxPath.IdempotentIffSettles(env, raw);
    ArchiveThenMaterialize(s, hash, path, opt, keepSparse, io, net, cloud, path, torrentHash);
  }

  /** A file below the root, archived and brought back from a store that had nothing: the round trip with and
      without the key stored. */
  lemma RoundTripExample(env: SandboxPath.Env, hash: Bytes -> string, a: Bytes, persist: bool)
    requires SandboxPath.IsEnv(env) && Injective(hash) && hash(a) != ""
    ensures var raw := SandboxPath.Base(env) + "/" + "f";
            var path := SandboxPath.GetAbsolutePath(env, raw);
            var io := ArchiveIO(true, Created, true, true, persist, true, true);
            var s' := Archived(Fresh(map[path := a], true), hash, path, NO_TAGS, false, io).0;
            path !in s'.disk
            && Resolved(s', Net(_ => true, _ => true, true), NoCandidate, path, SandboxPath.GetAbsolutePath(env, path), "")
               == if persist then TempFile(a) else Error(UploadPending)
  {
    var raw := SandboxPath.Base(env) + "/" + "f";
    SandboxPath.PlainNameSettles(env, "f");
    var path := SandboxPath.GetAbsolutePath(env, raw);
    var io := ArchiveIO(true, Created, true, true, persist, true, true);
    var s := Fresh(map[path := a], true);
    var rows := Archived(s, hash, path, NO_TAGS, false, io).0.rows;
    assert rows[0].filePath == path && Matches(ByPath(path), rows[0]);
    RawPathRoundTrip(env, raw, s, hash, NO_TAGS, false, io, Net(_ => true, _ => true, true), NoCandidate, "", path);
  }
}
