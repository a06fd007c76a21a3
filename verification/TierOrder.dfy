/** What `MaterializeForUploadWithTorrent` answers, said on the records, the objects and the file on disk: each
    place is looked in only when every place before it has nothing to give. */
module TierOrder {
  import opened FileStore
  import opened Rehydrate
  import LexicalPath
  import SqlLike
  import opened Wrappers

  // ----- the places

  /** There is a file that is more than the zeros of an archived torrent file. */
  ghost predicate RealFile(s: Store, path: string, torrentHash: string) {
    && path in s.disk
    && (torrentHash == "" || !s.enabled || |s.disk[path]| == 0
        || exists i :: 0 <= i < 4096 && i < |s.disk[path]| && s.disk[path][i] != 0)
  }

  /** The store is enabled and reports an object under the key. */
  ghost predicate There(s: Store, net: Net, key: string) {
    s.enabled && key != "" && key in s.objects && net.head(key)
  }

  /** What reading an object that is there comes to. */
  function Read(s: Store, net: Net, key: string): Resolution
    requires key in s.objects
  {
    if net.temp && net.fetch(key) then TempFile(s.objects[key]) else Error(Transport)
  }

  /** The first record for the path as the lookup spells it. */
  ghost predicate AtPath(s: Store, lookup: string, i: nat) {
    i < |s.rows| && s.rows[i].filePath == lookup && forall j :: 0 <= j < i ==> s.rows[j].filePath != lookup
  }

  ghost predicate OfTorrent(r: Row, torrentHash: string) {
    torrentHash != "" && r.tags.torrentHash == torrentHash && r.s3Key != ""
  }

  /** The first archived record of the torrent. */
  ghost predicate ByHash(s: Store, torrentHash: string, i: nat) {
    i < |s.rows| && OfTorrent(s.rows[i], torrentHash) && forall j :: 0 <= j < i ==> !OfTorrent(s.rows[j], torrentHash)
  }

  ghost predicate NamedLike(r: Row, name: string) {
    SqlLike.Like(r.filePath, "%/" + name) && r.s3Key != ""
  }

  /** The first archived record whose path ends in the name, as `LIKE` compares. */
  ghost predicate ByName(s: Store, name: string, i: nat) {
    i < |s.rows| && NamedLike(s.rows[i], name) && forall j :: 0 <= j < i ==> !NamedLike(s.rows[j], name)
  }

  /** The first record whose key is the name. */
  ghost predicate ByNamedKey(s: Store, name: string, i: nat) {
    i < |s.rows| && s.rows[i].s3Key == name && forall j :: 0 <= j < i ==> s.rows[j].s3Key != name
  }

  /** The first record whose checksum is the name. */
  ghost predicate ByNamedChecksum(s: Store, name: string, i: nat) {
    i < |s.rows| && s.rows[i].checksum == name && forall j :: 0 <= j < i ==> s.rows[j].checksum != name
  }

  /** At least sixteen characters, an even number, each a digit or a lower-case letter up to f. */
  ghost predicate LooksLikeKey(name: string) {
    |name| >= 16 && |name| % 2 == 0 && forall i :: 0 <= i < |name| ==> name[i] in "0123456789abcdef"
  }

  ghost predicate SomeName(name: string) {
    name != "" && name != "."
  }

  // ----- nothing there

  /** No record has the path, or it has a key whose object is gone. */
  ghost predicate NoExactObject(s: Store, net: Net, lookup: string) {
    forall i: nat :: AtPath(s, lookup, i) ==> s.enabled && s.rows[i].s3Key != "" && !There(s, net, s.rows[i].s3Key)
  }

  ghost predicate NoTorrentRecord(s: Store, torrentHash: string) {
    forall i: nat :: !ByHash(s, torrentHash, i)
  }

  /** The archived record found by torrent hash, or else by name, has no object either. */
  ghost predicate NoAlternateObject(s: Store, net: Net, torrentHash: string, name: string) {
    && (forall i: nat :: ByHash(s, torrentHash, i) ==> !There(s, net, s.rows[i].s3Key))
    && (NoTorrentRecord(s, torrentHash) && SomeName(name) ==> forall i: nat :: ByName(s, name, i) ==> !There(s, net, s.rows[i].s3Key))
  }

  ghost predicate NoKeyRecord(s: Store, name: string) {
    forall i: nat :: !ByNamedKey(s, name, i)
  }

  /** The record whose key is the name has no object; without one, neither does the one whose checksum it is. */
  ghost predicate NoNamedObject(s: Store, net: Net, name: string) {
    SomeName(name) ==>
      && ((exists i: nat :: ByNamedKey(s, name, i)) ==> !There(s, net, name))
      && (NoKeyRecord(s, name) ==> forall i: nat :: ByNamedChecksum(s, name, i) ==> !There(s, net, s.rows[i].s3Key))
  }

  /** The state of affairs in which the call looks further than the exact record and the local file. */
  ghost predicate Recovers(s: Store, net: Net, path: string, lookup: string, torrentHash: string) {
    !RealFile(s, path, torrentHash) && NoExactObject(s, net, lookup)
  }

  // ----- the searches find these records

  lemma StubIffNotReal(s: Store, path: string, torrentHash: string)
    ensures RealFile(s, path, torrentHash) <==> path in s.disk && !StubOnDisk(s, path, torrentHash)
  {
  }

  lemma FirstAtPath(s: Store, lookup: string, i: nat)
    ensures AtPath(s, lookup, i) <==> First(s.rows, ByPath(lookup)) == Some(i)
  {
    if AtPath(s, lookup, i) {
      assert Matches(ByPath(lookup), s.rows[i]);
    }
  }

  lemma FirstOfTorrent(s: Store, torrentHash: string, i: nat)
    ensures ByHash(s, torrentHash, i) <==> torrentHash != "" && First(s.rows, ByTorrentArchived(torrentHash)) == Some(i)
  {
    if torrentHash != "" {
      assert forall r :: Matches(ByTorrentArchived(torrentHash), r) <==> OfTorrent(r, torrentHash);
    }
  }

  lemma FirstNamed(s: Store, name: string, i: nat)
    ensures ByName(s, name, i) <==> First(s.rows, ByPathLikeArchived("%/" + name)) == Some(i)
  {
    assert forall r :: Matches(ByPathLikeArchived("%/" + name), r) <==> NamedLike(r, name);
  }

  lemma FirstNamedKey(s: Store, name: string, i: nat)
    ensures ByNamedKey(s, name, i) <==> First(s.rows, ByKey(name)) == Some(i)
  {
    assert forall r :: Matches(ByKey(name), r) <==> r.s3Key == name;
  }

  lemma FirstNamedChecksum(s: Store, name: string, i: nat)
    ensures ByNamedChecksum(s, name, i) <==> First(s.rows, FileStore.ByChecksum(name)) == Some(i)
  {
    assert forall r :: Matches(FileStore.ByChecksum(name), r) <==> r.checksum == name;
  }

  // ----- one attempt after the other

  /** An attempt at an object that is there settles the call. */
  lemma ThereSettles(s: Store, net: Net, cloud: Cloud, key: string, rest: seq<Attempt>)
    requires There(s, net, key)
    ensures FirstHit(s, net, cloud, [Object(key)] + rest) == Read(s, net, key)
  {
  }

  lemma SkipMissing(s: Store, net: Net, cloud: Cloud, key: Option<string>, rest: seq<Attempt>)
    requires key.Some? ==> !There(s, net, key.value)
    ensures FirstHit(s, net, cloud, Attempted(key) + rest) == FirstHit(s, net, cloud, rest)
  {
    FirstHitSkips(s, net, cloud, Attempted(key), rest);
  }

  /** The exact record's attempt comes to nothing, and the rest of the list follows. */
  lemma RecoversByList(s: Store, net: Net, cloud: Cloud, path: string, lookup: string, torrentHash: string)
    requires Recovers(s, net, path, lookup, torrentHash)
    ensures Resolved(s, net, cloud, path, lookup, torrentHash) == FirstHit(s, net, cloud, Recovery(s, path, torrentHash))
  {
    StubIffNotReal(s, path, torrentHash);
    var f := First(s.rows, ByPath(lookup));
    if f.Some? {
      FirstAtPath(s, lookup, f.value);
      SkipMissing(s, net, cloud, KeyOf(s, f), Recovery(s, path, torrentHash));
    } else {
      assert [] + Recovery(s, path, torrentHash) == Recovery(s, path, torrentHash);
    }
  }

  /** The list behind the record found by hash or by name. */
  function AfterAlternate(s: Store, path: string): seq<Attempt> {
    Attempted(KeyOf(s, KeyByName(s, path))) + (Attempted(KeyOf(s, ChecksumByName(s, path))) + AfterNames(s, path))
  }

  function AfterNames(s: Store, path: string): seq<Attempt> {
    Attempted(RawKey(s, path)) + Last(s, path)
  }

  function Last(s: Store, path: string): seq<Attempt> {
    [CloudIndex, if path in s.disk then ReadLocal else Refuse(NotFound)]
  }

  /** The key the alternate search yields. */
  lemma AlternateByHash(s: Store, path: string, torrentHash: string, i: nat)
    requires ByHash(s, torrentHash, i)
    ensures AlternateKey(s, path, torrentHash) == Some(s.rows[i].s3Key)
  {
    FirstOfTorrent(s, torrentHash, i);
  }

  lemma AlternateByName(s: Store, path: string, torrentHash: string, i: nat)
    requires NoTorrentRecord(s, torrentHash)
    requires SomeName(LexicalPath.BaseName(path)) && ByName(s, LexicalPath.BaseName(path), i)
    ensures AlternateKey(s, path, torrentHash) == Some(s.rows[i].s3Key)
  {
    var byHash := First(s.rows, ByTorrentArchived(torrentHash));
    if torrentHash != "" && byHash.Some? {
      FirstOfTorrent(s, torrentHash, byHash.value);
    }
    FirstNamed(s, LexicalPath.BaseName(path), i);
  }

  lemma AlternateIsMissing(s: Store, net: Net, path: string, torrentHash: string)
    requires NoAlternateObject(s, net, torrentHash, LexicalPath.BaseName(path))
    ensures AlternateKey(s, path, torrentHash).Some? ==> !There(s, net, AlternateKey(s, path, torrentHash).value)
  {
    var name := LexicalPath.BaseName(path);
    var byHash, byName := First(s.rows, ByTorrentArchived(torrentHash)), First(s.rows, ByPathLikeArchived("%/" + name));
    if torrentHash != "" && byHash.Some? {
      FirstOfTorrent(s, torrentHash, byHash.value);
    } else {
      forall i: nat ensures !ByHash(s, torrentHash, i) {
        FirstOfTorrent(s, torrentHash, i);
      }
      if byName.Some? {
        FirstNamed(s, name, byName.value);
      }
    }
  }

  lemma PastAlternate(s: Store, net: Net, cloud: Cloud, path: string, lookup: string, torrentHash: string)
    requires Recovers(s, net, path, lookup, torrentHash) && NoAlternateObject(s, net, torrentHash, LexicalPath.BaseName(path))
    ensures Resolved(s, net, cloud, path, lookup, torrentHash) == FirstHit(s, net, cloud, AfterAlternate(s, path))
  {
    RecoversByList(s, net, cloud, path, lookup, torrentHash);
    AlternateIsMissing(s, net, path, torrentHash);
    SkipMissing(s, net, cloud, AlternateKey(s, path, torrentHash), AfterAlternate(s, path));
  }

  lemma NamedKeyIsMissing(s: Store, net: Net, path: string)
    requires NoNamedObject(s, net, LexicalPath.BaseName(path))
    ensures KeyOf(s, KeyByName(s, path)).Some? ==> !There(s, net, KeyOf(s, KeyByName(s, path)).value)
  {
    var f := KeyByName(s, path);
    if f.Some? {
      FirstNamedKey(s, LexicalPath.BaseName(path), f.value);
    }
  }

  lemma NamedChecksumIsMissing(s: Store, net: Net, path: string)
    requires NoNamedObject(s, net, LexicalPath.BaseName(path))
    ensures KeyOf(s, ChecksumByName(s, path)).Some? ==> !There(s, net, KeyOf(s, ChecksumByName(s, path)).value)
  {
    var name, f, g := LexicalPath.BaseName(path), KeyByName(s, path), ChecksumByName(s, path);
    if f.Some? {
      NamedKeyIsMissing(s, net, path);
    } else if g.Some? {
      forall i: nat ensures !ByNamedKey(s, name, i) {
        FirstNamedKey(s, name, i);
      }
      FirstNamedChecksum(s, name, g.value);
    }
  }

  lemma PastNames(s: Store, net: Net, cloud: Cloud, path: string)
    requires NoNamedObject(s, net, LexicalPath.BaseName(path))
    ensures FirstHit(s, net, cloud, AfterAlternate(s, path)) == FirstHit(s, net, cloud, AfterNames(s, path))
  {
    NamedKeyIsMissing(s, net, path);
    NamedChecksumIsMissing(s, net, path);
    var byChecksum := Attempted(KeyOf(s, ChecksumByName(s, path))) + AfterNames(s, path);
    SkipMissing(s, net, cloud, KeyOf(s, KeyByName(s, path)), byChecksum);
    SkipMissing(s, net, cloud, KeyOf(s, ChecksumByName(s, path)), AfterNames(s, path));
  }

  lemma HexIffLooksLikeKey(name: string)
    ensures IsHexKey(name) <==> LooksLikeKey(name)
  {
    assert forall c: char :: c in "0123456789abcdef" <==> '0' <= c <= '9' || 'a' <= c <= 'f';
  }

  // ----- the order

  /** The path's first record has an object that is there: it is read, whatever else there is. */
  lemma ExactObjectIsRead(s: Store, net: Net, cloud: Cloud, path: string, lookup: string, torrentHash: string, i: nat)
    requires AtPath(s, lookup, i) && There(s, net, s.rows[i].s3Key)
    ensures Resolved(s, net, cloud, path, lookup, torrentHash) == Read(s, net, s.rows[i].s3Key)
  {
    FirstAtPath(s, lookup, i);
  }

  /** Else a real local file is used. */
  lemma LocalFileIsUsed(s: Store, net: Net, cloud: Cloud, path: string, lookup: string, torrentHash: string)
    requires RealFile(s, path, torrentHash)
    requires forall i: nat :: AtPath(s, lookup, i) ==> !There(s, net, s.rows[i].s3Key)
    ensures Resolved(s, net, cloud, path, lookup, torrentHash) == LocalFile
  {
    StubIffNotReal(s, path, torrentHash);
    var f := First(s.rows, ByPath(lookup));
    if f.Some? {
      FirstAtPath(s, lookup, f.value);
    }
    var exact := if Stored(s, f) then KeyOf(s, f) else None;
    SkipMissing(s, net, cloud, exact, [ReadLocal]);
  }

  /** Else a record without a key, or any record while the store is disabled, means that the upload is pending. */
  lemma PendingIsRefused(s: Store, net: Net, cloud: Cloud, path: string, lookup: string, torrentHash: string, i: nat)
    requires !RealFile(s, path, torrentHash) && AtPath(s, lookup, i) && (s.rows[i].s3Key == "" || !s.enabled)
    ensures Resolved(s, net, cloud, path, lookup, torrentHash) == Error(UploadPending)
  {
    StubIffNotReal(s, path, torrentHash);
    FirstAtPath(s, lookup, i);
  }

  /** Else the object of the torrent's first archived record is read when it is there, whatever the file is called
      and whatever the cloud holds. */
  lemma TorrentObjectIsRead(s: Store, net: Net, cloud: Cloud, path: string, lookup: string, torrentHash: string, i: nat)
    requires Recovers(s, net, path, lookup, torrentHash)
    requires ByHash(s, torrentHash, i) && There(s, net, s.rows[i].s3Key)
    ensures Resolved(s, net, cloud, path, lookup, torrentHash) == Read(s, net, s.rows[i].s3Key)
  {
    RecoversByList(s, net, cloud, path, lookup, torrentHash);
    AlternateByHash(s, path, torrentHash, i);
    ThereSettles(s, net, cloud, s.rows[i].s3Key, AfterAlternate(s, path));
  }

  /** Else, only if no archived record has the hash, the object of the first archived record whose path ends in the
      file's name. */
  lemma NamesakeObjectIsRead(s: Store, net: Net, cloud: Cloud, path: string, lookup: string, torrentHash: string, i: nat)
    requires Recovers(s, net, path, lookup, torrentHash) && NoTorrentRecord(s, torrentHash)
    requires SomeName(LexicalPath.BaseName(path)) && ByName(s, LexicalPath.BaseName(path), i) && There(s, net, s.rows[i].s3Key)
    ensures Resolved(s, net, cloud, path, lookup, torrentHash) == Read(s, net, s.rows[i].s3Key)
  {
    RecoversByList(s, net, cloud, path, lookup, torrentHash);
    AlternateByName(s, path, torrentHash, i);
    ThereSettles(s, net, cloud, s.rows[i].s3Key, AfterAlternate(s, path));
  }

  /** Else the object whose key is the file's name, when a record has that key. */
  lemma NamedKeyIsRead(s: Store, net: Net, cloud: Cloud, path: string, lookup: string, torrentHash: string, i: nat)
    requires Recovers(s, net, path, lookup, torrentHash) && NoAlternateObject(s, net, torrentHash, LexicalPath.BaseName(path))
    requires SomeName(LexicalPath.BaseName(path)) && ByNamedKey(s, LexicalPath.BaseName(path), i)
    requires There(s, net, LexicalPath.BaseName(path))
    ensures Resolved(s, net, cloud, path, lookup, torrentHash) == Read(s, net, LexicalPath.BaseName(path))
  {
    PastAlternate(s, net, cloud, path, lookup, torrentHash);
    FirstNamedKey(s, LexicalPath.BaseName(path), i);
    ThereSettles(s, net, cloud, LexicalPath.BaseName(path), Attempted(KeyOf(s, ChecksumByName(s, path))) + AfterNames(s, path));
  }

  /** Else, only if no record has the name for its key, the object of the record whose checksum is the name. */
  lemma NamedChecksumIsRead(s: Store, net: Net, cloud: Cloud, path: string, lookup: string, torrentHash: string, i: nat)
    requires Recovers(s, net, path, lookup, torrentHash) && NoAlternateObject(s, net, torrentHash, LexicalPath.BaseName(path))
    requires SomeName(LexicalPath.BaseName(path)) && NoKeyRecord(s, LexicalPath.BaseName(path))
    requires ByNamedChecksum(s, LexicalPath.BaseName(path), i) && There(s, net, s.rows[i].s3Key)
    ensures Resolved(s, net, cloud, path, lookup, torrentHash) == Read(s, net, s.rows[i].s3Key)
  {
    PastAlternate(s, net, cloud, path, lookup, torrentHash);
    var f := KeyByName(s, path);
    if f.Some? {
      FirstNamedKey(s, LexicalPath.BaseName(path), f.value);
    }
    FirstNamedChecksum(s, LexicalPath.BaseName(path), i);
    assert [] + (Attempted(KeyOf(s, ChecksumByName(s, path))) + AfterNames(s, path)) == AfterAlternate(s, path);
    ThereSettles(s, net, cloud, s.rows[i].s3Key, AfterNames(s, path));
  }

  /** Else, without any record, the object under the file's name, when the name looks like a key. */
  lemma RawKeyIsRead(s: Store, net: Net, cloud: Cloud, path: string, lookup: string, torrentHash: string)
    requires Recovers(s, net, path, lookup, torrentHash) && NoAlternateObject(s, net, torrentHash, LexicalPath.BaseName(path))
    requires NoNamedObject(s, net, LexicalPath.BaseName(path))
    requires LooksLikeKey(LexicalPath.BaseName(path)) && There(s, net, LexicalPath.BaseName(path))
    ensures Resolved(s, net, cloud, path, lookup, torrentHash) == Read(s, net, LexicalPath.BaseName(path))
  {
    PastAlternate(s, net, cloud, path, lookup, torrentHash);
    PastNames(s, net, cloud, path);
    HexIffLooksLikeKey(LexicalPath.BaseName(path));
    ThereSettles(s, net, cloud, LexicalPath.BaseName(path), Last(s, path));
  }

  /** No object can be found by any record or by the name. */
  ghost predicate NoObject(s: Store, net: Net, torrentHash: string, name: string) {
    && NoAlternateObject(s, net, torrentHash, name) && NoNamedObject(s, net, name)
    && (LooksLikeKey(name) ==> !There(s, net, name))
  }

  /** Only when none of these objects is there does the cloud decide: a copy it yields is handed out, and candidates
      that all fail are an error. Only without a candidate is the stub used, or nothing found. */
  lemma CloudDecidesLast(s: Store, net: Net, cloud: Cloud, path: string, lookup: string, torrentHash: string)
    requires Recovers(s, net, path, lookup, torrentHash) && NoObject(s, net, torrentHash, LexicalPath.BaseName(path))
    ensures Resolved(s, net, cloud, path, lookup, torrentHash)
         == match cloud
            case Fetched(c) => TempFile(c)
            case AllFailed => Error(CloudFailed)
            case NoCandidate => if path in s.disk then LocalFile else Error(NotFound)
  {
    PastAlternate(s, net, cloud, path, lookup, torrentHash);
    PastNames(s, net, cloud, path);
    HexIffLooksLikeKey(LexicalPath.BaseName(path));
    SkipMissing(s, net, cloud, RawKey(s, path), Last(s, path));
  }

  // ----- the cloud index

  /** A whole stream that is not empty. */
  ghost predicate Whole(c: Candidate) {
    c.Streamed? && |c.content| > 0
  }

  lemma {:induction false} FirstWhole(candidates: seq<Candidate>, i: nat)
    requires i < |candidates| && Whole(candidates[i]) && forall j :: 0 <= j < i ==> !Whole(candidates[j])
    ensures FirstUsable(candidates) == Fetched(candidates[i].content)
  {
    if i > 0 {
      FirstWhole(candidates[1..], i - 1);
    }
  }

  lemma {:induction false} NoneWhole(candidates: seq<Candidate>)
    requires forall j :: 0 <= j < |candidates| ==> !Whole(candidates[j])
    ensures FirstUsable(candidates) == AllFailed
  {
    if candidates != [] {
      NoneWhole(candidates[1..]);
    }
  }

  /** The cloud yields the first candidate that comes in whole and not empty; it fails when there are candidates and
      none does; it has none when there is no candidate or the path no name. */
  lemma CloudYieldsFirstWhole(path: string, candidates: seq<Candidate>)
    ensures var b := LexicalPath.BaseName(path);
            && (candidates == [] || b == "" || b == "." || b == "/" <==> CloudAnswer(path, candidates) == NoCandidate)
            && (forall i :: 0 <= i < |candidates| && Whole(candidates[i]) && (forall j :: 0 <= j < i ==> !Whole(candidates[j]))
                  ==> CloudAnswer(path, candidates) == NoCandidate || CloudAnswer(path, candidates) == Fetched(candidates[i].content))
            && ((forall j :: 0 <= j < |candidates| ==> !Whole(candidates[j]))
                  ==> CloudAnswer(path, candidates) == NoCandidate || CloudAnswer(path, candidates) == AllFailed)
  {
    forall i | 0 <= i < |candidates| && Whole(candidates[i]) && (forall j :: 0 <= j < i ==> !Whole(candidates[j]))
      ensures FirstUsable(candidates) == Fetched(candidates[i].content)
    {
      FirstWhole(candidates, i);
    }
    if forall j :: 0 <= j < |candidates| ==> !Whole(candidates[j]) {
      NoneWhole(candidates);
    }
    UsableOrFailed(candidates);
  }

  lemma {:induction false} UsableOrFailed(candidates: seq<Candidate>)
    ensures FirstUsable(candidates) != NoCandidate
  {
    if candidates != [] {
      UsableOrFailed(candidates[1..]);
    }
  }
}
