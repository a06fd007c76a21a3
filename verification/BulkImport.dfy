/** The collecting side of the bulk resolver import: results of the line workers and timer ticks arrive in
    any order, resolvers are deduplicated by key and written in batches. */
module BulkImport {

  const MAX_BATCH_SIZE := 100

  /** `detail` stands for the columns that play no part in deduplication. */
  datatype Resolver = Resolver(ip: string, protocol: string, detail: string)

  /** What the collector receives; a result carries everything one input line gave. */
  datatype Event = Result(resolvers: seq<Resolver>) | Tick

  datatype Progress = Progress(processed: nat, added: nat, duplicates: nat)

  function Key(r: Resolver): string {
    r.ip + ":" + r.protocol
  }

  function Keys(rs: seq<Resolver>): set<string> {
    set i | 0 <= i < |rs| :: Key(rs[i])
  }

  // ----- the reference: first arrivals

  /** The `i`-th arrival is the first with its key, and the database does not have the key. */
  predicate IsNew(rs: seq<Resolver>, i: nat, known: set<string>)
    requires i < |rs|
  {
    Key(rs[i]) !in known && forall j :: 0 <= j < i ==> Key(rs[j]) != Key(rs[i])
  }

  function FirstArrivals(rs: seq<Resolver>, known: set<string>): seq<Resolver> {
    if rs == [] then []
    else FirstArrivals(rs[..|rs| - 1], known) + (if IsNew(rs, |rs| - 1, known) then [rs[|rs| - 1]] else [])
  }

  lemma FirstArrivalsSnoc(rs: seq<Resolver>, r: Resolver, known: set<string>)
    ensures FirstArrivals(rs + [r], known)
         == FirstArrivals(rs, known) + (if IsNew(rs + [r], |rs|, known) then [r] else [])
  {
    assert (rs + [r])[..|rs|] == rs;
  }

  /** The batches put end to end. */
  function Joined(batches: seq<seq<Resolver>>): seq<Resolver> {
    if batches == [] then [] else Joined(batches[..|batches| - 1]) + batches[|batches| - 1]
  }

  lemma JoinedSnoc(batches: seq<seq<Resolver>>, b: seq<Resolver>)
    ensures Joined(batches + [b]) == Joined(batches) + b
  {
    assert (batches + [b])[..|batches|] == batches;
  }

  function Given(e: Event): seq<Resolver> {
    match e
    case Result(rs) => rs
    case Tick => []
  }

  /** All resolvers in the order they arrive; ticks leave no trace. */
  function Arrivals(events: seq<Event>): seq<Resolver> {
    if events == [] then []
    else Arrivals(events[..|events| - 1]) + Given(events[|events| - 1])
  }

  /** Some resolver of the line is new after `before` arrived. */
  predicate Contributes(before: seq<Resolver>, line: seq<Resolver>, known: set<string>) {
    exists i :: |before| <= i < |before + line| && IsNew(before + line, i, known)
  }

  /** The number of lines, of those that gave a new resolver, and of those that gave only known ones. */
  function Totals(events: seq<Event>, known: set<string>): Progress {
    if events == [] then Progress(0, 0, 0)
    else
      var p := Totals(events[..|events| - 1], known);
      match events[|events| - 1]
      case Tick => p
      case Result(rs) =>
        var isAdded := Contributes(Arrivals(events[..|events| - 1]), rs, known);
        Progress(p.processed + 1,
                 p.added + (if isAdded then 1 else 0),
                 p.duplicates + (if rs != [] && !isAdded then 1 else 0))
  }

  /** A tick counts nothing and brings nothing. */
  lemma TickCountsNothing(events: seq<Event>, known: set<string>)
    ensures Totals(events + [Tick], known) == Totals(events, known) && Arrivals(events + [Tick]) == Arrivals(events)
  {
    var all := events + [Tick];
    assert all[..|events|] == events && all[|events|] == Tick;
    assert Arrivals(events) + [] == Arrivals(events);
  }

  lemma ResultCounts(events: seq<Event>, line: seq<Resolver>, known: set<string>)
    ensures Arrivals(events + [Result(line)]) == Arrivals(events) + line
    ensures var p, isAdded := Totals(events, known), Contributes(Arrivals(events), line, known);
            Totals(events + [Result(line)], known)
            == Progress(p.processed + 1, p.added + (if isAdded then 1 else 0),
                        p.duplicates + (if line != [] && !isAdded then 1 else 0))
  {
    var all := events + [Result(line)];
    assert all[..|events|] == events && all[|events|] == Result(line);
  }

  /** Whatever was written meanwhile went out in writes of exactly a hundred. */
  ghost predicate FullWrites(before: seq<seq<Resolver>>, after: seq<seq<Resolver>>) {
    before <= after && forall i :: |before| <= i < |after| ==> |after[i]| == 100
  }

  // ----- the collector

  class Collector {
    const known: set<string>
    var batchQueue: seq<Resolver>
    var seenInRun: set<string>
    var writes: seq<seq<Resolver>>
    var progress: Progress
    ghost var arrived: seq<Resolver>

    ghost predicate Valid()
      reads this
    {
      && |batchQueue| < MAX_BATCH_SIZE
      && (forall b :: b in writes ==> 1 <= |b| <= MAX_BATCH_SIZE)
      && Joined(writes) + batchQueue == FirstArrivals(arrived, known)
      && seenInRun == Keys(arrived) - known
    }

    constructor (existing: set<string>)
      ensures Valid() && known == existing && arrived == [] && batchQueue == [] && writes == []
      ensures progress == Progress(0, 0, 0)
    {
      known, batchQueue, seenInRun, writes, arrived := existing, [], {}, [], [];
      progress := Progress(0, 0, 0);
    }

    method FlushBatch()
      requires |batchQueue| <= MAX_BATCH_SIZE
      requires forall b :: b in writes ==> 1 <= |b| <= MAX_BATCH_SIZE
      modifies `batchQueue, `writes
      ensures batchQueue == [] && Joined(writes) == old(Joined(writes) + batchQueue)
      ensures writes == old(if batchQueue == [] then writes else writes + [batchQueue])
      ensures forall b :: b in writes ==> 1 <= |b| <= MAX_BATCH_SIZE
    {
      if |batchQueue| == 0 {
        return;
      }
      JoinedSnoc(writes, batchQueue);
      writes := writes + [batchQueue];
      batchQueue := [];
    }

    method Enqueue(r: Resolver)
      requires |batchQueue| < MAX_BATCH_SIZE && forall b :: b in writes ==> 1 <= |b| <= MAX_BATCH_SIZE
      modifies `batchQueue, `writes
      ensures |batchQueue| < MAX_BATCH_SIZE && forall b :: b in writes ==> 1 <= |b| <= MAX_BATCH_SIZE
      ensures Joined(writes) + batchQueue == old(Joined(writes) + batchQueue) + [r]
      ensures FullWrites(old(writes), writes)
      ensures |old(batchQueue)| < 99 ==> writes == old(writes) && batchQueue == old(batchQueue) + [r]
      ensures |old(batchQueue)| == 99 ==> writes == old(writes) + [old(batchQueue) + [r]] && batchQueue == []
    {
      batchQueue := batchQueue + [r];
      if |batchQueue| >= MAX_BATCH_SIZE {
        FlushBatch();
      }
    }

    method Offer(r: Resolver) returns (isNew: bool)
      requires Valid()
      modifies `batchQueue, `seenInRun, `writes, `arrived
      ensures Valid() && arrived == old(arrived) + [r]
      ensures isNew == IsNew(arrived, |arrived| - 1, known)
      ensures FullWrites(old(writes), writes)
      ensures !isNew ==> writes == old(writes) && batchQueue == old(batchQueue)
    {
      FirstArrivalsSnoc(arrived, r, known);
      KeysSnoc(arrived, r);
      SeenIffNotNew(arrived, r, known);
      arrived := arrived + [r];
      if Key(r) in known || Key(r) in seenInRun {
        return false;
      }
      seenInRun := seenInRun + {Key(r)};
      Enqueue(r);
      return true;
    }

    /** The resolvers of one line, one after the other. */
    method OfferAll(line: seq<Resolver>) returns (addedCount: nat)
      requires Valid()
      modifies `batchQueue, `seenInRun, `writes, `arrived
      ensures Valid() && arrived == old(arrived) + line
      ensures addedCount > 0 <==> Contributes(old(arrived), line, known)
      ensures FullWrites(old(writes), writes)
    {
      ghost var before := arrived;
      addedCount := 0;
      var i := 0;
      while i < |line|
        invariant i <= |line| && Valid()
        invariant FullWrites(old(writes), writes)
        invariant arrived == before + line[..i]
        invariant addedCount > 0 <==> Contributes(before, line[..i], known)
      {
        ContributesSnoc(before, line[..i], line[i], known);
        OneFurther(before, line, i);
        var isNew := Offer(line[i]);
        if isNew {
          addedCount := addedCount + 1;
        }
        i := i + 1;
      }
      assert line[..i] == line;
    }

    method Receive(line: seq<Resolver>)
      requires Valid()
      modifies this
      ensures Valid() && arrived == old(arrived) + line
      ensures progress.processed == old(progress).processed + 1
      ensures progress.added == old(progress).added + (if Contributes(old(arrived), line, known) then 1 else 0)
      ensures progress.duplicates == old(progress).duplicates
                + (if line != [] && !Contributes(old(arrived), line, known) then 1 else 0)
      ensures FullWrites(old(writes), writes)
    {
      var addedCount := OfferAll(line);
      progress := progress.(processed := progress.processed + 1);
      if addedCount > 0 {
        progress := progress.(added := progress.added + 1);
      }
      if |line| > 0 && addedCount == 0 {
        progress := progress.(duplicates := progress.duplicates + 1);
      }
    }

    /** The collector stands where the events of `past` bring it. */
    ghost predicate Follows(past: seq<Event>)
      reads this
    {
      Valid() && arrived == Arrivals(past) && progress == Totals(past, known)
    }

    /** The timer writes what is queued. */
    method FlushOnTick()
      requires Valid()
      modifies `batchQueue, `writes
      ensures Valid() && batchQueue == []
      ensures writes == old(if batchQueue == [] then writes else writes + [batchQueue])
    {
      FlushBatch();
      assert Joined(writes) + batchQueue == Joined(writes);
    }

    /** One turn of the loop; `past` are the events before it. */
    method Handle(e: Event, ghost past: seq<Event>)
      requires Follows(past)
      modifies this
      ensures Follows(past + [e])
      ensures e.Tick? ==> batchQueue == [] && writes == old(if batchQueue == [] then writes else writes + [batchQueue])
      ensures e.Result? ==> FullWrites(old(writes), writes)
    {
      match e {
        case Result(rs) =>
          ResultCounts(past, rs, known);
          Receive(rs);
        case Tick =>
          TickCountsNothing(past, known);
          FlushOnTick();
      }
    }

    /** The result channel is closed. */
    method Finish(ghost events: seq<Event>)
      requires Follows(events)
      modifies `batchQueue, `writes
      ensures Joined(writes) == FirstArrivals(Arrivals(events), known) && batchQueue == []
      ensures forall b :: b in writes ==> 1 <= |b| <= MAX_BATCH_SIZE
    {
      FlushBatch();
    }

    /** The whole loop, up to the closing of the result channel. */
    method Run(events: seq<Event>)
      requires Follows([])
      modifies this
      ensures Joined(writes) == FirstArrivals(Arrivals(events), known) && batchQueue == []
      ensures forall b :: b in writes ==> 1 <= |b| <= MAX_BATCH_SIZE
      ensures progress == Totals(events, known)
    {
      for i := 0 to |events|
        invariant Follows(events[..i])
      {
        assert events[..i] + [events[i]] == events[..i + 1];
        Handle(events[i], events[..i]);
      }
      assert events[..|events|] == events;
      Finish(events);
    }
  }

  lemma OneFurther(before: seq<Resolver>, line: seq<Resolver>, i: nat)
    requires i < |line|
    ensures line[..i] + [line[i]] == line[..i + 1]
    ensures before + line[..i] + [line[i]] == before + line[..i + 1]
  {
    assert line[..i] + [line[i]] == line[..i + 1];
  }

  lemma KeysSnoc(rs: seq<Resolver>, r: Resolver)
    ensures Keys(rs + [r]) == Keys(rs) + {Key(r)}
  {
    var all := rs + [r];
    assert Key(all[|rs|]) == Key(r);
    forall k | k in Keys(rs) ensures k in Keys(all) {
      var i :| 0 <= i < |rs| && Key(rs[i]) == k;
      assert Key(all[i]) == k;
    }
  }

  lemma SeenIffNotNew(rs: seq<Resolver>, r: Resolver, known: set<string>)
    ensures IsNew(rs + [r], |rs|, known) <==> Key(r) !in known && Key(r) !in Keys(rs)
  {
    var all := rs + [r];
    if Key(r) in Keys(rs) {
      var i :| 0 <= i < |rs| && Key(rs[i]) == Key(r);
      assert Key(all[i]) == Key(all[|rs|]);
    }
    forall j | 0 <= j < |rs| && Key(all[j]) == Key(r) ensures Key(r) in Keys(rs) {
      assert Key(rs[j]) == Key(r);
    }
  }

  lemma NewnessIsLocal(rs: seq<Resolver>, r: Resolver, i: nat, known: set<string>)
    requires i < |rs|
    ensures IsNew(rs + [r], i, known) <==> IsNew(rs, i, known)
  {
    var all := rs + [r];
    assert all[i] == rs[i];
    assert forall j :: 0 <= j < i ==> all[j] == rs[j];
  }

  lemma ContributesSnoc(before: seq<Resolver>, line: seq<Resolver>, r: Resolver, known: set<string>)
    ensures Contributes(before, line + [r], known)
       <==> Contributes(before, line, known) || IsNew(before + line + [r], |before + line|, known)
  {
    var all := before + line;
    assert before + (line + [r]) == all + [r];
    forall i: nat | i < |all| ensures IsNew(all + [r], i, known) <==> IsNew(all, i, known) {
      NewnessIsLocal(all, r, i, known);
    }
    if Contributes(before, line, known) {
      var i :| |before| <= i < |all| && IsNew(all, i, known);
      assert IsNew(all + [r], i, known);
    }
  }

  // ----- what the reference means

  /** The import writes each key once, and exactly the keys that were not there. Whatever order the workers
      finish in, and wherever the ticks fall, the set of keys written is the same. */
  lemma {:induction false} WritesMissingKeysOnce(rs: seq<Resolver>, known: set<string>)
    ensures Keys(FirstArrivals(rs, known)) == Keys(rs) - known
    ensures forall i, j :: 0 <= i < j < |FirstArrivals(rs, known)| ==>
              Key(FirstArrivals(rs, known)[i]) != Key(FirstArrivals(rs, known)[j])
  {
    if rs != [] {
      var front, r := rs[..|rs| - 1], rs[|rs| - 1];
      assert front + [r] == rs;
      WritesMissingKeysOnce(front, known);
      FirstArrivalsSnoc(front, r, known);
      SeenIffNotNew(front, r, known);
      KeysSnoc(front, r);
      var got := FirstArrivals(front, known);
      KeysSnoc(got, r);
      assert FirstArrivals(rs, known) == got + (if IsNew(rs, |front|, known) then [r] else []);
      if IsNew(rs, |front|, known) {
        assert Keys(rs) - known == (Keys(front) - known) + {Key(r)};
      } else {
        assert got + [] == got;
        assert Keys(rs) - known == Keys(front) - known;
      }
      forall i | 0 <= i < |got| ensures Key(got[i]) in Keys(front) {
        assert Key(got[i]) in Keys(got);
      }
    }
  }

  /** Importing again what was imported writes nothing. */
  lemma {:induction false} ImportTwiceAddsNothing(rs: seq<Resolver>, known: set<string>)
    requires Keys(rs) <= known
    ensures FirstArrivals(rs, known) == []
  {
    if rs != [] {
      var front := rs[..|rs| - 1];
      KeysSnoc(front, rs[|rs| - 1]);
      assert rs == front + [rs[|rs| - 1]];
      ImportTwiceAddsNothing(front, known);
    }
  }

  function ResultCount(events: seq<Event>): nat {
    if events == [] then 0
    else ResultCount(events[..|events| - 1]) + (if events[|events| - 1].Result? then 1 else 0)
  }

  function EmptyResults(events: seq<Event>): nat {
    if events == [] then 0
    else EmptyResults(events[..|events| - 1]) + (if events[|events| - 1] == Result([]) then 1 else 0)
  }

  /** Every line is accounted for: it added something, it was a duplicate, or it was empty. */
  lemma {:induction false} ProgressAddsUp(events: seq<Event>, known: set<string>)
    ensures var p := Totals(events, known);
            p.processed == ResultCount(events) == p.added + p.duplicates + EmptyResults(events)
  {
    if events != [] {
      ProgressAddsUp(events[..|events| - 1], known);
    }
  }

  // ----- the key

  /** `long` continues the address of `short` past a colon that `short` has in its protocol. */
  predicate Overlaps(short: Resolver, long: Resolver) {
    && |short.ip| < |long.ip|
    && long.ip[..|short.ip| + 1] == short.ip + ":"
    && short.protocol == long.ip[|short.ip| + 1..] + ":" + long.protocol
  }

  /** Two resolvers share a key exactly when they are the same address and protocol, or one has a protocol
      with a colon in it that swallows the end of the other's address. */
  lemma KeysEqualIff(a: Resolver, b: Resolver)
    ensures Key(a) == Key(b) <==> (a.ip == b.ip && a.protocol == b.protocol) || Overlaps(a, b) || Overlaps(b, a)
  {
    if |a.ip| == |b.ip| {
      SameLengthKeys(a, b);
    } else if |a.ip| < |b.ip| {
      ShorterAddressKeys(a, b);
    } else {
      ShorterAddressKeys(b, a);
    }
  }

  lemma SameLengthKeys(a: Resolver, b: Resolver)
    requires |a.ip| == |b.ip|
    ensures Key(a) == Key(b) <==> a.ip == b.ip && a.protocol == b.protocol
  {
    if Key(a) == Key(b) {
      assert a.ip == Key(a)[..|a.ip|] && b.ip == Key(b)[..|a.ip|];
      assert a.protocol == Key(a)[|a.ip| + 1..] && b.protocol == Key(b)[|a.ip| + 1..];
    }
  }

  lemma ShorterAddressKeys(a: Resolver, b: Resolver)
    requires |a.ip| < |b.ip|
    ensures Key(a) == Key(b) <==> Overlaps(a, b)
  {
    var n := |a.ip| + 1;
    assert Key(a)[..n] == a.ip + ":" && Key(a)[n..] == a.protocol;
    assert Key(b)[..n] == b.ip[..n] && Key(b)[n..] == b.ip[n..] + ":" + b.protocol;
    assert Key(a) == Key(a)[..n] + Key(a)[n..];
    assert Key(b) == Key(b)[..n] + Key(b)[n..];
  }

  predicate ColonFree(rs: seq<Resolver>) {
    forall i :: 0 <= i < |rs| ==> ':' !in rs[i].protocol
  }

  lemma OverlapNeedsColon(short: Resolver, long: Resolver)
    ensures Overlaps(short, long) ==> ':' in short.protocol
  {
    if Overlaps(short, long) {
      assert short.protocol[|long.ip| - |short.ip| - 1] == ':';
    }
  }

  lemma ColonFreeKeysDiffer(a: Resolver, b: Resolver)
    requires ':' !in a.protocol && ':' !in b.protocol
    ensures Key(a) == Key(b) <==> a.ip == b.ip && a.protocol == b.protocol
  {
    KeysEqualIff(a, b);
    OverlapNeedsColon(a, b);
    OverlapNeedsColon(b, a);
  }

  /** When no protocol has a colon, an arrival is dropped only for an equal address and protocol: one in the
      database or one that arrived before. */
  lemma DedupIsByAddressAndProtocol(rs: seq<Resolver>, i: nat, stored: seq<Resolver>)
    requires i < |rs| && ColonFree(rs) && ColonFree(stored)
    ensures IsNew(rs, i, Keys(stored)) <==>
              && (forall j :: 0 <= j < |stored| ==> !(stored[j].ip == rs[i].ip && stored[j].protocol == rs[i].protocol))
              && (forall j :: 0 <= j < i ==> !(rs[j].ip == rs[i].ip && rs[j].protocol == rs[i].protocol))
  {
    forall j | 0 <= j < |stored|
      ensures Key(stored[j]) == Key(rs[i]) <==> stored[j].ip == rs[i].ip && stored[j].protocol == rs[i].protocol
      ensures Key(stored[j]) in Keys(stored)
    {
      ColonFreeKeysDiffer(stored[j], rs[i]);
    }
    forall j | 0 <= j < i
      ensures Key(rs[j]) == Key(rs[i]) <==> rs[j].ip == rs[i].ip && rs[j].protocol == rs[i].protocol
    {
      ColonFreeKeysDiffer(rs[j], rs[i]);
    }
  }

  /** Whenever keys overlap, the later resolver is taken for a duplicate of the earlier one. */
  lemma OverlapHidesResolver(a: Resolver, b: Resolver)
    requires Overlaps(a, b) || Overlaps(b, a)
    ensures FirstArrivals([a, b], {}) == [a]
  {
    KeysEqualIff(a, b);
    var one, two := [a], [a, b];
    assert one + [b] == two && one[..0] == [];
    FirstArrivalsSnoc(one, b, {});
    assert FirstArrivals(one, {}) == [a];
    assert two[0] == a && two[1] == b;
  }

  /** The protocol column of an import line is free text, so two different resolvers can share a key. */
  lemma ColonInProtocolOverlaps()
    ensures Overlaps(Resolver("1::2", "5:udp", ""), Resolver("1::2:5", "udp", ""))
  {
    assert "1::2:5"[5..] == "5";
    assert "1::2:5"[..5] == "1::2:";
  }

  lemma {:induction false} GrowthOfArrivals(before: seq<Resolver>, line: seq<Resolver>, known: set<string>)
    ensures |FirstArrivals(before, known)| <= |FirstArrivals(before + line, known)|
    ensures |FirstArrivals(before, known)| < |FirstArrivals(before + line, known)| <==> Contributes(before, line, known)
  {
    if line == [] {
      assert before + line == before;
    } else {
      var front, r := line[..|line| - 1], line[|line| - 1];
      GrowthOfArrivals(before, front, known);
      assert front + [r] == line && before + line == before + front + [r];
      FirstArrivalsSnoc(before + front, r, known);
      ContributesSnoc(before, front, r, known);
    }
  }

  /** A line counts as added exactly when there is more to write after it than before, and as a duplicate when it
      gave resolvers and there is not. */
  lemma LineCountsIff(events: seq<Event>, line: seq<Resolver>, known: set<string>)
    ensures var p, p' := Totals(events, known), Totals(events + [Result(line)], known);
            var more := |FirstArrivals(Arrivals(events + [Result(line)]), known)| > |FirstArrivals(Arrivals(events), known)|;
            && p'.processed == p.processed + 1
            && p'.added == (if more then p.added + 1 else p.added)
            && p'.duplicates == (if !more && |line| > 0 then p.duplicates + 1 else p.duplicates)
  {
    ResultCounts(events, line, known);
    GrowthOfArrivals(Arrivals(events), line, known);
  }
}
