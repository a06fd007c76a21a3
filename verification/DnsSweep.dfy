/** One uncancelled DNS sweep: the chunk scheduler, the workers with their atomic counters, the result
    channel with its overflow path, and the batching saver, in any interleaving. A job is named by its index. */
module DnsSweep {

  const CHANNEL_SIZE := 2048
  const BATCH_SIZE := 100

  /** Where the worker of a job stands; `ok` is the verdict of its diagnostic. `Crashed` is a panic of the
      diagnostic that the worker recovered from. */
  datatype Job =
    | Idle
    | Spawned
    | Running
    | Measured(ok: bool)
    | Tallied(ok: bool)
    | Classified(ok: bool)
    | Pushed(ok: bool)
    | Delivered(ok: bool)
    | Crashed

  datatype Stats = Stats(tested: int, healthy: int, failed: int, inFlight: int)

  /** What the workers share with the saver. `broadcasts` and `saves` record the calls made so far. */
  datatype Buffers = Buffers(
    accumulating: seq<nat>, broadcasts: seq<seq<nat>>,
    chan: seq<nat>, batch: seq<nat>, saves: seq<seq<nat>>)

  /** The chunk is `start..end`; `next` is the next job to launch. `started` counts the diagnostics begun. */
  datatype State = State(
    jobs: seq<Job>, start: nat, next: nat, end: nat, closed: bool,
    stats: Stats, started: multiset<nat>, buf: Buffers, saverDone: bool)

  datatype Step =
    | Launch
    | ChunkDone
    | Work(i: nat, to: Job)
    | SaverTake
    | SaverTick
    | SaverEnd

  function Min(a: nat, b: nat): nat {
    if a < b then a else b
  }

  function Start(n: nat, chunk: nat): State {
    State(seq(n, _ => Idle), 0, 0, Min(chunk, n), false,
          Stats(0, 0, 0, 0), multiset{}, Buffers([], [], [], [], []), false)
  }

  predicate Finished(j: Job) {
    j.Delivered? || j.Crashed?
  }

  /** The next point a worker reaches. */
  predicate Follows(j: Job, to: Job) {
    match to
    case Running => j.Spawned?
    case Measured(_) => j.Running?
    case Crashed => j.Running?
    case Tallied(ok) => j == Measured(ok)
    case Classified(ok) => j == Tallied(ok)
    case Pushed(ok) => j == Classified(ok)
    case Delivered(ok) => j == Pushed(ok)
    case _ => false
  }

  /** The wait group of the chunk is at zero. */
  predicate ChunkOver(s: State) {
    forall i :: s.start <= i < s.end && i < |s.jobs| ==> Finished(s.jobs[i])
  }

  predicate Enabled(s: State, step: Step) {
    match step
    case Launch => s.next < s.end <= |s.jobs| && !s.closed
    case ChunkDone => s.next == s.end && !s.closed && ChunkOver(s)
    case Work(i, to) => i < |s.jobs| && Follows(s.jobs[i], to)
    case SaverTake => !s.saverDone && s.buf.chan != []
    case SaverTick => !s.saverDone
    case SaverEnd => !s.saverDone && s.buf.chan == [] && s.closed
  }

  /** The atomic additions on the way to `to`. */
  function Bumped(t: Stats, to: Job): Stats {
    match to
    case Running => t.(inFlight := t.inFlight + 1)
    case Measured(_) => t.(inFlight := t.inFlight - 1)
    case Tallied(_) => t.(tested := t.tested + 1)
    case Classified(ok) => if ok then t.(healthy := t.healthy + 1) else t.(failed := t.failed + 1)
    case _ => t
  }

  /** The batch goes to one save call. */
  function BatchFlushed(b: Buffers): Buffers {
    if b.batch == [] then b else b.(saves := b.saves + [b.batch], batch := [])
  }

  /** The candidates go to one broadcast. */
  function AccumulatedFlushed(b: Buffers): Buffers {
    if b.accumulating == [] then b else b.(broadcasts := b.broadcasts + [b.accumulating], accumulating := [])
  }

  /** The result is queued, or saved on its own when the channel is full. */
  function Queued(b: Buffers, i: nat): Buffers {
    if |b.chan| < CHANNEL_SIZE then b.(chan := b.chan + [i]) else b.(saves := b.saves + [[i]])
  }

  function Received(b: Buffers): Buffers
    requires b.chan != []
  {
    b.(batch := b.batch + [b.chan[0]], chan := b.chan[1..])
  }

  function Taken(b: Buffers): Buffers
    requires b.chan != []
  {
    if |Received(b).batch| >= BATCH_SIZE then BatchFlushed(Received(b)) else Received(b)
  }

  function Handled(b: Buffers, i: nat, to: Job): Buffers {
    match to
    case Pushed(_) => b.(accumulating := b.accumulating + [i])
    case Delivered(_) => Queued(b, i)
    case _ => b
  }

  function Apply(s: State, step: Step, chunk: nat): State
    requires Enabled(s, step)
  {
    match step
    case Launch => s.(jobs := s.jobs[s.next := Spawned], next := s.next + 1)
    case ChunkDone =>
      if s.end < |s.jobs| then s.(start := s.end, end := Min(s.end + chunk, |s.jobs|)) else s.(closed := true)
    case Work(i, to) =>
      s.(jobs := s.jobs[i := to], stats := Bumped(s.stats, to), buf := Handled(s.buf, i, to),
         started := if to.Running? then s.started + multiset{i} else s.started)
    case SaverTake => s.(buf := Taken(s.buf))
    case SaverTick => s.(buf := AccumulatedFlushed(BatchFlushed(s.buf)))
    case SaverEnd => s.(buf := AccumulatedFlushed(BatchFlushed(s.buf)), saverDone := true)
  }

  predicate IsRun(s: State, steps: seq<Step>, chunk: nat)
    decreases |steps|
  {
    steps == [] || (Enabled(s, steps[0]) && IsRun(Apply(s, steps[0], chunk), steps[1..], chunk))
  }

  function Final(s: State, steps: seq<Step>, chunk: nat): State
    requires IsRun(s, steps, chunk)
    decreases |steps|
  {
    if steps == [] then s else Final(Apply(s, steps[0], chunk), steps[1..], chunk)
  }

  // ----- the shared buffers and counters, updated in place

  /** The candidate buffer of the engine, the batch of the saver and the result channel between them. */
  class Telemetry {
    var accumulating: seq<nat>
    var broadcasts: seq<seq<nat>>
    var chan: seq<nat>
    var batch: seq<nat>
    var saves: seq<seq<nat>>
    var tested: int
    var healthy: int
    var failed: int
    var inFlight: int

    function Held(): Buffers
      reads this
    {
      Buffers(accumulating, broadcasts, chan, batch, saves)
    }

    function Figures(): Stats
      reads this
    {
      Stats(tested, healthy, failed, inFlight)
    }

    constructor ()
      ensures Held() == Buffers([], [], [], [], []) && Figures() == Stats(0, 0, 0, 0)
    {
      accumulating, broadcasts, chan, batch, saves := [], [], [], [], [];
      tested, healthy, failed, inFlight := 0, 0, 0, 0;
    }

    method PushResult(i: nat)
      modifies `accumulating
      ensures forall ok :: Held() == Handled(old(Held()), i, Pushed(ok))
    {
      accumulating := accumulating + [i];
    }

    method FlushAccumulated()
      modifies `accumulating, `broadcasts
      ensures Held() == AccumulatedFlushed(old(Held()))
    {
      if |accumulating| == 0 {
        return;
      }
      broadcasts := broadcasts + [accumulating];
      accumulating := [];
    }

    method Flush()
      modifies `batch, `saves
      ensures Held() == BatchFlushed(old(Held()))
    {
      if |batch| == 0 {
        return;
      }
      saves := saves + [batch];
      batch := [];
    }

    method Deliver(i: nat)
      modifies `chan, `saves
      ensures forall ok :: Held() == Handled(old(Held()), i, Delivered(ok))
    {
      if |chan| < CHANNEL_SIZE {
        chan := chan + [i];
      } else {
        saves := saves + [[i]];
      }
    }

    method SaverTake()
      requires chan != []
      modifies `chan, `batch, `saves
      ensures Held() == Taken(old(Held()))
    {
      batch := batch + [chan[0]];
      chan := chan[1..];
      if |batch| >= BATCH_SIZE {
        Flush();
      }
    }

    method SaverTick()
      modifies `accumulating, `broadcasts, `batch, `saves
      ensures Held() == AccumulatedFlushed(BatchFlushed(old(Held())))
    {
      Flush();
      FlushAccumulated();
    }

    method Begin()
      modifies `inFlight
      ensures Figures() == Bumped(old(Figures()), Running)
    {
      inFlight := inFlight + 1;
    }

    method End()
      modifies `inFlight
      ensures forall ok :: Figures() == Bumped(old(Figures()), Measured(ok))
    {
      inFlight := inFlight - 1;
    }

    method Tally()
      modifies `tested
      ensures forall ok :: Figures() == Bumped(old(Figures()), Tallied(ok))
    {
      tested := tested + 1;
    }

    method Classify(ok: bool)
      modifies `healthy, `failed
      ensures Figures() == Bumped(old(Figures()), Classified(ok))
    {
      if ok {
        healthy := healthy + 1;
      } else {
        failed := failed + 1;
      }
    }
  }

  // ----- counting

  datatype Class = IsRunning | IsCrashed | WasTallied | WasHealthy | WasFailed | WasStarted | WasPushed | WasDelivered

  predicate In(c: Class, j: Job) {
    match c
    case IsRunning => j.Running?
    case IsCrashed => j.Crashed?
    case WasTallied => j.Tallied? || j.Classified? || j.Pushed? || j.Delivered?
    case WasHealthy => (j.Classified? || j.Pushed? || j.Delivered?) && j.ok
    case WasFailed => (j.Classified? || j.Pushed? || j.Delivered?) && !j.ok
    case WasStarted => !j.Idle? && !j.Spawned?
    case WasPushed => j.Pushed? || j.Delivered?
    case WasDelivered => j.Delivered?
  }

  function Count(jobs: seq<Job>, c: Class): nat {
    if jobs == [] then 0 else Count(jobs[..|jobs| - 1], c) + (if In(c, jobs[|jobs| - 1]) then 1 else 0)
  }

  function Bit(b: bool): nat {
    if b then 1 else 0
  }

  lemma {:induction false} CountUpdate(jobs: seq<Job>, i: nat, j: Job, c: Class)
    requires i < |jobs|
    ensures Count(jobs[i := j], c) == Count(jobs, c) - Bit(In(c, jobs[i])) + Bit(In(c, j))
    decreases |jobs|
  {
    var n := |jobs| - 1;
    if i < n {
      CountUpdate(jobs[..n], i, j, c);
      assert jobs[i := j][..n] == jobs[..n][i := j];
    } else {
      assert jobs[i := j][..n] == jobs[..n];
    }
  }

  /** Members of a class that all lie in a window are no more than the window is wide. */
  lemma {:induction false} CountWindow(jobs: seq<Job>, c: Class, lo: nat, hi: nat)
    requires lo <= hi && forall i :: 0 <= i < |jobs| && In(c, jobs[i]) ==> lo <= i < hi
    ensures Count(jobs, c) <= hi - lo && Count(jobs, c) <= if |jobs| < lo then 0 else |jobs| - lo
    decreases |jobs|
  {
    if jobs != [] {
      var n := |jobs| - 1;
      if In(c, jobs[n]) {
        CountWindow(jobs[..n], c, lo, n);
      } else {
        CountWindow(jobs[..n], c, lo, hi);
      }
    }
  }

  // ----- the invariant

  function Flat(parts: seq<seq<nat>>): multiset<nat> {
    if parts == [] then multiset{} else Flat(parts[..|parts| - 1]) + multiset(parts[|parts| - 1])
  }

  /** How often each result was handed to the saver's side: queued, batched or saved. */
  function Handed(b: Buffers): multiset<nat> {
    multiset(b.chan) + multiset(b.batch) + Flat(b.saves)
  }

  /** How often each result was given to the candidate telemetry: waiting or broadcast. */
  function Shown(b: Buffers): multiset<nat> {
    multiset(b.accumulating) + Flat(b.broadcasts)
  }

  /** `m` holds the jobs of the class, once each. */
  ghost predicate Marks(m: multiset<nat>, jobs: seq<Job>, c: Class) {
    forall i: nat :: m[i] == Bit(i < |jobs| && In(c, jobs[i]))
  }

  ghost predicate Counters(jobs: seq<Job>, t: Stats) {
    && t.inFlight == Count(jobs, IsRunning) + Count(jobs, IsCrashed)
    && t.tested == Count(jobs, WasTallied)
    && t.healthy == Count(jobs, WasHealthy)
    && t.failed == Count(jobs, WasFailed)
  }

  /** Before the chunk everything is finished, from `next` on nothing is launched. */
  ghost predicate Chunked(s: State, chunk: nat) {
    && s.start <= s.next <= s.end <= |s.jobs| && s.end <= s.start + chunk
    && (s.closed ==> s.next == |s.jobs| && ChunkOver(s))
    && (forall i :: 0 <= i < s.start ==> Finished(s.jobs[i]))
    && (forall i :: s.next <= i < |s.jobs| ==> s.jobs[i].Idle?)
    && (s.end == |s.jobs| || s.end == s.start + chunk)
    && (forall i :: s.start <= i < s.next ==> !s.jobs[i].Idle?)
  }

  ghost predicate Once(s: State) {
    && Marks(s.started, s.jobs, WasStarted)
    && Marks(Shown(s.buf), s.jobs, WasPushed)
    && Marks(Handed(s.buf), s.jobs, WasDelivered)
  }

  ghost predicate Bounded(b: Buffers) {
    && |b.chan| <= CHANNEL_SIZE && |b.batch| < BATCH_SIZE
    && (forall p :: p in b.saves ==> 1 <= |p| <= BATCH_SIZE)
    && (forall p :: p in b.broadcasts ==> p != [])
  }

  ghost predicate SaverEnded(s: State) {
    s.saverDone ==> s.closed && s.buf.chan == [] && s.buf.batch == [] && s.buf.accumulating == []
  }

  ghost predicate Inv(s: State, chunk: nat) {
    Counters(s.jobs, s.stats) && Chunked(s, chunk) && Once(s) && Bounded(s.buf) && SaverEnded(s)
  }

  // ----- every step keeps it

  lemma WorkKeepsCounters(jobs: seq<Job>, t: Stats, i: nat, to: Job)
    requires i < |jobs| && Follows(jobs[i], to) && Counters(jobs, t)
    ensures Counters(jobs[i := to], Bumped(t, to))
  {
    CountUpdate(jobs, i, to, IsRunning);
    CountUpdate(jobs, i, to, IsCrashed);
    CountUpdate(jobs, i, to, WasTallied);
    CountUpdate(jobs, i, to, WasHealthy);
    CountUpdate(jobs, i, to, WasFailed);
  }

  lemma LaunchKeepsCounters(jobs: seq<Job>, t: Stats, i: nat)
    requires i < |jobs| && jobs[i].Idle? && Counters(jobs, t)
    ensures Counters(jobs[i := Spawned], t)
  {
    CountUpdate(jobs, i, Spawned, IsRunning);
    CountUpdate(jobs, i, Spawned, IsCrashed);
    CountUpdate(jobs, i, Spawned, WasTallied);
    CountUpdate(jobs, i, Spawned, WasHealthy);
    CountUpdate(jobs, i, Spawned, WasFailed);
  }

  lemma StepKeepsCounters(s: State, step: Step, chunk: nat)
    requires Inv(s, chunk) && Enabled(s, step)
    ensures Counters(Apply(s, step, chunk).jobs, Apply(s, step, chunk).stats)
  {
    match step
    case Launch => LaunchKeepsCounters(s.jobs, s.stats, s.next);
    case Work(i, to) => WorkKeepsCounters(s.jobs, s.stats, i, to);
    case _ =>
  }

  lemma StepKeepsChunked(s: State, step: Step, chunk: nat)
    requires Chunked(s, chunk) && Enabled(s, step) && chunk > 0
    ensures Chunked(Apply(s, step, chunk), chunk)
  {
    match step
    case Launch =>
    case ChunkDone =>
    case Work(i, to) =>
      assert s.start <= i < s.next;
    case _ =>
  }

  lemma {:induction false} FlatAppend(parts: seq<seq<nat>>, p: seq<nat>)
    ensures Flat(parts + [p]) == Flat(parts) + multiset(p)
  {
    assert (parts + [p])[..|parts|] == parts;
  }

  lemma BatchFlushedHolds(b: Buffers)
    ensures Handed(BatchFlushed(b)) == Handed(b) && Shown(BatchFlushed(b)) == Shown(b)
  {
    if b.batch != [] {
      FlatAppend(b.saves, b.batch);
    }
  }

  lemma AccumulatedFlushedHolds(b: Buffers)
    ensures Handed(AccumulatedFlushed(b)) == Handed(b) && Shown(AccumulatedFlushed(b)) == Shown(b)
  {
    if b.accumulating != [] {
      FlatAppend(b.broadcasts, b.accumulating);
    }
  }

  lemma FlushedHolds(b: Buffers)
    ensures Handed(AccumulatedFlushed(BatchFlushed(b))) == Handed(b)
    ensures Shown(AccumulatedFlushed(BatchFlushed(b))) == Shown(b)
  {
    BatchFlushedHolds(b);
    AccumulatedFlushedHolds(BatchFlushed(b));
  }

  lemma QueuedHolds(b: Buffers, i: nat)
    ensures Handed(Queued(b, i)) == Handed(b) + multiset{i} && Shown(Queued(b, i)) == Shown(b)
  {
    FlatAppend(b.saves, [i]);
  }

  lemma ReceivedHolds(b: Buffers)
    requires b.chan != []
    ensures Handed(Received(b)) == Handed(b) && Shown(Received(b)) == Shown(b)
  {
    assert b.chan == [b.chan[0]] + b.chan[1..];
    assert multiset(b.chan) == multiset{b.chan[0]} + multiset(b.chan[1..]);
  }

  lemma TakenHolds(b: Buffers)
    requires b.chan != []
    ensures Handed(Taken(b)) == Handed(b) && Shown(Taken(b)) == Shown(b)
  {
    ReceivedHolds(b);
    FlatAppend(b.saves, Received(b).batch);
  }

  /** A worker that enters one of the classes it never leaves adds exactly its own mark. */
  lemma MarksMove(m: multiset<nat>, jobs: seq<Job>, c: Class, i: nat, to: Job)
    requires i < |jobs| && Marks(m, jobs, c) && (In(c, jobs[i]) ==> In(c, to))
    ensures Marks(if In(c, to) && !In(c, jobs[i]) then m + multiset{i} else m, jobs[i := to], c)
  {
  }

  lemma PushedHolds(b: Buffers, i: nat, ok: bool)
    ensures Shown(Handled(b, i, Pushed(ok))) == Shown(b) + multiset{i} && Handed(Handled(b, i, Pushed(ok))) == Handed(b)
  {
    assert multiset(b.accumulating + [i]) == multiset(b.accumulating) + multiset{i};
  }

  lemma HandledHolds(b: Buffers, i: nat, to: Job)
    ensures Shown(Handled(b, i, to)) == if to.Pushed? then Shown(b) + multiset{i} else Shown(b)
    ensures Handed(Handled(b, i, to)) == if to.Delivered? then Handed(b) + multiset{i} else Handed(b)
  {
    if to.Delivered? {
      QueuedHolds(b, i);
    } else if to.Pushed? {
      PushedHolds(b, i, to.ok);
    } else {
      assert Handled(b, i, to) == b;
    }
  }

  /** Where a worker enters the three classes, and that it never leaves them. */
  lemma ClassesEntered(j: Job, to: Job)
    requires Follows(j, to)
    ensures (In(WasStarted, to) && !In(WasStarted, j) <==> to.Running?) && (In(WasStarted, j) ==> In(WasStarted, to))
    ensures (In(WasPushed, to) && !In(WasPushed, j) <==> to.Pushed?) && (In(WasPushed, j) ==> In(WasPushed, to))
    ensures (In(WasDelivered, to) && !In(WasDelivered, j) <==> to.Delivered?) && !In(WasDelivered, j)
  {
  }

  lemma WorkKeepsOnce(s: State, i: nat, to: Job, chunk: nat)
    requires Once(s) && Enabled(s, Work(i, to))
    ensures Once(Apply(s, Work(i, to), chunk))
  {
    ClassesEntered(s.jobs[i], to);
    HandledHolds(s.buf, i, to);
    var s1 := Apply(s, Work(i, to), chunk);
    assert Marks(s1.started, s1.jobs, WasStarted) by { MarksMove(s.started, s.jobs, WasStarted, i, to); }
    assert Marks(Shown(s1.buf), s1.jobs, WasPushed) by { MarksMove(Shown(s.buf), s.jobs, WasPushed, i, to); }
    assert Marks(Handed(s1.buf), s1.jobs, WasDelivered) by { MarksMove(Handed(s.buf), s.jobs, WasDelivered, i, to); }
  }

  lemma StepKeepsOnce(s: State, step: Step, chunk: nat)
    requires Once(s) && Chunked(s, chunk) && Enabled(s, step)
    ensures Once(Apply(s, step, chunk))
  {
    match step
    case Launch =>
      MarksMove(s.started, s.jobs, WasStarted, s.next, Spawned);
      MarksMove(Shown(s.buf), s.jobs, WasPushed, s.next, Spawned);
      MarksMove(Handed(s.buf), s.jobs, WasDelivered, s.next, Spawned);
    case Work(i, to) => WorkKeepsOnce(s, i, to, chunk);
    case SaverTake => TakenHolds(s.buf);
    case SaverTick => FlushedHolds(s.buf);
    case SaverEnd => FlushedHolds(s.buf);
    case ChunkDone =>
  }

  lemma QueuedIsBounded(b: Buffers, i: nat)
    requires Bounded(b)
    ensures Bounded(Queued(b, i))
  {
    assert forall p :: p in b.saves + [[i]] ==> p in b.saves || p == [i];
  }

  lemma TakenIsBounded(b: Buffers)
    requires Bounded(b) && b.chan != []
    ensures Bounded(Taken(b))
  {
    var q := Received(b).batch;
    assert |q| <= BATCH_SIZE;
    assert forall p :: p in b.saves + [q] ==> p in b.saves || p == q;
  }

  lemma FlushedIsBounded(b: Buffers)
    requires Bounded(b)
    ensures Bounded(AccumulatedFlushed(BatchFlushed(b)))
  {
    assert forall p :: p in b.saves + [b.batch] ==> p in b.saves || p == b.batch;
    assert forall p :: p in b.broadcasts + [b.accumulating] ==> p in b.broadcasts || p == b.accumulating;
  }

  lemma StepKeepsBounded(s: State, step: Step, chunk: nat)
    requires Bounded(s.buf) && Enabled(s, step)
    ensures Bounded(Apply(s, step, chunk).buf)
  {
    match step
    case Work(i, _) => QueuedIsBounded(s.buf, i);
    case SaverTake => TakenIsBounded(s.buf);
    case SaverTick => FlushedIsBounded(s.buf);
    case SaverEnd => FlushedIsBounded(s.buf);
    case _ =>
  }

  lemma StepKeepsSaverEnded(s: State, step: Step, chunk: nat)
    requires Inv(s, chunk) && Enabled(s, step)
    ensures SaverEnded(Apply(s, step, chunk))
  {
    if step.Work? && s.saverDone {
      assert Finished(s.jobs[step.i]);
    }
  }

  lemma StepKeepsInv(s: State, step: Step, chunk: nat)
    requires Inv(s, chunk) && Enabled(s, step) && chunk > 0
    ensures Inv(Apply(s, step, chunk), chunk) && |Apply(s, step, chunk).jobs| == |s.jobs|
  {
    StepKeepsCounters(s, step, chunk);
    StepKeepsChunked(s, step, chunk);
    StepKeepsOnce(s, step, chunk);
    StepKeepsBounded(s, step, chunk);
    StepKeepsSaverEnded(s, step, chunk);
  }

  lemma {:induction false} RunKeepsInv(s: State, steps: seq<Step>, chunk: nat)
    requires Inv(s, chunk) && IsRun(s, steps, chunk) && chunk > 0
    ensures Inv(Final(s, steps, chunk), chunk) && |Final(s, steps, chunk).jobs| == |s.jobs|
    decreases |steps|
  {
    if steps != [] {
      StepKeepsInv(s, steps[0], chunk);
      RunKeepsInv(Apply(s, steps[0], chunk), steps[1..], chunk);
    }
  }

  lemma {:induction false} IdleCounts(jobs: seq<Job>, c: Class)
    requires forall i :: 0 <= i < |jobs| ==> jobs[i].Idle?
    ensures Count(jobs, c) == 0
  {
    CountWindow(jobs, c, 0, 0);
  }

  lemma StartIsSound(n: nat, chunk: nat)
    ensures Inv(Start(n, chunk), chunk)
  {
    var jobs := Start(n, chunk).jobs;
    IdleCounts(jobs, IsRunning);
    IdleCounts(jobs, IsCrashed);
    IdleCounts(jobs, WasTallied);
    IdleCounts(jobs, WasHealthy);
    IdleCounts(jobs, WasFailed);
  }

  lemma RunningFitsChunk(s: State, chunk: nat)
    requires Chunked(s, chunk)
    ensures Count(s.jobs, IsRunning) <= chunk
  {
    CountWindow(s.jobs, IsRunning, s.start, s.end);
  }

  /** At every moment: no job was run twice, no result is queued, batched or saved twice or shown twice,
      no more jobs run than a chunk holds, `InFlight` is their number and one for each panic so far, and a save
      call gets between 1 and 100 results. */
  lemma SweepIsSafe(n: nat, chunk: nat, steps: seq<Step>)
    requires chunk > 0 && IsRun(Start(n, chunk), steps, chunk)
    ensures var s := Final(Start(n, chunk), steps, chunk);
            && (forall i: nat :: s.started[i] <= 1 && Handed(s.buf)[i] <= 1 && Shown(s.buf)[i] <= 1)
            && Count(s.jobs, IsRunning) <= chunk
            && 0 <= s.stats.inFlight == Count(s.jobs, IsRunning) + Count(s.jobs, IsCrashed)
            && s.stats.inFlight <= chunk + Count(s.jobs, IsCrashed)
            && (forall p :: p in s.buf.saves ==> 1 <= |p| <= BATCH_SIZE)
  {
    StartIsSound(n, chunk);
    RunKeepsInv(Start(n, chunk), steps, chunk);
    RunningFitsChunk(Final(Start(n, chunk), steps, chunk), chunk);
  }

  lemma {:induction false} AllFinishedCounts(jobs: seq<Job>)
    requires forall i :: 0 <= i < |jobs| ==> Finished(jobs[i])
    ensures Count(jobs, WasTallied) == Count(jobs, WasHealthy) + Count(jobs, WasFailed)
    ensures Count(jobs, WasTallied) + Count(jobs, IsCrashed) == |jobs| && Count(jobs, IsRunning) == 0
  {
    if jobs != [] {
      AllFinishedCounts(jobs[..|jobs| - 1]);
    }
  }

  /** Every job ran exactly once, Tested = Healthy + Failed = the number of jobs that did not panic, InFlight
      is what panics left behind, and every other result went to exactly one save call and one broadcast. */
  ghost predicate Complete(s: State, n: nat) {
    && |s.jobs| == n
    && s.stats.tested == s.stats.healthy + s.stats.failed == n - Count(s.jobs, IsCrashed)
    && s.stats.inFlight == Count(s.jobs, IsCrashed)
    && (forall i: nat :: s.started[i] == Bit(i < n))
    && (forall i: nat :: Flat(s.buf.saves)[i] == Bit(i < n && !s.jobs[i].Crashed?))
    && (forall i: nat :: Flat(s.buf.broadcasts)[i] == Bit(i < n && !s.jobs[i].Crashed?))
  }

  lemma AllFinishedMarks(m: multiset<nat>, jobs: seq<Job>, c: Class)
    requires Marks(m, jobs, c) && (c == WasPushed || c == WasDelivered)
    requires forall i :: 0 <= i < |jobs| ==> Finished(jobs[i])
    ensures forall i: nat :: m[i] == Bit(i < |jobs| && !jobs[i].Crashed?)
  {
  }

  lemma EmptiedBuffers(b: Buffers)
    requires b.chan == [] && b.batch == [] && b.accumulating == []
    ensures Handed(b) == Flat(b.saves) && Shown(b) == Flat(b.broadcasts)
  {
  }

  lemma DoneIsFinished(s: State, chunk: nat)
    requires Chunked(s, chunk) && s.closed
    ensures forall i :: 0 <= i < |s.jobs| ==> Finished(s.jobs[i])
  {
  }

  lemma AllStarted(m: multiset<nat>, jobs: seq<Job>)
    requires Marks(m, jobs, WasStarted)
    requires forall i :: 0 <= i < |jobs| ==> Finished(jobs[i])
    ensures forall i: nat :: m[i] == Bit(i < |jobs|)
  {
  }

  lemma DoneIsComplete(s: State, chunk: nat)
    requires Inv(s, chunk) && s.saverDone
    ensures Complete(s, |s.jobs|)
  {
    DoneIsFinished(s, chunk);
    AllFinishedCounts(s.jobs);
    EmptiedBuffers(s.buf);
    AllStarted(s.started, s.jobs);
    AllFinishedMarks(Handed(s.buf), s.jobs, WasDelivered);
    AllFinishedMarks(Shown(s.buf), s.jobs, WasPushed);
  }

  lemma SweepEndsComplete(n: nat, chunk: nat, steps: seq<Step>)
    requires chunk > 0 && IsRun(Start(n, chunk), steps, chunk) && Final(Start(n, chunk), steps, chunk).saverDone
    ensures Complete(Final(Start(n, chunk), steps, chunk), n)
  {
    StartIsSound(n, chunk);
    RunKeepsInv(Start(n, chunk), steps, chunk);
    DoneIsComplete(Final(Start(n, chunk), steps, chunk), chunk);
  }

  // ----- progress

  /** The remaining path of a worker. */
  function Distance(j: Job): nat {
    match j
    case Idle => 8
    case Spawned => 7
    case Running => 6
    case Measured(_) => 5
    case Tallied(_) => 4
    case Classified(_) => 3
    case Pushed(_) => 2
    case Delivered(_) => 0
    case Crashed => 0
  }

  /** The point a worker that is under way reaches next. */
  function Successor(j: Job): (to: Job)
    requires !j.Idle? && !Finished(j)
    ensures Follows(j, to) && Distance(to) < Distance(j)
  {
    match j
    case Spawned => Running
    case Running => Crashed
    case Measured(ok) => Tallied(ok)
    case Tallied(ok) => Classified(ok)
    case Classified(ok) => Pushed(ok)
    case Pushed(ok) => Delivered(ok)
  }

  function TotalDistance(jobs: seq<Job>): nat {
    if jobs == [] then 0 else TotalDistance(jobs[..|jobs| - 1]) + Distance(jobs[|jobs| - 1])
  }

  lemma {:induction false} DistanceUpdate(jobs: seq<Job>, i: nat, j: Job)
    requires i < |jobs|
    ensures TotalDistance(jobs[i := j]) == TotalDistance(jobs) - Distance(jobs[i]) + Distance(j)
    decreases |jobs|
  {
    var n := |jobs| - 1;
    if i < n {
      DistanceUpdate(jobs[..n], i, j);
      assert jobs[i := j][..n] == jobs[..n][i := j];
    } else {
      assert jobs[i := j][..n] == jobs[..n];
    }
  }

  /** Work left: the workers' paths, the chunks not yet opened, the queue and the ends. */
  function Measure(s: State): int {
    TotalDistance(s.jobs) + (|s.jobs| - s.end) + |s.buf.chan| + (if s.closed then 0 else 1) + (if s.saverDone then 0 else 1)
  }

  lemma ChunkDoneShortens(s: State, chunk: nat)
    requires Chunked(s, chunk) && Enabled(s, ChunkDone) && chunk > 0
    ensures 0 <= Measure(Apply(s, ChunkDone, chunk)) < Measure(s)
  {
  }

  lemma WorkShortens(s: State, i: nat, to: Job, chunk: nat)
    requires Chunked(s, chunk) && Enabled(s, Work(i, to))
    ensures 0 <= Measure(Apply(s, Work(i, to), chunk)) < Measure(s)
  {
    DistanceUpdate(s.jobs, i, to);
    assert |Handled(s.buf, i, to).chan| <= |s.buf.chan| + (if to.Delivered? then 1 else 0);
  }

  lemma LaunchShortens(s: State, chunk: nat)
    requires Chunked(s, chunk) && Enabled(s, Launch)
    ensures 0 <= Measure(Apply(s, Launch, chunk)) < Measure(s)
  {
    DistanceUpdate(s.jobs, s.next, Spawned);
  }

  /** Every step but the saver's timer shortens the work left, so a sweep cannot run forever. */
  lemma StepMakesProgress(s: State, step: Step, chunk: nat)
    requires Inv(s, chunk) && Enabled(s, step) && chunk > 0
    ensures 0 <= Measure(Apply(s, step, chunk))
    ensures !step.SaverTick? ==> Measure(Apply(s, step, chunk)) < Measure(s)
    ensures step.SaverTick? ==> Measure(Apply(s, step, chunk)) == Measure(s)
  {
    match step
    case Launch => LaunchShortens(s, chunk);
    case ChunkDone => ChunkDoneShortens(s, chunk);
    case Work(i, to) => WorkShortens(s, i, to, chunk);
    case _ =>
  }

  /** Until the saver is done some step other than its timer can be taken. */
  lemma SweepNeverStuck(s: State, chunk: nat)
    requires Inv(s, chunk) && !s.saverDone
    ensures exists step :: Enabled(s, step) && step != SaverTick
  {
    if s.closed {
      assert Enabled(s, SaverEnd) || Enabled(s, SaverTake);
    } else if s.next < s.end {
      assert Enabled(s, Launch);
    } else if ChunkOver(s) {
      assert Enabled(s, ChunkDone);
    } else {
      var i :| s.start <= i < s.end && i < |s.jobs| && !Finished(s.jobs[i]);
      assert Enabled(s, Work(i, Successor(s.jobs[i])));
    }
  }

  // ----- when results are saved and shown

  /** What one step adds to the save calls. */
  ghost predicate NewSaves(b: Buffers, b': Buffers, calls: seq<seq<nat>>) {
    b'.saves == b.saves + calls
  }

  /** A worker that is done hands its result to the channel, or saves it alone when 2048 results wait in it. */
  lemma DeliveredResult(s: State, i: nat, ok: bool, chunk: nat)
    requires i < |s.jobs| && s.jobs[i] == Pushed(ok)
    ensures var b, b' := s.buf, Apply(s, Work(i, Delivered(ok)), chunk).buf;
            && b'.chan == (if |b.chan| >= 2048 then b.chan else b.chan + [i])
            && NewSaves(b, b', if |b.chan| >= 2048 then [[i]] else [])
            && b'.batch == b.batch && b'.accumulating == b.accumulating && b'.broadcasts == b.broadcasts
  {
  }

  /** The saver takes the oldest result. Nothing is saved before a batch has a hundred results; then these hundred
      are saved in one call, in the order in which they came, and the next batch starts empty. */
  lemma SaverSavesAtHundred(s: State, chunk: nat)
    requires Inv(s, chunk) && Enabled(s, SaverTake)
    ensures var b, b' := s.buf, Apply(s, SaverTake, chunk).buf;
            && b'.chan == b.chan[1..] && |b.batch| < 100
            && (|b.batch| + 1 < 100 ==> NewSaves(b, b', []) && b'.batch == b.batch + [b.chan[0]])
            && (|b.batch| + 1 == 100 ==> NewSaves(b, b', [b.batch + [b.chan[0]]]) && b'.batch == [])
            && b'.accumulating == b.accumulating && b'.broadcasts == b.broadcasts
  {
  }

  /** The timer, and the end, save what there is and show what waits, in one call each, and leave both empty. */
  lemma TimerSavesWhatThereIs(s: State, step: Step, chunk: nat)
    requires Enabled(s, step) && (step.SaverTick? || step.SaverEnd?)
    ensures var b, b' := s.buf, Apply(s, step, chunk).buf;
            && b'.batch == [] && b'.accumulating == [] && b'.chan == b.chan
            && NewSaves(b, b', if |b.batch| > 0 then [b.batch] else [])
            && b'.broadcasts == b.broadcasts + (if |b.accumulating| > 0 then [b.accumulating] else [])
  {
  }

  /** No other step saves or shows anything. */
  lemma OthersSaveNothing(s: State, step: Step, chunk: nat)
    requires Enabled(s, step) && !step.SaverTake? && !step.SaverTick? && !step.SaverEnd? && !(step.Work? && step.to.Delivered?)
    ensures var b, b' := s.buf, Apply(s, step, chunk).buf;
            && NewSaves(b, b', []) && b'.broadcasts == b.broadcasts && b'.chan == b.chan && b'.batch == b.batch
            && b'.accumulating == (if step.Work? && step.to.Pushed? then b.accumulating + [step.i] else b.accumulating)
  {
  }
}
