/** `ConcurrentGeoResolver`: every enabled source fetches in its own goroutine, the first success is
    returned, and the channel is closed once all sources are done. */
module GeoRace {

  const CAPACITY := 5

  /** The unified record a source answers with. */
  type Answer = string

  /** The switches and keys that decide which sources take part. */
  datatype Config = Config(ip2Location: bool, ip2LocationKey: string, ipApi: bool, findIP: bool,
                           ipGeolocation: bool, ipGeolocationKey: string, ipWhois: bool)

  function One(b: bool): nat {
    if b then 1 else 0
  }

  function SourceCount(cfg: Config): (n: nat)
    ensures n <= CAPACITY
  {
    One(cfg.ip2Location && cfg.ip2LocationKey != "") + One(cfg.ipApi) + One(cfg.findIP)
    + One(cfg.ipGeolocation && cfg.ipGeolocationKey != "") + One(cfg.ipWhois)
  }

  /** A source goroutine: `Offering` stands at the select, `Sent` has sent but not yet called `cancel`.
      The last three have called `wg.Done`. */
  datatype Source = Fetching | Offering(result: Answer) | Sent(result: Answer) | Won(result: Answer) | GaveUp | Errored

  datatype Caller = Waiting | Answered(result: Answer) | AllFailed | ContextError

  /** `cancelled` is the derived context's own cancellation, `parentDone` the caller's context. */
  datatype State = State(
    sources: seq<Source>, chan: seq<Answer>, closed: bool, panicked: bool,
    parentDone: bool, cancelled: bool, caller: Caller)

  datatype Step =
    | FetchSucceeds(i: nat, result: Answer)
    | FetchFails(i: nat)
    | Send(i: nat)
    | GiveUp(i: nat)
    | Cancel(i: nat)
    | CloseChannel
    | ParentCancelled
    | Receive
    | ReceiveClosed
    | ReceiveDone

  function Start(n: nat): State {
    State(seq(n, _ => Fetching), [], false, false, false, false, Waiting)
  }

  predicate Over(p: Source) {
    p.Won? || p.GaveUp? || p.Errored?
  }

  predicate AllOver(s: State) {
    forall i :: 0 <= i < |s.sources| ==> Over(s.sources[i])
  }

  predicate Enabled(s: State, step: Step) {
    match step
    case FetchSucceeds(i, _) => i < |s.sources| && s.sources[i].Fetching?
    case FetchFails(i) => i < |s.sources| && s.sources[i].Fetching?
    case Send(i) => i < |s.sources| && s.sources[i].Offering? && (|s.chan| < CAPACITY || s.closed)
    case GiveUp(i) => i < |s.sources| && s.sources[i].Offering? && (s.parentDone || s.cancelled)
    case Cancel(i) => i < |s.sources| && s.sources[i].Sent?
    case CloseChannel => AllOver(s) && !s.closed
    case ParentCancelled => true
    case Receive => s.caller.Waiting? && s.chan != []
    case ReceiveClosed => s.caller.Waiting? && s.chan == [] && s.closed
    case ReceiveDone => s.caller.Waiting? && s.parentDone
  }

  function Apply(s: State, step: Step): State
    requires Enabled(s, step)
  {
    match step
    case FetchSucceeds(i, r) => s.(sources := s.sources[i := Offering(r)])
    case FetchFails(i) => s.(sources := s.sources[i := Errored])
    case Send(i) =>
      s.(sources := s.sources[i := Sent(s.sources[i].result)],
         chan := s.chan + [s.sources[i].result], panicked := s.panicked || s.closed)
    case GiveUp(i) => s.(sources := s.sources[i := GaveUp])
    case Cancel(i) => s.(sources := s.sources[i := Won(s.sources[i].result)], cancelled := true)
    case CloseChannel => s.(closed := true)
    case ParentCancelled => s.(parentDone := true)
    case Receive => s.(caller := Answered(s.chan[0]), chan := s.chan[1..], cancelled := true)
    case ReceiveClosed => s.(caller := AllFailed, cancelled := true)
    case ReceiveDone => s.(caller := ContextError, cancelled := true)
  }

  predicate IsRun(s: State, steps: seq<Step>)
    decreases |steps|
  {
    steps == [] || (Enabled(s, steps[0]) && IsRun(Apply(s, steps[0]), steps[1..]))
  }

  function Final(s: State, steps: seq<Step>): State
    requires IsRun(s, steps)
    decreases |steps|
  {
    if steps == [] then s else Final(Apply(s, steps[0]), steps[1..])
  }

  // ----- the invariant

  predicate HasSent(p: Source) {
    p.Sent? || p.Won?
  }

  function SentCount(sources: seq<Source>): nat {
    if sources == [] then 0 else One(HasSent(sources[0])) + SentCount(sources[1..])
  }

  ghost predicate SomeSent(s: State) {
    exists i :: 0 <= i < |s.sources| && HasSent(s.sources[i])
  }

  ghost predicate FromASource(s: State, r: Answer) {
    exists i :: 0 <= i < |s.sources| && HasSent(s.sources[i]) && s.sources[i].result == r
  }

  ghost predicate Inv(s: State) {
    && |s.sources| <= CAPACITY
    && !s.panicked
    && (s.closed ==> AllOver(s))
    && |s.chan| + One(s.caller.Answered?) == SentCount(s.sources)
    && (forall r :: r in s.chan ==> FromASource(s, r))
    && (s.caller.Answered? ==> FromASource(s, s.caller.result))
    && (s.cancelled ==> !s.caller.Waiting? || SomeSent(s))
    && (s.caller.Waiting? ==> forall i :: 0 <= i < |s.sources| && s.sources[i].GaveUp? ==> s.parentDone || SomeSent(s))
    && (s.caller.AllFailed? ==> s.parentDone || forall i :: 0 <= i < |s.sources| ==> s.sources[i].Errored?)
    && (s.caller.AllFailed? ==> AllOver(s))
    && (s.caller.ContextError? ==> s.parentDone)
  }

  lemma {:induction false} SentCountUpdate(sources: seq<Source>, i: nat, p: Source)
    requires i < |sources|
    ensures SentCount(sources[i := p]) == SentCount(sources) - One(HasSent(sources[i])) + One(HasSent(p))
    ensures !HasSent(sources[i]) ==> SentCount(sources) < |sources|
    ensures HasSent(sources[i]) ==> SentCount(sources) > 0
    ensures SentCount(sources) <= |sources|
    decreases |sources|
  {
    if i > 0 {
      SentCountUpdate(sources[1..], i - 1, p);
      assert sources[i := p][1..] == sources[1..][i - 1 := p];
    } else {
      assert sources[i := p][1..] == sources[1..];
      SentCountBound(sources[1..]);
    }
  }

  lemma {:induction false} SentCountBound(sources: seq<Source>)
    ensures SentCount(sources) <= |sources|
    ensures SentCount(sources) == 0 <==> forall i :: 0 <= i < |sources| ==> !HasSent(sources[i])
  {
    if sources != [] {
      SentCountBound(sources[1..]);
      assert forall i :: 1 <= i < |sources| ==> sources[i] == sources[1..][i - 1];
    }
  }

  lemma SentPersists(s: State, step: Step)
    requires Enabled(s, step)
    ensures SomeSent(s) ==> SomeSent(Apply(s, step))
    ensures forall r :: FromASource(s, r) ==> FromASource(Apply(s, step), r)
  {
    var s' := Apply(s, step);
    assert |s'.sources| == |s.sources|;
    assert forall i :: 0 <= i < |s.sources| && HasSent(s.sources[i]) ==>
      HasSent(s'.sources[i]) && s'.sources[i].result == s.sources[i].result;
  }

  lemma StepKeepsCount(s: State, step: Step)
    requires Inv(s) && Enabled(s, step)
    ensures |Apply(s, step).chan| + One(Apply(s, step).caller.Answered?) == SentCount(Apply(s, step).sources)
    ensures !Apply(s, step).panicked
  {
    match step
    case FetchSucceeds(i, r) => SentCountUpdate(s.sources, i, Offering(r));
    case FetchFails(i) => SentCountUpdate(s.sources, i, Errored);
    case Send(i) => SentCountUpdate(s.sources, i, Sent(s.sources[i].result));
    case GiveUp(i) => SentCountUpdate(s.sources, i, GaveUp);
    case Cancel(i) => SentCountUpdate(s.sources, i, Won(s.sources[i].result));
    case _ =>
  }

  lemma StepKeepsChannel(s: State, step: Step)
    requires Inv(s) && Enabled(s, step)
    ensures forall r :: r in Apply(s, step).chan ==> FromASource(Apply(s, step), r)
    ensures Apply(s, step).caller.Answered? ==> FromASource(Apply(s, step), Apply(s, step).caller.result)
  {
    SentPersists(s, step);
    if step.Send? {
      assert HasSent(Apply(s, step).sources[step.i]);
      assert FromASource(Apply(s, step), s.sources[step.i].result);
    }
  }

  lemma StepKeepsCancellation(s: State, step: Step)
    requires Inv(s) && Enabled(s, step)
    ensures var s' := Apply(s, step);
            && (s'.cancelled ==> !s'.caller.Waiting? || SomeSent(s'))
            && (s'.caller.Waiting? ==>
                  forall i :: 0 <= i < |s'.sources| && s'.sources[i].GaveUp? ==> s'.parentDone || SomeSent(s'))
            && (s'.caller.AllFailed? ==> s'.parentDone || forall i :: 0 <= i < |s'.sources| ==> s'.sources[i].Errored?)
  {
    SentPersists(s, step);
    SentCountBound(s.sources);
    if step.Cancel? {
      assert HasSent(Apply(s, step).sources[step.i]);
    }
  }

  lemma StepKeepsInv(s: State, step: Step)
    requires Inv(s) && Enabled(s, step)
    ensures Inv(Apply(s, step))
  {
    StepKeepsCount(s, step);
    StepKeepsChannel(s, step);
    StepKeepsCancellation(s, step);
  }

  lemma {:induction false} RunKeepsInv(s: State, steps: seq<Step>)
    requires Inv(s) && IsRun(s, steps)
    ensures Inv(Final(s, steps)) && |Final(s, steps).sources| == |s.sources|
    decreases |steps|
  {
    if steps != [] {
      StepKeepsInv(s, steps[0]);
      RunKeepsInv(Apply(s, steps[0]), steps[1..]);
    }
  }

  lemma {:induction false} StartCount(n: nat)
    ensures SentCount(seq(n, _ => Fetching)) == 0
  {
    SentCountBound(seq(n, _ => Fetching));
  }

  /** In every interleaving nothing is sent on the closed channel; an answer is a result that some
      source fetched; and "all failed" means that every source failed, or that the caller gave up. */
  lemma RaceIsSafe(cfg: Config, steps: seq<Step>)
    requires IsRun(Start(SourceCount(cfg)), steps)
    ensures var s := Final(Start(SourceCount(cfg)), steps);
            && !s.panicked
            && (s.caller.Answered? ==> FromASource(s, s.caller.result))
            && (s.caller.AllFailed? ==> s.parentDone || forall i :: 0 <= i < |s.sources| ==> s.sources[i].Errored?)
            && (s.caller.ContextError? ==> s.parentDone)
  {
    StartCount(SourceCount(cfg));
    RunKeepsInv(Start(SourceCount(cfg)), steps);
  }

  /** The buffer is large enough: a source that has a result can always send it. */
  lemma NoSenderBlocks(s: State, i: nat)
    requires Inv(s) && i < |s.sources| && s.sources[i].Offering?
    ensures Enabled(s, Send(i)) && !s.closed
  {
    SentCountUpdate(s.sources, i, GaveUp);
  }

  /** Once every fetch has come back, the caller is never stuck:
      some source can move, the channel can be closed, or the caller can receive. */
  lemma CallerIsServed(s: State)
    requires Inv(s) && s.caller.Waiting? && forall i :: 0 <= i < |s.sources| ==> !s.sources[i].Fetching?
    ensures || Enabled(s, Receive) || Enabled(s, ReceiveClosed) || Enabled(s, CloseChannel)
            || exists i: nat :: Enabled(s, Send(i)) || Enabled(s, Cancel(i))
  {
    if i :| 0 <= i < |s.sources| && !Over(s.sources[i]) {
      if s.sources[i].Offering? {
        NoSenderBlocks(s, i);
      } else {
        assert Enabled(s, Cancel(i));
      }
    }
  }

  // ----- the race ends

  function Distance(p: Source): nat {
    match p
    case Fetching => 3
    case Offering(_) => 2
    case Sent(_) => 1
    case _ => 0
  }

  function TotalDistance(sources: seq<Source>): nat {
    if sources == [] then 0 else Distance(sources[0]) + TotalDistance(sources[1..])
  }

  lemma {:induction false} DistanceUpdate(sources: seq<Source>, i: nat, p: Source)
    requires i < |sources|
    ensures TotalDistance(sources[i := p]) == TotalDistance(sources) - Distance(sources[i]) + Distance(p)
    decreases |sources|
  {
    if i > 0 {
      DistanceUpdate(sources[1..], i - 1, p);
      assert sources[i := p][1..] == sources[1..][i - 1 := p];
    } else {
      assert sources[i := p][1..] == sources[1..];
    }
  }

  /** What the sources, the closer and the caller still have to do. */
  function WorkLeft(s: State): nat {
    TotalDistance(s.sources) + One(!s.closed) + One(s.caller.Waiting?)
  }

  /** Every step but the caller's own cancellation shortens the work left: no goroutine outlives the race by
      more than its own remaining steps. */
  lemma StepShortens(s: State, step: Step)
    requires Enabled(s, step)
    ensures step != ParentCancelled ==> WorkLeft(Apply(s, step)) < WorkLeft(s)
    ensures step == ParentCancelled ==> WorkLeft(Apply(s, step)) == WorkLeft(s)
  {
    match step
    case FetchSucceeds(i, r) => DistanceUpdate(s.sources, i, Offering(r));
    case FetchFails(i) => DistanceUpdate(s.sources, i, Errored);
    case Send(i) => DistanceUpdate(s.sources, i, Sent(s.sources[i].result));
    case GiveUp(i) => DistanceUpdate(s.sources, i, GaveUp);
    case Cancel(i) => DistanceUpdate(s.sources, i, Won(s.sources[i].result));
    case _ =>
  }

  /** A run without cancellations from outside is no longer than 3 steps a source and two more. */
  lemma {:induction false} RunsAreShort(s: State, steps: seq<Step>)
    requires IsRun(s, steps) && ParentCancelled !in steps
    ensures |steps| + WorkLeft(Final(s, steps)) <= WorkLeft(s)
    decreases |steps|
  {
    if steps != [] {
      assert steps[0] in steps;
      StepShortens(s, steps[0]);
      RunsAreShort(Apply(s, steps[0]), steps[1..]);
    }
  }

  lemma {:induction false} WorkAtStart(sources: seq<Source>)
    requires forall i :: 0 <= i < |sources| ==> sources[i] == Fetching
    ensures TotalDistance(sources) == 3 * |sources|
  {
    if sources != [] {
      WorkAtStart(sources[1..]);
    }
  }

  ghost predicate Quiescent(s: State) {
    forall step :: step != ParentCancelled ==> !Enabled(s, step)
  }

  lemma QuiescentIsServed(s: State)
    requires Inv(s) && Quiescent(s)
    ensures AllOver(s) && s.closed && !s.caller.Waiting?
  {
    forall i: nat | i < |s.sources| ensures Over(s.sources[i]) {
      assert !Enabled(s, FetchFails(i)) && !Enabled(s, Cancel(i)) && !Enabled(s, Send(i));
      if s.sources[i].Offering? {
        NoSenderBlocks(s, i);
      }
    }
    assert !Enabled(s, CloseChannel);
    assert !Enabled(s, Receive) && !Enabled(s, ReceiveClosed);
  }

  /** The race ends: a run has at most 17 steps, and when no step is left every source is done, the channel is
      closed and the caller has its answer. */
  lemma RaceEnds(cfg: Config, steps: seq<Step>)
    requires IsRun(Start(SourceCount(cfg)), steps) && ParentCancelled !in steps
    ensures |steps| <= 3 * SourceCount(cfg) + 2 <= 17
    ensures var s := Final(Start(SourceCount(cfg)), steps);
            Quiescent(s) ==> AllOver(s) && s.closed && !s.caller.Waiting?
  {
    WorkAtStart(Start(SourceCount(cfg)).sources);
    RunsAreShort(Start(SourceCount(cfg)), steps);
    StartCount(SourceCount(cfg));
    RunKeepsInv(Start(SourceCount(cfg)), steps);
    if Quiescent(Final(Start(SourceCount(cfg)), steps)) {
      QuiescentIsServed(Final(Start(SourceCount(cfg)), steps));
    }
  }

  // ----- who takes part, and whose answer it is

  datatype Provider = IP2Location | IpApi | FindIP | IpGeolocation | IpWhois

  /** Each source is switched on; two of them also need a key. */
  ghost predicate TakesPart(cfg: Config, p: Provider) {
    match p
    case IP2Location => cfg.ip2Location && |cfg.ip2LocationKey| > 0
    case IpApi => cfg.ipApi
    case FindIP => cfg.findIP
    case IpGeolocation => cfg.ipGeolocation && |cfg.ipGeolocationKey| > 0
    case IpWhois => cfg.ipWhois
  }

  function Rank(p: Provider): nat {
    match p
    case IP2Location => 0
    case IpApi => 1
    case FindIP => 2
    case IpGeolocation => 3
    case IpWhois => 4
  }

  ghost function Before(cfg: Config, n: nat): set<Provider> {
    set p: Provider | Rank(p) < n && TakesPart(cfg, p)
  }

  lemma OneMore(cfg: Config, p: Provider)
    ensures |Before(cfg, Rank(p) + 1)| == |Before(cfg, Rank(p))| + One(TakesPart(cfg, p))
  {
    var s := Before(cfg, Rank(p));
    forall q: Provider | Rank(q) == Rank(p) ensures q == p {
    }
    assert Before(cfg, Rank(p) + 1) == if TakesPart(cfg, p) then s + {p} else s;
  }

  lemma CountedOneByOne(cfg: Config)
    ensures |Before(cfg, 5)| == One(TakesPart(cfg, IP2Location)) + One(TakesPart(cfg, IpApi)) + One(TakesPart(cfg, FindIP))
                                + One(TakesPart(cfg, IpGeolocation)) + One(TakesPart(cfg, IpWhois))
  {
    assert Before(cfg, 0) == {};
    OneMore(cfg, IP2Location);
    OneMore(cfg, IpApi);
    OneMore(cfg, FindIP);
    OneMore(cfg, IpGeolocation);
    OneMore(cfg, IpWhois);
  }

  /** Exactly the sources that are switched on, and have their key where one is needed, take part. */
  lemma SourcesTakePart(cfg: Config)
    ensures SourceCount(cfg) == |set p: Provider | TakesPart(cfg, p)|
  {
    CountedOneByOne(cfg);
    assert Before(cfg, 5) == set p: Provider | TakesPart(cfg, p);
  }

  /** What a step sends. */
  function SentBy(s: State, step: Step): seq<Answer>
    requires Enabled(s, step)
  {
    if step.Send? then [s.sources[step.i].result] else []
  }

  /** The results sent in a run, in the order in which they were sent. */
  function SentIn(s: State, steps: seq<Step>): seq<Answer>
    requires IsRun(s, steps)
    decreases |steps|
  {
    if steps == [] then [] else SentBy(s, steps[0]) + SentIn(Apply(s, steps[0]), steps[1..])
  }

  lemma {:induction false} ServedStays(s: State, steps: seq<Step>)
    requires IsRun(s, steps) && !s.caller.Waiting?
    ensures Final(s, steps).caller == s.caller
    decreases |steps|
  {
    if steps != [] {
      ServedStays(Apply(s, steps[0]), steps[1..]);
    }
  }

  lemma StepSends(s: State, step: Step)
    requires Enabled(s, step) && s.caller.Waiting?
    ensures Apply(s, step).caller.Waiting? ==> Apply(s, step).chan == s.chan + SentBy(s, step)
    ensures Apply(s, step).caller.Answered? ==> s.chan != [] && Apply(s, step).caller.result == s.chan[0]
  {
    assert s.chan + [] == s.chan;
  }

  /** What waits in the channel and what is sent, in order: the caller takes the first of it. */
  ghost predicate TakesFirst(t: State, sent: seq<Answer>) {
    && (t.caller.Waiting? ==> t.chan == sent)
    && (t.caller.Answered? ==> sent != [] && t.caller.result == sent[0])
  }

  lemma {:induction false} ReceivesOldest(s: State, steps: seq<Step>)
    requires IsRun(s, steps) && s.caller.Waiting?
    ensures TakesFirst(Final(s, steps), s.chan + SentIn(s, steps))
    decreases |steps|
  {
    if steps == [] {
      assert s.chan + [] == s.chan;
    } else {
      var s1 := Apply(s, steps[0]);
      StepSends(s, steps[0]);
      var rest := SentIn(s1, steps[1..]);
      assert s.chan + (SentBy(s, steps[0]) + rest) == s.chan + SentBy(s, steps[0]) + rest;
      if s1.caller.Waiting? {
        ReceivesOldest(s1, steps[1..]);
      } else {
        ServedStays(s1, steps[1..]);
      }
    }
  }

  /** The caller's answer is the result that was sent first, by the source that was fastest. */
  lemma FirstSentWins(cfg: Config, steps: seq<Step>)
    requires IsRun(Start(SourceCount(cfg)), steps)
    ensures var s0 := Start(SourceCount(cfg));
            Final(s0, steps).caller.Answered? ==>
              SentIn(s0, steps) != [] && Final(s0, steps).caller.result == SentIn(s0, steps)[0]
  {
    var s0 := Start(SourceCount(cfg));
    ReceivesOldest(s0, steps);
    assert s0.chan + SentIn(s0, steps) == SentIn(s0, steps);
  }

  ghost predicate OthersStopped(s: State) {
    && (!s.caller.Waiting? ==> s.cancelled)
    && (forall i :: 0 <= i < |s.sources| && s.sources[i].Won? ==> s.cancelled)
  }

  lemma {:induction false} RunStopsOthers(s: State, steps: seq<Step>)
    requires OthersStopped(s) && IsRun(s, steps)
    ensures OthersStopped(Final(s, steps))
    decreases |steps|
  {
    if steps != [] {
      RunStopsOthers(Apply(s, steps[0]), steps[1..]);
    }
  }

  /** Once the caller returns, or a source has handed over its result, the fetches of all sources are cancelled. */
  lemma OthersAreCancelled(cfg: Config, steps: seq<Step>)
    requires IsRun(Start(SourceCount(cfg)), steps)
    ensures OthersStopped(Final(Start(SourceCount(cfg)), steps))
  {
    RunStopsOthers(Start(SourceCount(cfg)), steps);
  }
}
