/** Start and Stop calls, any number of supervisors and failover monitors (stale ones included), and
    crashing children, interleaved one critical section at a time. */
module Supervision {
  import opened Failover
  import opened EhcoEngine
  import opened Wrappers

  /** Where a supervisor stands between its critical sections. `chan` is the stop channel it read. */
  datatype Supervisor =
    | Checking
    | BackingOff(chan: Option<nat>)
    | SleepingDead(chan: Option<nat>)
    | Rechecking
    | Restarting
    | Resetting
    | SleepingAlive(chan: Option<nat>)
    | SupervisorGone

  datatype MonitorPoint = WaitingTick | Probing | MonitorGone

  datatype Monitor = Monitor(cfg: ClientConfig, chan: nat, at: MonitorPoint, counters: Counters)

  datatype System = System(e: State, sups: seq<Supervisor>, mons: seq<Monitor>)

  /** Every nondeterministic outcome is part of the step's label. */
  datatype Step =
    | StartServer(l: Launch)
    | StartClient(cfg: ClientConfig, l: Launch)
    | StopEngine
    | Crash(pid: nat)
    | SupCheck(i: nat, alive: bool)
    | SupBackOff(i: nat)
    | SupTimeout(i: nat)
    | SupStopped(i: nat)
    | SupRecheck(i: nat)
    | SupRestart(i: nat, db: Stored, l: Launch)
    | SupReset(i: nat)
    | MonTick(i: nat)
    | MonStopped(i: nat)
    | MonProbe(i: nat, healthy: bool, l: Launch)

  predicate IsStart(step: Step) {
    step.StartServer? || step.StartClient?
  }

  /** A receive on a closed channel is always ready; on a nil channel it never is. */
  predicate Signalled(e: State, chan: Option<nat>) {
    chan.Some? && chan.value in e.closed
  }

  /** A process that runs is reported alive, and nothing is without a started command. */
  predicate HonestLiveness(e: State, alive: bool) {
    && (alive ==> e.cmd.Started?)
    && (e.cmd.Started? && e.cmd.pid in e.live ==> alive)
  }

  predicate Enabled(s: System, step: Step) {
    match step
    case StartServer(_) => true
    case StartClient(_, _) => true
    case StopEngine => true
    case Crash(pid) => pid in s.e.live
    case SupCheck(i, alive) => i < |s.sups| && s.sups[i].Checking? && (s.e.expectedRun ==> HonestLiveness(s.e, alive))
    case SupBackOff(i) => i < |s.sups| && s.sups[i].BackingOff?
    case SupTimeout(i) => i < |s.sups| && (s.sups[i].SleepingDead? || s.sups[i].SleepingAlive?)
    case SupStopped(i) => i < |s.sups| && (s.sups[i].SleepingDead? || s.sups[i].SleepingAlive?) && Signalled(s.e, s.sups[i].chan)
    case SupRecheck(i) => i < |s.sups| && s.sups[i].Rechecking?
    case SupRestart(i, _, _) => i < |s.sups| && s.sups[i].Restarting?
    case SupReset(i) => i < |s.sups| && s.sups[i].Resetting?
    case MonTick(i) => i < |s.mons| && s.mons[i].at.WaitingTick?
    case MonStopped(i) => i < |s.mons| && s.mons[i].at.WaitingTick? && Signalled(s.e, Some(s.mons[i].chan))
    case MonProbe(i, _, _) => i < |s.mons| && s.mons[i].at.Probing?
  }

  function Sup(s: System, i: nat, p: Supervisor): System
    requires i < |s.sups|
  {
    s.(sups := s.sups[i := p])
  }

  function Mon(s: System, i: nat, m: Monitor): System
    requires i < |s.mons|
  {
    s.(mons := s.mons[i := m])
  }

  function Apply(s: System, step: Step): System
    requires Enabled(s, step)
  {
    match step
    case StartServer(l) =>
      var e := ServerStarted(s.e, l);
      if l == Launched then s.(e := e, sups := s.sups + [Checking]) else s.(e := e)
    case StartClient(cfg, l) =>
      var e := ClientStarted(s.e, cfg, l);
      if l != Launched then s.(e := e)
      else
        s.(e := e, sups := s.sups + [Checking],
           mons := if cfg.secondaryURL == "" then s.mons
                   else s.mons + [Monitor(cfg, s.e.chans, WaitingTick, Counters(0, 0))])
    case StopEngine => s.(e := Stopped(s.e))
    case Crash(pid) => s.(e := s.e.(live := s.e.live - {pid}))
    case SupCheck(i, alive) =>
      Sup(s, i, if !s.e.expectedRun then SupervisorGone else if alive then SleepingAlive(s.e.stopChan) else BackingOff(s.e.stopChan))
    case SupBackOff(i) => Sup(s, i, SleepingDead(s.sups[i].chan)).(e := BackedOff(s.e))
    case SupTimeout(i) => Sup(s, i, if s.sups[i].SleepingDead? then Rechecking else Checking)
    case SupStopped(i) => Sup(s, i, SupervisorGone)
    case SupRecheck(i) => Sup(s, i, if s.e.expectedRun then Restarting else SupervisorGone)
    case SupRestart(i, db, l) =>
      Sup(s, i, if RestartFails(s.e, db, l) then Checking else Resetting).(e := Restarted(s.e, db, l))
    case SupReset(i) => Sup(s, i, Checking).(e := s.e.(restartDelay := 1))
    case MonTick(i) =>
      Mon(s, i, s.mons[i].(at := if !s.e.expectedRun || s.e.serverMode then MonitorGone else Probing))
    case MonStopped(i) => Mon(s, i, s.mons[i].(at := MonitorGone))
    case MonProbe(i, healthy, l) =>
      var (e, c) := Probed(s.e, s.mons[i].cfg, s.mons[i].counters, healthy, l);
      Mon(s, i, s.mons[i].(at := if s.e.expectedRun then WaitingTick else MonitorGone, counters := c)).(e := e)
  }

  predicate IsRun(s: System, steps: seq<Step>)
    decreases |steps|
  {
    steps == [] || (Enabled(s, steps[0]) && IsRun(Apply(s, steps[0]), steps[1..]))
  }

  function Final(s: System, steps: seq<Step>): System
    requires IsRun(s, steps)
    decreases |steps|
  {
    if steps == [] then s else Final(Apply(s, steps[0]), steps[1..])
  }

  const START := System(INITIAL, [], [])

  // ----- the invariant

  /** At most one child is live and it is the one in `cmdInstance`. */
  predicate OneChild(e: State) {
    && e.live <= (if e.cmd.Started? then {e.cmd.pid} else {})
    && (e.cmd.Started? ==> e.cmd.pid < e.pids)
  }

  /** A client process tunnels through `activeURL`. */
  predicate ClientFollowsURL(e: State) {
    e.cmd.Started? && e.cmd.kind.ClientProcess? ==> e.cmd.kind.url == e.activeURL
  }

  /** The stop channel is open exactly while the engine is expected to run, all others are closed. */
  predicate Channels(e: State) {
    && !e.panicked
    && (e.expectedRun <==> e.stopChan.Some?)
    && (e.stopChan.Some? ==> e.stopChan.value < e.chans && e.stopChan.value !in e.closed)
    && (forall c: nat :: c < e.chans ==> c in e.closed || e.stopChan == Some(c))
    && (forall c :: c in e.closed ==> c < e.chans)
  }

  predicate Known(e: State, chan: Option<nat>) {
    chan.Some? && chan.value < e.chans
  }

  predicate SupKnown(e: State, p: Supervisor) {
    (p.BackingOff? || p.SleepingDead? || p.SleepingAlive?) ==> Known(e, p.chan)
  }

  predicate EngineInv(e: State) {
    OneChild(e) && ClientFollowsURL(e) && Channels(e) && e.restartDelay <= 30
  }

  predicate Inv(s: System) {
    && EngineInv(s.e)
    && (forall i :: 0 <= i < |s.sups| ==> SupKnown(s.e, s.sups[i]))
    && (forall i :: 0 <= i < |s.mons| ==> Known(s.e, Some(s.mons[i].chan)))
  }

  // ----- the critical sections keep it

  lemma StoppedKeeps(s: State)
    requires EngineInv(s)
    ensures EngineInv(Stopped(s)) && Stopped(s).live == {} && Stopped(s).cmd == NoCommand
    ensures Stopped(s).chans == s.chans && !Stopped(s).expectedRun
  {
  }

  /** Launching is safe on an engine whose slot is empty: nothing is orphaned. */
  lemma ExecutedKeeps(s: State, kind: Kind, l: Launch)
    requires EngineInv(s) && s.live == {} && s.cmd == NoCommand
    requires kind.ClientProcess? ==> kind.url == s.activeURL
    ensures EngineInv(Executed(s, kind, l)) && Executed(s, kind, l).chans == s.chans
  {
  }

  lemma ClientLaunchedKeeps(s: State, cfg: ClientConfig, l: Launch)
    requires EngineInv(s) && s.live == {} && s.cmd == NoCommand
    ensures EngineInv(ClientLaunched(s, cfg, l)) && ClientLaunched(s, cfg, l).chans == s.chans
    ensures ClientLaunched(s, cfg, l).expectedRun == s.expectedRun && ClientLaunched(s, cfg, l).stopChan == s.stopChan
  {
    var url := if s.activeURL == "" then PrimaryURL(cfg) else s.activeURL;
    ExecutedKeeps(s.(activeURL := url), ClientProcess(url), l);
  }

  lemma StartedKeeps(s: State, cfg: ClientConfig, l: Launch)
    requires EngineInv(s)
    ensures EngineInv(ServerStarted(s, l)) && s.chans <= ServerStarted(s, l).chans
    ensures EngineInv(ClientStarted(s, cfg, l)) && s.chans <= ClientStarted(s, cfg, l).chans
    ensures l == Launched ==> ClientStarted(s, cfg, l).chans == s.chans + 1
  {
    StoppedKeeps(s);
    ExecutedKeeps(Stopped(s), ServerProcess, l);
    ClientLaunchedKeeps(Stopped(s).(activeURL := PrimaryURL(cfg)), cfg, l);
    RunningKeeps(ServerLaunched(Stopped(s), l), true);
    RunningKeeps(ClientLaunched(Stopped(s).(activeURL := PrimaryURL(cfg)), cfg, l), false);
  }

  lemma RunningKeeps(s: State, mode: bool)
    requires EngineInv(s) && !s.expectedRun
    ensures EngineInv(Running(s, mode))
  {
  }

  lemma RestartedKeeps(s: State, db: Stored, l: Launch)
    requires EngineInv(s)
    ensures EngineInv(Restarted(s, db, l)) && Restarted(s, db, l).chans == s.chans
  {
    if s.expectedRun && db.Active? {
      ExecutedKeeps(Killed(s), ServerProcess, l);
      ClientLaunchedKeeps(Killed(s), db.client, l);
    }
  }

  lemma SwitchKeeps(s: State, url: string, cfg: ClientConfig, l: Launch)
    requires EngineInv(s)
    ensures var s' := ClientLaunched(Killed(s.(activeURL := url)), cfg, l); EngineInv(s') && s'.chans == s.chans
  {
    ClientLaunchedKeeps(Killed(s.(activeURL := url)), cfg, l);
  }

  lemma ProbedKeeps(s: State, cfg: ClientConfig, c: Counters, healthy: bool, l: Launch)
    requires EngineInv(s)
    ensures EngineInv(Probed(s, cfg, c, healthy, l).0) && Probed(s, cfg, c, healthy, l).0.chans == s.chans
  {
    SwitchKeeps(s, PrimaryURL(cfg), cfg, l);
    SwitchKeeps(s, cfg.secondaryURL, cfg, l);
  }

  lemma StepKeepsEngine(s: System, step: Step)
    requires Inv(s) && Enabled(s, step)
    ensures EngineInv(Apply(s, step).e) && s.e.chans <= Apply(s, step).e.chans
  {
    match step
    case StartServer(l) => StartedKeeps(s.e, ClientConfig("", false, "", ""), l);
    case StartClient(cfg, l) => StartedKeeps(s.e, cfg, l);
    case StopEngine => StoppedKeeps(s.e);
    case SupRestart(_, db, l) => RestartedKeeps(s.e, db, l);
    case MonProbe(i, healthy, l) => ProbedKeeps(s.e, s.mons[i].cfg, s.mons[i].counters, healthy, l);
    case _ =>
  }

  lemma StepKeepsInv(s: System, step: Step)
    requires Inv(s) && Enabled(s, step)
    ensures Inv(Apply(s, step))
  {
    StepKeepsEngine(s, step);
    if step.StartClient? {
      StartedKeeps(s.e, step.cfg, step.l);
    }
  }

  /** Under every interleaving at most one child is live, a live child is `cmdInstance`, the stop
      channel is never closed twice, and a client tunnels through `activeURL`. */
  lemma {:induction false} EveryRunIsSafe(s: System, steps: seq<Step>)
    requires Inv(s) && IsRun(s, steps)
    ensures Inv(Final(s, steps))
    decreases |steps|
  {
    if steps != [] {
      StepKeepsInv(s, steps[0]);
      EveryRunIsSafe(Apply(s, steps[0]), steps[1..]);
    }
  }

  lemma SafeFromStart(steps: seq<Step>)
    requires IsRun(START, steps)
    ensures var e := Final(START, steps).e;
            && (forall p, q :: p in e.live && q in e.live ==> p == q)
            && (forall p :: p in e.live ==> e.cmd.Started? && e.cmd.pid == p)
            && !e.panicked
  {
    EveryRunIsSafe(START, steps);
  }

  // ----- after a stop

  /** Once the engine is not expected to run, no step but a Start call starts a process. */
  lemma NoStartWhileStopped(s: System, step: Step)
    requires Inv(s) && Enabled(s, step) && !s.e.expectedRun && !IsStart(step)
    ensures !Apply(s, step).e.expectedRun
    ensures Apply(s, step).e.pids == s.e.pids
    ensures Apply(s, step).e.live <= s.e.live
  {
  }

  lemma {:induction false} QuietUntilStart(s: System, steps: seq<Step>)
    requires Inv(s) && IsRun(s, steps) && !s.e.expectedRun
    requires forall step | step in steps :: !IsStart(step)
    ensures Final(s, steps).e.pids == s.e.pids && Final(s, steps).e.live <= s.e.live
    ensures !Final(s, steps).e.expectedRun
    decreases |steps|
  {
    if steps != [] {
      NoStartWhileStopped(s, steps[0]);
      StepKeepsInv(s, steps[0]);
      QuietUntilStart(Apply(s, steps[0]), steps[1..]);
    }
  }

  /** After `StopEngine`, in any reachable state, nothing runs and nothing is started until the next
      Start call, whatever the surviving supervisors and monitors do. */
  lemma StopStaysStopped(before: seq<Step>, after: seq<Step>)
    requires IsRun(START, before) && IsRun(Apply(Final(START, before), StopEngine), after)
    requires forall step | step in after :: !IsStart(step)
    ensures var stopped := Apply(Final(START, before), StopEngine);
            && Final(stopped, after).e.live == {}
            && Final(stopped, after).e.pids == stopped.e.pids
  {
    EveryRunIsSafe(START, before);
    var s := Final(START, before);
    StoppedKeeps(s.e);
    StepKeepsInv(s, StopEngine);
    QuietUntilStart(Apply(s, StopEngine), after);
  }

  /** A stop reaches every sleeper: each goroutine that waits on a channel can leave. */
  lemma StopSignalsEveryone(s: System, i: nat)
    requires Inv(s) && !s.e.expectedRun
    ensures i < |s.sups| && (s.sups[i].SleepingDead? || s.sups[i].SleepingAlive?) ==> Enabled(s, SupStopped(i))
    ensures i < |s.mons| && s.mons[i].at.WaitingTick? ==> Enabled(s, MonStopped(i))
  {
  }

  // ----- what stale goroutines can still do

  /** The process that runs is of the kind the engine is set to. */
  predicate KindMatchesMode(e: State) {
    e.expectedRun && e.cmd.Started? ==> (e.cmd.kind.ServerProcess? <==> e.serverMode)
  }

  /** The monitor re-checks `expectedRun` after its probe, not the mode: the only step that puts the
      wrong kind of process in the slot is a launching switch by a monitor of an earlier client run. */
  lemma WrongKindIffStaleSwitch(s: System, step: Step)
    requires Inv(s) && Enabled(s, step) && KindMatchesMode(s.e)
    ensures !KindMatchesMode(Apply(s, step).e) <==>
            && step.MonProbe? && step.l == Launched && s.e.expectedRun && s.e.serverMode
            && var m := s.mons[step.i];
               var side := SideOf(s.e.activeURL, PrimaryURL(m.cfg), m.cfg.secondaryURL);
               Probe(side, m.counters, step.healthy, PrimaryURL(m.cfg) != m.cfg.secondaryURL).switched
  {
  }

  const CLIENT := ClientConfig("p", false, "", "s")

  /** A client run whose monitor has seen `n` failed probes. */
  function ClientRun(n: nat, at: MonitorPoint): System {
    System(State(Started(0, ClientProcess("p")), {0}, 1, true, false, Some(0), 1, {}, false, 1, "p"),
           [Checking], [Monitor(CLIENT, 0, at, Counters(n, 0))])
  }

  lemma FailedProbe(n: nat, rest: seq<Step>)
    requires n < 2 && IsRun(ClientRun(n + 1, WaitingTick), rest)
    ensures IsRun(ClientRun(n, WaitingTick), [MonTick(0)] + ([MonProbe(0, false, Launched)] + rest))
    ensures Final(ClientRun(n, WaitingTick), [MonTick(0)] + ([MonProbe(0, false, Launched)] + rest))
            == Final(ClientRun(n + 1, WaitingTick), rest)
  {
    assert Apply(ClientRun(n, Probing), MonProbe(0, false, Launched)) == ClientRun(n + 1, WaitingTick);
    RunStep(ClientRun(n, Probing), MonProbe(0, false, Launched), rest);
    assert Apply(ClientRun(n, WaitingTick), MonTick(0)) == ClientRun(n, Probing);
    RunStep(ClientRun(n, WaitingTick), MonTick(0), [MonProbe(0, false, Launched)] + rest);
  }

  /** The third probe is in flight when the engine is restarted as a server. */
  lemma ProbeAcrossRestart() returns (rest: seq<Step>)
    ensures IsRun(ClientRun(2, WaitingTick), rest)
    ensures var e := Final(ClientRun(2, WaitingTick), rest).e;
            e.serverMode && e.cmd == Started(2, ClientProcess("s")) && e.live == {2}
  {
    var s1 := ClientRun(2, Probing);
    assert Apply(ClientRun(2, WaitingTick), MonTick(0)) == s1;
    var s2 := Apply(s1, StartServer(Launched));
    var s3 := Apply(s2, MonProbe(0, false, Launched));
    assert s3.e.live == {2};
    RunStep(s2, MonProbe(0, false, Launched), []);
    RunStep(s1, StartServer(Launched), [MonProbe(0, false, Launched)] + []);
    rest := [MonTick(0)] + ([StartServer(Launched)] + ([MonProbe(0, false, Launched)] + []));
    RunStep(ClientRun(2, WaitingTick), MonTick(0), rest[1..]);
  }

  /** Two failed probes, then the third across the restart. */
  lemma FailingClient() returns (rest: seq<Step>)
    ensures IsRun(ClientRun(0, WaitingTick), rest)
    ensures var e := Final(ClientRun(0, WaitingTick), rest).e;
            e.serverMode && e.cmd == Started(2, ClientProcess("s")) && e.live == {2}
  {
    rest := ProbeAcrossRestart();
    FailedProbe(1, rest);
    rest := [MonTick(0)] + ([MonProbe(0, false, Launched)] + rest);
    FailedProbe(0, rest);
    rest := [MonTick(0)] + ([MonProbe(0, false, Launched)] + rest);
  }

  lemma ClientStarts()
    ensures Apply(START, StartClient(CLIENT, Launched)) == ClientRun(0, WaitingTick)
  {
  }

  /** Such a run exists: in server mode the one live child is a client. */
  lemma StaleMonitorReplacesServer()
    ensures exists steps :: IsRun(START, steps) &&
              var e := Final(START, steps).e; e.serverMode && e.cmd == Started(2, ClientProcess("s")) && e.live == {2}
  {
    var rest := FailingClient();
    ClientStarts();
    RunStep(START, StartClient(CLIENT, Launched), rest);
  }

  lemma RunStep(s: System, step: Step, rest: seq<Step>)
    requires Enabled(s, step) && IsRun(Apply(s, step), rest)
    ensures IsRun(s, [step] + rest) && Final(s, [step] + rest) == Final(Apply(s, step), rest)
  {
    assert ([step] + rest)[1..] == rest;
  }

  // ----- who kills a live child

  /** A monitor's probe makes it switch. */
  predicate Switches(s: System, step: Step)
    requires Enabled(s, step) && step.MonProbe?
  {
    var m := s.mons[step.i];
    var side := SideOf(s.e.activeURL, PrimaryURL(m.cfg), m.cfg.secondaryURL);
    Probe(side, m.counters, step.healthy, PrimaryURL(m.cfg) != m.cfg.secondaryURL).switched
  }

  /** Apart from calls and crashes, a step kills the live child exactly when a run is expected and it is a
      supervisor's restart with an active configuration or a monitor's switch. Nothing asks whether the child is
      the one that was found dead. */
  lemma ChildKilledIff(s: System, step: Step)
    requires Inv(s) && Enabled(s, step) && s.e.live != {}
    requires !IsStart(step) && step != StopEngine && !step.Crash?
    ensures !(s.e.live <= Apply(s, step).e.live)
       <==> s.e.expectedRun && ((step.SupRestart? && step.db.Active?) || (step.MonProbe? && Switches(s, step)))
  {
    assert s.e.cmd.Started? && s.e.live == {s.e.cmd.pid};
    assert s.e.pids !in s.e.live;
    assert step.SupRestart? && !(s.e.expectedRun && step.db.Active?) ==> Apply(s, step).e == s.e;
  }

  ghost predicate AllFrom(e: State, n: nat) {
    n <= e.pids && forall p :: p in e.live ==> n <= p
  }

  lemma {:induction false} LaterChildrenAreNewer(s: System, steps: seq<Step>, n: nat)
    requires Inv(s) && IsRun(s, steps) && AllFrom(s.e, n)
    ensures AllFrom(Final(s, steps).e, n)
    decreases |steps|
  {
    if steps != [] {
      StepKeepsInv(s, steps[0]);
      StepStartsOne(s, steps[0]);
      LaterChildrenAreNewer(Apply(s, steps[0]), steps[1..], n);
    }
  }

  /** A section ends some children and starts at most one, with the next number. */
  ghost predicate AtMostOneStarted(e: State, e': State) {
    e.pids <= e'.pids && forall p :: p in e'.live ==> p in e.live || (e.pids <= p < e'.pids)
  }

  lemma LaunchesStartOne(s: State, kind: Kind, cfg: ClientConfig, l: Launch)
    ensures AtMostOneStarted(s, Killed(s)) && AtMostOneStarted(s, Stopped(s))
    ensures AtMostOneStarted(s, Executed(s, kind, l)) && AtMostOneStarted(s, ClientLaunched(s, cfg, l))
  {
  }

  lemma StartsStartOne(s: State, cfg: ClientConfig, l: Launch)
    ensures AtMostOneStarted(s, ServerStarted(s, l)) && AtMostOneStarted(s, ClientStarted(s, cfg, l))
  {
    LaunchesStartOne(s, ServerProcess, cfg, l);
    LaunchesStartOne(Stopped(s), ServerProcess, cfg, l);
    LaunchesStartOne(Stopped(s).(activeURL := PrimaryURL(cfg)), ServerProcess, cfg, l);
  }

  lemma RestartStartsOne(s: State, db: Stored, l: Launch)
    ensures AtMostOneStarted(s, Restarted(s, db, l))
  {
    if db.Active? {
      LaunchesStartOne(s, ServerProcess, db.client, l);
      LaunchesStartOne(Killed(s), ServerProcess, db.client, l);
    }
  }

  lemma ProbeStartsOne(s: State, cfg: ClientConfig, c: Counters, healthy: bool, l: Launch)
    ensures AtMostOneStarted(s, Probed(s, cfg, c, healthy, l).0)
  {
    SwitchStartsOne(s, PrimaryURL(cfg), cfg, l);
    SwitchStartsOne(s, cfg.secondaryURL, cfg, l);
  }

  lemma SwitchStartsOne(s: State, url: string, cfg: ClientConfig, l: Launch)
    ensures AtMostOneStarted(s, ClientLaunched(Killed(s.(activeURL := url)), cfg, l))
  {
    LaunchesStartOne(s.(activeURL := url), ServerProcess, cfg, l);
    LaunchesStartOne(Killed(s.(activeURL := url)), ServerProcess, cfg, l);
  }

  lemma StepStartsOne(s: System, step: Step)
    requires Enabled(s, step)
    ensures AtMostOneStarted(s.e, Apply(s, step).e)
  {
    match step
    case StartServer(l) => StartsStartOne(s.e, ClientConfig("", false, "", ""), l);
    case StartClient(cfg, l) => StartsStartOne(s.e, cfg, l);
    case SupRestart(_, db, l) => RestartStartsOne(s.e, db, l);
    case MonProbe(i, healthy, l) => ProbeStartsOne(s.e, s.mons[i].cfg, s.mons[i].counters, healthy, l);
    case _ =>
  }

  /** A supervisor that found the child dead kills none but children started after its check; when none was,
      none is alive at its restart. */
  lemma RestartKillsOnlyNewer(s: System, i: nat, steps: seq<Step>)
    requires Inv(s) && s.e.expectedRun && Enabled(s, SupCheck(i, false)) && IsRun(Apply(s, SupCheck(i, false)), steps)
    ensures var e := Final(Apply(s, SupCheck(i, false)), steps).e;
            && (forall p :: p in e.live ==> s.e.pids <= p < e.pids)
            && (e.pids == s.e.pids ==> e.live == {})
  {
    var s1 := Apply(s, SupCheck(i, false));
    assert s.e.live == {};
    StepKeepsInv(s, SupCheck(i, false));
    LaterChildrenAreNewer(s1, steps, s.e.pids);
    EveryRunIsSafe(s1, steps);
  }

  /** The engine as a server, restarted by a call while the first supervisor slept on the old channel. */
  const RESTARTED := System(State(Started(1, ServerProcess), {1}, 2, true, true, Some(1), 2, {0}, false, 1, ""),
                            [SleepingDead(Some(0)), Checking], [])

  const SERVER := System(State(Started(0, ServerProcess), {0}, 1, true, true, Some(0), 1, {}, false, 1, ""), [Checking], [])

  const DEAD := System(State(Started(0, ServerProcess), {}, 1, true, true, Some(0), 1, {}, false, 1, ""), [Checking], [])

  lemma DeadThenRestarted(rest: seq<Step>)
    requires IsRun(RESTARTED, rest)
    ensures var steps := [SupCheck(0, false)] + ([SupBackOff(0)] + ([StartServer(Launched)] + rest));
            IsRun(DEAD, steps) && Final(DEAD, steps) == Final(RESTARTED, rest)
  {
    var s1, s2 := Apply(DEAD, SupCheck(0, false)), Apply(Apply(DEAD, SupCheck(0, false)), SupBackOff(0));
    assert s2.sups == [SleepingDead(Some(0))] && s2.e.live == {};
    assert Apply(s2, StartServer(Launched)) == RESTARTED;
    RunStep(s2, StartServer(Launched), rest);
    RunStep(s1, SupBackOff(0), [StartServer(Launched)] + rest);
    RunStep(DEAD, SupCheck(0, false), [SupBackOff(0)] + ([StartServer(Launched)] + rest));
  }

  lemma CrashOfServer(rest: seq<Step>)
    requires IsRun(DEAD, rest)
    ensures var steps := [StartServer(Launched)] + ([Crash(0)] + rest);
            IsRun(START, steps) && Final(START, steps) == Final(DEAD, rest)
  {
    assert Apply(START, StartServer(Launched)) == SERVER;
    assert SERVER.e.live - {0} == {};
    assert Apply(SERVER, Crash(0)) == DEAD;
    RunStep(SERVER, Crash(0), rest);
    RunStep(START, StartServer(Launched), [Crash(0)] + rest);
  }

  lemma StaleRestart(db: Stored)
    requires db.Active?
    ensures var steps := [SupTimeout(0)] + ([SupRecheck(0)] + []);
            && IsRun(RESTARTED, steps) && Final(RESTARTED, steps).e == RESTARTED.e
            && Enabled(Final(RESTARTED, steps), SupRestart(0, db, Launched))
            && Apply(Final(RESTARTED, steps), SupRestart(0, db, Launched)).e.live == {2}
  {
    var s1 := Apply(RESTARTED, SupTimeout(0));
    RunStep(s1, SupRecheck(0), []);
    RunStep(RESTARTED, SupTimeout(0), [SupRecheck(0)] + []);
  }

  /** Such a run exists: the healthy child 1 of the second start is killed for child 2, although only child 0 was
      ever found dead. */
  lemma StaleSupervisorKillsHealthyChild(db: Stored)
    requires db.Active?
    ensures exists steps :: IsRun(START, steps) &&
              var s := Final(START, steps);
              && s.e.live == {1} && Enabled(s, SupRestart(0, db, Launched))
              && Apply(s, SupRestart(0, db, Launched)).e.live == {2}
  {
    StaleRestart(db);
    var rest := [SupTimeout(0)] + ([SupRecheck(0)] + []);
    DeadThenRestarted(rest);
    rest := [SupCheck(0, false)] + ([SupBackOff(0)] + ([StartServer(Launched)] + rest));
    CrashOfServer(rest);
    rest := [StartServer(Launched)] + ([Crash(0)] + rest);
    assert IsRun(START, rest);
  }
}
