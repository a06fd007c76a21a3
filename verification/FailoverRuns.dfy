/** The failover rule inside the interleaved runs of the whole engine. */
module FailoverRuns {
  import opened EhcoEngine
  import opened Failover
  import opened Supervision
  import opened Wrappers

  predicate IsProbe(step: Step, i: nat) {
    step.MonProbe? && step.i == i
  }

  function ProbesOf(steps: seq<Step>, i: nat): nat
    decreases |steps|
  {
    if steps == [] then 0 else (if IsProbe(steps[0], i) then 1 else 0) + ProbesOf(steps[1..], i)
  }

  /** The step is a probe of the monitor that is handled and makes it switch. */
  predicate SwitchOf(s: System, step: Step, i: nat)
    requires Enabled(s, step)
  {
    IsProbe(step, i) && s.e.expectedRun && Switches(s, step)
  }

  function SwitchesOf(s: System, steps: seq<Step>, i: nat): nat
    requires IsRun(s, steps)
    decreases |steps|
  {
    if steps == [] then 0
    else (if SwitchOf(s, steps[0], i) then 1 else 0) + SwitchesOf(Apply(s, steps[0]), steps[1..], i)
  }

  /** What the counters of a monitor hold; nothing before it is started. */
  function Saved(s: System, i: nat): nat {
    if i < |s.mons| then s.mons[i].counters.failures + s.mons[i].counters.successes else 0
  }

  lemma ProbeIsPaid(side: Side, c: Counters, healthy: bool, distinct: bool)
    ensures var t := Probe(side, c, healthy, distinct);
            (if t.switched then 3 else 0) + t.counters.failures + t.counters.successes <= c.failures + c.successes + 1
  {
  }

  lemma ProbeStepIsPaid(s: System, step: Step, i: nat)
    requires Enabled(s, step) && IsProbe(step, i)
    ensures (if SwitchOf(s, step, i) then 3 else 0) + Saved(Apply(s, step), i) <= Saved(s, i) + 1
  {
    var m := s.mons[i];
    ProbeIsPaid(SideOf(s.e.activeURL, PrimaryURL(m.cfg), m.cfg.secondaryURL), m.counters, step.healthy,
                PrimaryURL(m.cfg) != m.cfg.secondaryURL);
  }

  lemma OtherStepSavesNothing(s: System, step: Step, i: nat)
    requires Enabled(s, step) && !IsProbe(step, i)
    ensures Saved(Apply(s, step), i) == Saved(s, i)
  {
  }

  /** In every run of the engine, whatever the other monitors and supervisors do, three probes of a monitor pay for
      each of its switches. */
  lemma {:induction false} SwitchesArePaidInRuns(s: System, steps: seq<Step>, i: nat)
    requires IsRun(s, steps)
    ensures 3 * SwitchesOf(s, steps, i) + Saved(Final(s, steps), i) <= Saved(s, i) + ProbesOf(steps, i)
    decreases |steps|
  {
    if steps != [] {
      if IsProbe(steps[0], i) {
        ProbeStepIsPaid(s, steps[0], i);
      } else {
        OtherStepSavesNothing(s, steps[0], i);
      }
      SwitchesArePaidInRuns(Apply(s, steps[0]), steps[1..], i);
    }
  }

  // ----- a monitor that nothing disturbs

  function Results(steps: seq<Step>, i: nat): seq<bool>
    decreases |steps|
  {
    if steps == [] then []
    else (if IsProbe(steps[0], i) then [steps[0].healthy] else []) + Results(steps[1..], i)
  }

  /** The run stays up at each probe of the monitor, and nobody else changes the active address. */
  predicate Undisturbed(s: System, steps: seq<Step>, i: nat)
    requires IsRun(s, steps)
    decreases |steps|
  {
    steps == []
    || ((if IsProbe(steps[0], i) then s.e.expectedRun else Apply(s, steps[0]).e.activeURL == s.e.activeURL)
        && Undisturbed(Apply(s, steps[0]), steps[1..], i))
  }

  /** The monitor stands where the isolated one stands after these probes. */
  predicate StandsAt(s: System, i: nat, cfg: ClientConfig, l: Life) {
    && i < |s.mons| && s.mons[i].cfg == cfg && s.mons[i].counters == l.counters
    && SideOf(s.e.activeURL, PrimaryURL(cfg), cfg.secondaryURL) == l.side
  }

  function Distinct(cfg: ClientConfig): bool {
    PrimaryURL(cfg) != cfg.secondaryURL
  }

  lemma LaunchKeepsAddress(s: State, cfg: ClientConfig, l: Launch)
    ensures ClientLaunched(s, cfg, l).activeURL == s.activeURL
            || (s.activeURL == "" && ClientLaunched(s, cfg, l).activeURL == PrimaryURL(cfg))
  {
  }

  lemma SwitchedAddress(s: State, cfg: ClientConfig, c: Counters, healthy: bool, l: Launch)
    requires s.expectedRun && cfg.secondaryURL != ""
    ensures var t := Probe(SideOf(s.activeURL, PrimaryURL(cfg), cfg.secondaryURL), c, healthy, Distinct(cfg));
            var (s', c') := Probed(s, cfg, c, healthy, l);
            c' == t.counters && SideOf(s'.activeURL, PrimaryURL(cfg), cfg.secondaryURL) == t.side
  {
    var url := if s.activeURL == PrimaryURL(cfg) then cfg.secondaryURL else PrimaryURL(cfg);
    LaunchKeepsAddress(Killed(s.(activeURL := url)), cfg, l);
    assert Killed(s.(activeURL := url)).activeURL == url;
  }

  lemma ProbeStepFollows(s: System, step: Step, i: nat, cfg: ClientConfig, history: seq<bool>, start: Side)
    requires Enabled(s, step) && IsProbe(step, i) && s.e.expectedRun && cfg.secondaryURL != ""
    requires StandsAt(s, i, cfg, After(history, start, Distinct(cfg)))
    ensures StandsAt(Apply(s, step), i, cfg, After(history + [step.healthy], start, Distinct(cfg)))
    ensures SwitchOf(s, step, i) <==> SwitchDue(history + [step.healthy], Reference(history, start, Distinct(cfg)))
  {
    assert (history + [step.healthy])[..|history|] == history;
    SwitchedAddress(s.e, cfg, s.mons[i].counters, step.healthy, step.l);
    SwitchIffThreeAgree(history, step.healthy, start, Distinct(cfg));
  }

  lemma ResultsNext(steps: seq<Step>, i: nat, history: seq<bool>)
    requires steps != []
    ensures history + Results(steps, i)
         == (if IsProbe(steps[0], i) then history + [steps[0].healthy] else history) + Results(steps[1..], i)
  {
    if IsProbe(steps[0], i) {
      assert history + ([steps[0].healthy] + Results(steps[1..], i)) == history + [steps[0].healthy] + Results(steps[1..], i);
    } else {
      assert [] + Results(steps[1..], i) == Results(steps[1..], i);
    }
  }

  /** Undisturbed, a monitor inside a run does exactly what the isolated one does with the same probe results. */
  lemma {:induction false} UndisturbedMonitorFollows(s: System, steps: seq<Step>, i: nat, cfg: ClientConfig,
                                                     history: seq<bool>, start: Side)
    requires IsRun(s, steps) && Undisturbed(s, steps, i) && cfg.secondaryURL != ""
    requires StandsAt(s, i, cfg, After(history, start, Distinct(cfg)))
    ensures StandsAt(Final(s, steps), i, cfg, After(history + Results(steps, i), start, Distinct(cfg)))
    decreases |steps|
  {
    if steps == [] {
      assert history + [] == history;
    } else {
      var s1 := Apply(s, steps[0]);
      ResultsNext(steps, i, history);
      if IsProbe(steps[0], i) {
        ProbeStepFollows(s, steps[0], i, cfg, history, start);
        UndisturbedMonitorFollows(s1, steps[1..], i, cfg, history + [steps[0].healthy], start);
      } else {
        OtherStepKeepsMonitor(s, steps[0], i);
        StandsStill(s, s1, i, cfg, After(history, start, Distinct(cfg)));
        UndisturbedMonitorFollows(s1, steps[1..], i, cfg, history, start);
      }
    }
  }

  lemma StandsStill(s: System, s1: System, i: nat, cfg: ClientConfig, l: Life)
    requires StandsAt(s, i, cfg, l) && s1.e.activeURL == s.e.activeURL
    requires i < |s1.mons| && s1.mons[i].cfg == s.mons[i].cfg && s1.mons[i].counters == s.mons[i].counters
    ensures StandsAt(s1, i, cfg, l)
  {
  }

  lemma OtherStepKeepsMonitor(s: System, step: Step, i: nat)
    requires Enabled(s, step) && !IsProbe(step, i) && i < |s.mons|
    ensures var s' := Apply(s, step);
            i < |s'.mons| && s'.mons[i].cfg == s.mons[i].cfg && s'.mons[i].counters == s.mons[i].counters
  {
  }

  // ----- a monitor of an earlier run

  /** The client started again, with the probe of the first run's monitor still in flight. */
  const RESTARTED_CLIENT :=
    System(State(Started(1, ClientProcess("p")), {1}, 2, true, false, Some(1), 2, {0}, false, 1, "p"),
           [Checking, Checking],
           [Monitor(CLIENT, 0, Probing, Counters(2, 0)), Monitor(CLIENT, 1, WaitingTick, Counters(0, 0))])

  lemma ClientRestarts()
    ensures Apply(ClientRun(2, Probing), StartClient(CLIENT, Launched)) == RESTARTED_CLIENT
  {
    var e := Stopped(ClientRun(2, Probing).e);
    assert e.live == {} && e.closed == {0};
  }

  lemma OldMonitorSwitches()
    ensures var s := Apply(RESTARTED_CLIENT, MonProbe(0, false, Launched));
            && Switches(RESTARTED_CLIENT, MonProbe(0, false, Launched))
            && !s.e.serverMode && s.e.cmd == Started(2, ClientProcess("s")) && s.e.live == {2}
            && s.mons[1] == Monitor(CLIENT, 1, WaitingTick, Counters(0, 0))
  {
  }

  lemma ProbesAhead(step: Step, rest: seq<Step>)
    ensures ProbesOf([step] + rest, 1) == (if IsProbe(step, 1) then 1 else 0) + ProbesOf(rest, 1)
  {
    assert ([step] + rest)[1..] == rest;
  }

  lemma RestartInFlight() returns (rest: seq<Step>)
    ensures IsRun(ClientRun(2, WaitingTick), rest) && Final(ClientRun(2, WaitingTick), rest) == RESTARTED_CLIENT
    ensures ProbesOf(rest, 1) == 0
  {
    ClientRestarts();
    RunStep(ClientRun(2, Probing), StartClient(CLIENT, Launched), []);
    ProbesAhead(StartClient(CLIENT, Launched), []);
    rest := [StartClient(CLIENT, Launched)] + [];
    assert Apply(ClientRun(2, WaitingTick), MonTick(0)) == ClientRun(2, Probing);
    RunStep(ClientRun(2, WaitingTick), MonTick(0), rest);
    ProbesAhead(MonTick(0), rest);
    rest := [MonTick(0)] + rest;
  }

  lemma FailedProbeAhead(rest: seq<Step>)
    ensures ProbesOf([MonTick(0)] + ([MonProbe(0, false, Launched)] + rest), 1) == ProbesOf(rest, 1)
  {
    ProbesAhead(MonProbe(0, false, Launched), rest);
    ProbesAhead(MonTick(0), [MonProbe(0, false, Launched)] + rest);
  }

  lemma OneFailureEarlier(n: nat, rest: seq<Step>) returns (more: seq<Step>)
    requires n < 2 && IsRun(ClientRun(n + 1, WaitingTick), rest)
    ensures IsRun(ClientRun(n, WaitingTick), more)
    ensures Final(ClientRun(n, WaitingTick), more) == Final(ClientRun(n + 1, WaitingTick), rest)
    ensures ProbesOf(more, 1) == ProbesOf(rest, 1)
  {
    FailedProbe(n, rest);
    FailedProbeAhead(rest);
    more := [MonTick(0)] + ([MonProbe(0, false, Launched)] + rest);
  }

  lemma TwoFailuresThenRestart() returns (rest: seq<Step>)
    ensures IsRun(ClientRun(0, WaitingTick), rest) && Final(ClientRun(0, WaitingTick), rest) == RESTARTED_CLIENT
    ensures ProbesOf(rest, 1) == 0
  {
    rest := RestartInFlight();
    rest := OneFailureEarlier(1, rest);
    rest := OneFailureEarlier(0, rest);
  }

  /** In client mode, too, a monitor of an earlier run can act: there is a run in which a client that was started
      again is switched to the other address although its own monitor has not probed once. */
  lemma StaleMonitorSwitchesFreshClient()
    ensures exists steps :: IsRun(START, steps) && ProbesOf(steps, 1) == 0 && Final(START, steps) == RESTARTED_CLIENT
    ensures Switches(RESTARTED_CLIENT, MonProbe(0, false, Launched))
    ensures Apply(RESTARTED_CLIENT, MonProbe(0, false, Launched)).e.cmd == Started(2, ClientProcess("s"))
  {
    var rest := TwoFailuresThenRestart();
    ClientStarts();
    RunStep(START, StartClient(CLIENT, Launched), rest);
    ProbesAhead(StartClient(CLIENT, Launched), rest);
    var steps := [StartClient(CLIENT, Launched)] + rest;
    assert IsRun(START, steps) && ProbesOf(steps, 1) == 0;
    OldMonitorSwitches();
  }
}
