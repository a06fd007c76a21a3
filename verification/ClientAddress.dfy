/** Which process each section of the tunnel engine runs, and towards which address, said on the configuration's
    own fields, in any state of the system. */
module ClientAddress {
  import opened EhcoEngine
  import opened Failover
  import opened Supervision
  import opened Wrappers

  /** The child that a launch leaves in the slot when nothing was in it. */
  ghost predicate Slot(e: State, pid: nat, kind: Kind, l: Launch) {
    match l
    case Launched => e.cmd == Started(pid, kind) && pid in e.live && e.pids == pid + 1
    case NoPipe => e.cmd == Unstarted && e.pids == pid
    case _ => e.cmd == NoCommand && e.pids == pid
  }

  /** Everything but the slot and the processes is the same. */
  ghost predicate SameRest(e: State, e': State) {
    && e'.activeURL == e.activeURL && e'.expectedRun == e.expectedRun && e'.serverMode == e.serverMode
    && e'.stopChan == e.stopChan && e'.chans == e.chans && e'.closed == e.closed && e'.restartDelay == e.restartDelay
  }

  lemma IntoEmptySlot(e: State, kind: Kind, l: Launch)
    requires e.cmd == NoCommand
    ensures Slot(Executed(e, kind, l), e.pids, kind, l) && SameRest(e, Executed(e, kind, l))
  {
  }

  lemma KilledEmpties(e: State)
    ensures Killed(e).cmd == NoCommand && Killed(e).pids == e.pids && SameRest(e, Killed(e))
  {
  }

  lemma StoppedEmpties(e: State)
    ensures Stopped(e).cmd == NoCommand && Stopped(e).pids == e.pids && Stopped(e).chans == e.chans
    ensures !Stopped(e).expectedRun && Stopped(e).stopChan == None && Stopped(e).serverMode == e.serverMode
    ensures Stopped(e).restartDelay == e.restartDelay && Stopped(e).activeURL == e.activeURL
    ensures Stopped(e).closed == e.closed + (if e.stopChan.Some? then {e.stopChan.value} else {})
  {
  }

  lemma ClientExecuted(e: State, cfg: ClientConfig, u: string, l: Launch)
    requires u == PrimaryURL(cfg)
    ensures var e' := ClientLaunched(Stopped(e).(activeURL := u), cfg, l);
            && Slot(e', e.pids, ClientProcess(u), l) && e'.activeURL == u
            && !e'.expectedRun && e'.serverMode == e.serverMode && e'.restartDelay == e.restartDelay
  {
    StoppedEmpties(e);
    IntoEmptySlot(Stopped(e).(activeURL := u), ClientProcess(u), l);
  }

  /** Starting the client begins at the configured address, whatever address was in use before: the bridge when it
      is enabled and set, else the remote. A failed launch leaves that address too. */
  lemma StartBeginsAtConfigured(s: System, cfg: ClientConfig, l: Launch)
    ensures var e := Apply(s, StartClient(cfg, l)).e;
            var u := if cfg.enableBridge && cfg.bridgeURL != "" then cfg.bridgeURL else cfg.remoteURL;
            && e.activeURL == u
            && Slot(e, s.e.pids, ClientProcess(u), l)
            && (l == Launched ==> e.expectedRun && !e.serverMode && e.restartDelay == 1)
            && (l != Launched ==> !e.expectedRun && e.serverMode == s.e.serverMode && e.restartDelay == s.e.restartDelay)
  {
    ClientExecuted(s.e, cfg, PrimaryURL(cfg), l);
  }

  lemma ServerExecuted(e: State, l: Launch)
    ensures var e' := Executed(Stopped(e), ServerProcess, l);
            && Slot(e', e.pids, ServerProcess, l) && e'.activeURL == e.activeURL
            && !e'.expectedRun && e'.serverMode == e.serverMode && e'.restartDelay == e.restartDelay
  {
    StoppedEmpties(e);
    IntoEmptySlot(Stopped(e), ServerProcess, l);
  }

  /** Starting the server leaves the client's address alone. */
  lemma StartRunsServer(s: System, l: Launch)
    ensures var e := Apply(s, StartServer(l)).e;
            && e.activeURL == s.e.activeURL
            && Slot(e, s.e.pids, ServerProcess, l)
            && (l == Launched ==> e.expectedRun && e.serverMode && e.restartDelay == 1)
            && (l != Launched ==> !e.expectedRun && e.serverMode == s.e.serverMode && e.restartDelay == s.e.restartDelay)
  {
    ServerExecuted(s.e, l);
  }

  /** A start closes the stop channel of the run before and, when the launch works, opens a new one. */
  lemma StartRenewsChannel(s: System, cfg: ClientConfig, l: Launch, server: bool)
    ensures var e := Apply(s, if server then StartServer(l) else StartClient(cfg, l)).e;
            && e.stopChan == (if l == Launched then Some(s.e.chans) else None)
            && e.chans == (if l == Launched then s.e.chans + 1 else s.e.chans)
            && e.closed == s.e.closed + (if s.e.stopChan.Some? then {s.e.stopChan.value} else {})
  {
    StoppedEmpties(s.e);
    IntoEmptySlot(Stopped(s.e), ServerProcess, l);
    IntoEmptySlot(Stopped(s.e).(activeURL := PrimaryURL(cfg)), ClientProcess(PrimaryURL(cfg)), l);
  }

  /** Stopping empties the slot, kills its child and closes the channel; the address, the mode and the delay stay. */
  lemma StopEmptiesSlot(s: System)
    ensures var e := Apply(s, StopEngine).e;
            && e.cmd == NoCommand && !e.expectedRun && e.stopChan == None
            && (s.e.cmd.Started? ==> s.e.cmd.pid !in e.live)
            && (s.e.stopChan.Some? ==> s.e.stopChan.value in e.closed)
            && e.activeURL == s.e.activeURL && e.serverMode == s.e.serverMode && e.restartDelay == s.e.restartDelay
            && e.pids == s.e.pids && e.chans == s.e.chans
  {
  }

  /** A supervisor's restart runs what ran before: the server, or the client towards the address in use; only when
      no address is in use does it take the configured one. It does nothing once the engine is not expected to run,
      or when there is no active configuration. */
  lemma RestartKeepsAddress(s: System, i: nat, db: Stored, l: Launch)
    requires i < |s.sups| && s.sups[i].Restarting?
    ensures var e := Apply(s, SupRestart(i, db, l)).e;
            && (!s.e.expectedRun || !db.Active? ==> e == s.e)
            && (s.e.expectedRun && db.Active? && s.e.serverMode ==>
                  Slot(e, s.e.pids, ServerProcess, l) && e.activeURL == s.e.activeURL)
            && (s.e.expectedRun && db.Active? && !s.e.serverMode && l != NoBinary ==>
                  var cfg := db.client;
                  var u := if s.e.activeURL != "" then s.e.activeURL
                           else if cfg.enableBridge && cfg.bridgeURL != "" then cfg.bridgeURL else cfg.remoteURL;
                  Slot(e, s.e.pids, ClientProcess(u), l) && e.activeURL == u)
            && (s.e.expectedRun && db.Active? && !s.e.serverMode && l == NoBinary ==>
                  e.cmd == NoCommand && e.pids == s.e.pids && e.activeURL == s.e.activeURL)
            && e.expectedRun == s.e.expectedRun && e.serverMode == s.e.serverMode && e.stopChan == s.e.stopChan
  {
    KilledEmpties(s.e);
    IntoEmptySlot(Killed(s.e), ServerProcess, l);
    if db.Active? {
      var u := if s.e.activeURL != "" then s.e.activeURL else PrimaryURL(db.client);
      IntoEmptySlot(Killed(s.e).(activeURL := u), ClientProcess(u), l);
    }
  }

  /** A supervisor leaves exactly when it finds, at its check or after its sleep, that no run is expected; else the
      child decides whether it sleeps or backs off, and after the sleep it restarts. */
  lemma SupervisorMoves(s: System, i: nat, alive: bool)
    requires i < |s.sups|
    ensures Enabled(s, SupCheck(i, alive)) ==>
              var p := Apply(s, SupCheck(i, alive)).sups[i];
              && (p.SupervisorGone? <==> !s.e.expectedRun)
              && (s.e.expectedRun && alive ==> p == SleepingAlive(s.e.stopChan))
              && (s.e.expectedRun && !alive ==> p == BackingOff(s.e.stopChan))
    ensures Enabled(s, SupRecheck(i)) ==>
              var p := Apply(s, SupRecheck(i)).sups[i];
              (p.SupervisorGone? <==> !s.e.expectedRun) && (p.Restarting? <==> s.e.expectedRun)
    ensures Enabled(s, SupTimeout(i)) ==>
              var p := Apply(s, SupTimeout(i)).sups[i];
              (p.Rechecking? <==> s.sups[i].SleepingDead?) && (p.Checking? <==> s.sups[i].SleepingAlive?)
  {
  }

  /** A restart that fails sends the supervisor back to its check, with the delay it has; one that works, or finds
      that no run is expected, resets the delay to one second. */
  lemma RestartOutcome(s: System, i: nat, db: Stored, l: Launch)
    requires i < |s.sups| && s.sups[i].Restarting?
    ensures var s' := Apply(s, SupRestart(i, db, l));
            && |s'.sups| == |s.sups| && s'.mons == s.mons && s'.e.restartDelay == s.e.restartDelay
            && (s'.sups[i].Checking? <==> s.e.expectedRun && (db.Unavailable? || db.Inactive? || l != Launched))
            && (!s'.sups[i].Checking? ==>
                  && s'.sups[i].Resetting? && Enabled(s', SupReset(i))
                  && Apply(s', SupReset(i)).e == s'.e.(restartDelay := 1) && Apply(s', SupReset(i)).sups[i].Checking?)
  {
  }

  /** The address the configuration names first. */
  ghost predicate FirstAddress(cfg: ClientConfig, u: string) {
    if cfg.enableBridge && cfg.bridgeURL != "" then u == cfg.bridgeURL else u == cfg.remoteURL
  }

  /** A third failure in a row at the first address. */
  ghost predicate LeavesFirst(e: State, cfg: ClientConfig, c: Counters, healthy: bool) {
    e.expectedRun && FirstAddress(cfg, e.activeURL) && !healthy && c.failures >= 2
  }

  /** A third success in a row at the second address. */
  ghost predicate LeavesSecond(e: State, cfg: ClientConfig, c: Counters, healthy: bool) {
    e.expectedRun && e.activeURL == cfg.secondaryURL && !FirstAddress(cfg, e.activeURL) && healthy && c.successes >= 2
  }

  lemma MovedTo(e: State, url: string, cfg: ClientConfig, l: Launch)
    requires url != "" || (l != NoBinary && FirstAddress(cfg, url))
    ensures var e' := ClientLaunched(Killed(e.(activeURL := url)), cfg, l);
            && e'.activeURL == url && Slot(e', e.pids, ClientProcess(url), l)
            && e'.expectedRun == e.expectedRun && e'.serverMode == e.serverMode && e'.stopChan == e.stopChan
  {
    KilledEmpties(e.(activeURL := url));
    IntoEmptySlot(Killed(e.(activeURL := url)), ClientProcess(url), l);
  }

  lemma ProbedMoves(e: State, cfg: ClientConfig, c: Counters, healthy: bool, l: Launch)
    ensures LeavesFirst(e, cfg, c, healthy) ==>
              Probed(e, cfg, c, healthy, l).0 == ClientLaunched(Killed(e.(activeURL := cfg.secondaryURL)), cfg, l)
    ensures LeavesSecond(e, cfg, c, healthy) ==>
              Probed(e, cfg, c, healthy, l).0 == ClientLaunched(Killed(e.(activeURL := PrimaryURL(cfg))), cfg, l)
    ensures !LeavesFirst(e, cfg, c, healthy) && !LeavesSecond(e, cfg, c, healthy) ==> Probed(e, cfg, c, healthy, l).0 == e
  {
  }

  /** After a third failure in a row at the first address the client is moved to the second one. */
  lemma ProbeMovesAway(s: System, i: nat, healthy: bool, l: Launch)
    requires i < |s.mons| && s.mons[i].at.Probing? && s.mons[i].cfg.secondaryURL != ""
    requires LeavesFirst(s.e, s.mons[i].cfg, s.mons[i].counters, healthy)
    ensures var e, second := Apply(s, MonProbe(i, healthy, l)).e, s.mons[i].cfg.secondaryURL;
            e.activeURL == second && Slot(e, s.e.pids, ClientProcess(second), l) && e.expectedRun
  {
    ProbedMoves(s.e, s.mons[i].cfg, s.mons[i].counters, healthy, l);
    MovedTo(s.e, s.mons[i].cfg.secondaryURL, s.mons[i].cfg, l);
  }

  /** After a third success in a row at the second address it is moved back to the first one. */
  lemma ProbeMovesBack(s: System, i: nat, healthy: bool, l: Launch, first: string)
    requires i < |s.mons| && s.mons[i].at.Probing? && FirstAddress(s.mons[i].cfg, first) && (first != "" || l != NoBinary)
    requires LeavesSecond(s.e, s.mons[i].cfg, s.mons[i].counters, healthy)
    ensures var e := Apply(s, MonProbe(i, healthy, l)).e;
            e.activeURL == first && Slot(e, s.e.pids, ClientProcess(first), l) && e.expectedRun
  {
    assert first == PrimaryURL(s.mons[i].cfg);
    ProbedMoves(s.e, s.mons[i].cfg, s.mons[i].counters, healthy, l);
    MovedTo(s.e, first, s.mons[i].cfg, l);
  }

  /** Any other probe leaves the engine as it is. */
  lemma OtherProbesMoveNothing(s: System, i: nat, healthy: bool, l: Launch)
    requires i < |s.mons| && s.mons[i].at.Probing?
    requires !LeavesFirst(s.e, s.mons[i].cfg, s.mons[i].counters, healthy)
    requires !LeavesSecond(s.e, s.mons[i].cfg, s.mons[i].counters, healthy)
    ensures Apply(s, MonProbe(i, healthy, l)).e == s.e
  {
    ProbedMoves(s.e, s.mons[i].cfg, s.mons[i].counters, healthy, l);
  }

  /** A monitor leaves at its next tick when no run is expected or the engine is in server mode, and probes otherwise. */
  lemma TickOutcome(s: System, i: nat)
    requires i < |s.mons| && s.mons[i].at.WaitingTick?
    ensures var s' := Apply(s, MonTick(i));
            && |s'.mons| == |s.mons| && s'.e == s.e && s'.sups == s.sups
            && (s'.mons[i].at.Probing? <==> s.e.expectedRun && !s.e.serverMode)
            && (s'.mons[i].at.MonitorGone? <==> !s.e.expectedRun || s.e.serverMode)
            && s'.mons[i].counters == s.mons[i].counters
  {
  }

  /** A failure at the first address counts and clears the successes, a success there clears the failures; at the
      second address the two change places, but a failure there clears the successes only. A counter that reaches
      three is cleared. */
  lemma ProbeCounts(e: State, cfg: ClientConfig, c: Counters, healthy: bool, l: Launch)
    ensures var c', first := Probed(e, cfg, c, healthy, l).1, FirstAddress(cfg, e.activeURL);
            var second := e.activeURL == cfg.secondaryURL && !first;
            && (!e.expectedRun || (!first && !second) ==> c' == c)
            && (e.expectedRun && first && healthy ==> c' == Counters(0, c.successes))
            && (e.expectedRun && first && !healthy ==> c' == Counters(if c.failures >= 2 then 0 else c.failures + 1, 0))
            && (e.expectedRun && second && healthy ==> c' == Counters(0, if c.successes >= 2 then 0 else c.successes + 1))
            && (e.expectedRun && second && !healthy ==> c' == Counters(c.failures, 0))
  {
  }

  // ----- the delays between restarts

  function BackedOffTimes(e: State, n: nat): State {
    if n == 0 then e else BackedOff(BackedOffTimes(e, n - 1))
  }

  function TwoTo(n: nat): nat {
    if n == 0 then 1 else 2 * TwoTo(n - 1)
  }

  function AtMost30(n: nat): nat {
    if n <= 30 then n else 30
  }

  /** After a restart that worked or a start, when the delay is one second, the delays in a row are 2, 4, 8, 16 and
      then 30 seconds; with no delay yet they begin with one. */
  lemma {:induction false} DelaysDouble(e: State, n: nat)
    requires e.restartDelay <= 1 && n > 0
    ensures e.restartDelay == 1 ==> BackedOffTimes(e, n).restartDelay == AtMost30(TwoTo(n))
    ensures e.restartDelay == 0 ==> BackedOffTimes(e, n).restartDelay == AtMost30(TwoTo(n - 1))
    ensures BackedOffTimes(e, n) == e.(restartDelay := BackedOffTimes(e, n).restartDelay)
  {
    if n > 1 {
      DelaysDouble(e, n - 1);
    } else {
      assert BackedOffTimes(e, 1) == BackedOff(e);
    }
  }
}
