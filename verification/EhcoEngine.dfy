/** The tunnel engine's package state and its critical sections: every section runs under one mutex,
    so each is a method of `Engine`, proved against a function on snapshots. */
module EhcoEngine {
  import opened Failover
  import opened Wrappers

  datatype ClientConfig = ClientConfig(remoteURL: string, enableBridge: bool, bridgeURL: string, secondaryURL: string)

  datatype Kind = ServerProcess | ClientProcess(url: string)

  /** `cmdInstance`: nil, created but never started (a pipe failed), or started as a process. */
  datatype Command = NoCommand | Unstarted | Started(pid: nat, kind: Kind)

  /** How far launching a process gets. */
  datatype Launch = NoBinary | NoConfigFile | NoPipe | NoProcess | Launched

  /** What the supervisor finds in the database. */
  datatype Stored = Unavailable | Inactive | Active(client: ClientConfig)

  /** A snapshot. `live` are the child processes the operating system runs, `pids` counts the starts,
      `chans` the stop channels made, `closed` those closed; a second close would set `panicked`. */
  datatype State = State(
    cmd: Command, live: set<nat>, pids: nat,
    expectedRun: bool, serverMode: bool,
    stopChan: Option<nat>, chans: nat, closed: set<nat>, panicked: bool,
    restartDelay: nat, activeURL: string)

  const INITIAL := State(NoCommand, {}, 0, false, false, None, 0, {}, false, 0, "")

  function PrimaryURL(cfg: ClientConfig): string {
    if cfg.enableBridge && cfg.bridgeURL != "" then cfg.bridgeURL else cfg.remoteURL
  }

  /** `stopEngineLockedOnly`: kill and reap the process held in `cmdInstance`. */
  function Killed(s: State): State {
    match s.cmd
    case NoCommand => s
    case Unstarted => s.(cmd := NoCommand)
    case Started(pid, _) => s.(cmd := NoCommand, live := s.live - {pid})
  }

  /** `StopEngineLocked`. */
  function Stopped(s: State): State {
    var s1 := s.(expectedRun := false);
    var s2 := match s.stopChan
      case None => s1
      case Some(c) => s1.(stopChan := None, closed := s.closed + {c}, panicked := s.panicked || c in s.closed);
    Killed(s2)
  }

  /** `exec.Command` and `Start`: the new command replaces whatever `cmdInstance` held. */
  function Executed(s: State, kind: Kind, l: Launch): State {
    match l
    case NoBinary => s
    case NoConfigFile => s
    case NoPipe => s.(cmd := Unstarted)
    case NoProcess => s.(cmd := NoCommand)
    case Launched => s.(cmd := Started(s.pids, kind), live := s.live + {s.pids}, pids := s.pids + 1)
  }

  function ServerLaunched(s: State, l: Launch): State {
    Executed(s, ServerProcess, l)
  }

  /** `startClientEngineLocked` picks the address before anything but a missing binary can fail. */
  function ClientLaunched(s: State, cfg: ClientConfig, l: Launch): State {
    if l == NoBinary then s
    else
      var url := if s.activeURL == "" then PrimaryURL(cfg) else s.activeURL;
      Executed(s.(activeURL := url), ClientProcess(url), l)
  }

  function Running(s: State, serverMode: bool): State {
    s.(expectedRun := true, serverMode := serverMode, restartDelay := 1, stopChan := Some(s.chans), chans := s.chans + 1)
  }

  function ServerStarted(s: State, l: Launch): State {
    var s1 := ServerLaunched(Stopped(s), l);
    if l == Launched then Running(s1, true) else s1
  }

  function ClientStarted(s: State, cfg: ClientConfig, l: Launch): State {
    var s1 := ClientLaunched(Stopped(s).(activeURL := PrimaryURL(cfg)), cfg, l);
    if l == Launched then Running(s1, false) else s1
  }

  /** `restartEngineFromDB`. */
  function Restarted(s: State, db: Stored, l: Launch): State {
    if !s.expectedRun || !db.Active? then s
    else if s.serverMode then ServerLaunched(Killed(s), l)
    else ClientLaunched(Killed(s), db.client, l)
  }

  function RestartFails(s: State, db: Stored, l: Launch): bool {
    s.expectedRun && (!db.Active? || l != Launched)
  }

  function BackedOff(s: State): State {
    s.(restartDelay := if s.restartDelay == 0 then 1 else if s.restartDelay * 2 > 30 then 30 else s.restartDelay * 2)
  }

  /** A monitor handles a probe result: the counters, and on a switch the address and the process. */
  function Probed(s: State, cfg: ClientConfig, c: Counters, healthy: bool, l: Launch): (State, Counters) {
    if !s.expectedRun then (s, c)
    else
      var primary, secondary := PrimaryURL(cfg), cfg.secondaryURL;
      var t := Probe(SideOf(s.activeURL, primary, secondary), c, healthy, primary != secondary);
      if !t.switched then (s, t.counters)
      else
        var url := if s.activeURL == primary then secondary else primary;
        (ClientLaunched(Killed(s.(activeURL := url)), cfg, l), t.counters)
  }

  class Engine {
    var cmdInstance: Command
    var expectedRun: bool
    var stopChan: Option<nat>
    var isServerMode: bool
    var restartDelay: nat
    var activeURL: string
    ghost var live: set<nat>
    ghost var closed: set<nat>
    ghost var panicked: bool
    var pids: nat
    var chans: nat

    ghost function Snapshot(): State
      reads this
    {
      State(cmdInstance, live, pids, expectedRun, isServerMode, stopChan, chans, closed, panicked, restartDelay, activeURL)
    }

    constructor ()
      ensures Snapshot() == INITIAL
    {
      cmdInstance, expectedRun, stopChan, isServerMode := NoCommand, false, None, false;
      restartDelay, activeURL, pids, chans := 0, "", 0, 0;
      live, closed, panicked := {}, {}, false;
    }

    method StopEngineLockedOnly()
      modifies this
      ensures Snapshot() == Killed(old(Snapshot()))
    {
      if cmdInstance != NoCommand {
        if cmdInstance.Started? {
          live := live - {cmdInstance.pid};
        }
        cmdInstance := NoCommand;
      }
    }

    method StopEngineLocked()
      modifies this
      ensures Snapshot() == Stopped(old(Snapshot()))
    {
      expectedRun := false;
      if stopChan.Some? {
        Close(stopChan.value);
        stopChan := None;
      }
      StopEngineLockedOnly();
    }

    /** `close(stopChan)`. */
    ghost method Close(c: nat)
      modifies `closed, `panicked
      ensures closed == old(closed) + {c} && panicked == (old(panicked) || c in old(closed))
    {
      panicked := panicked || c in closed;
      closed := closed + {c};
    }

    method Execute(kind: Kind, l: Launch)
      modifies this
      ensures Snapshot() == Executed(old(Snapshot()), kind, l)
    {
      if l == NoBinary || l == NoConfigFile {
        return;
      }
      cmdInstance := Unstarted;
      if l == NoProcess {
        cmdInstance := NoCommand;
      } else if l == Launched {
        cmdInstance := Started(pids, kind);
        live := live + {pids};
        pids := pids + 1;
      }
    }

    method StartClientEngineLocked(cfg: ClientConfig, l: Launch) returns (err: bool)
      modifies this
      ensures Snapshot() == ClientLaunched(old(Snapshot()), cfg, l)
      ensures err <==> l != Launched
    {
      if l == NoBinary {
        return true;
      }
      var urlToParse := activeURL;
      if urlToParse == "" {
        urlToParse := cfg.remoteURL;
        if cfg.enableBridge && cfg.bridgeURL != "" {
          urlToParse := cfg.bridgeURL;
        }
        activeURL := urlToParse;
      }
      Execute(ClientProcess(urlToParse), l);
      err := l != Launched;
    }

    method StartServerEngine(l: Launch) returns (err: bool)
      modifies this
      ensures Snapshot() == ServerStarted(old(Snapshot()), l)
      ensures err <==> l != Launched
    {
      StopEngineLocked();
      Execute(ServerProcess, l);
      if l != Launched {
        return true;
      }
      expectedRun, isServerMode, restartDelay := true, true, 1;
      stopChan, chans := Some(chans), chans + 1;
      return false;
    }

    method StartClientEngine(cfg: ClientConfig, l: Launch) returns (err: bool)
      modifies this
      ensures Snapshot() == ClientStarted(old(Snapshot()), cfg, l)
      ensures err <==> l != Launched
    {
      StopEngineLocked();
      activeURL := PrimaryURL(cfg);
      err := StartClientEngineLocked(cfg, l);
      if !err {
        expectedRun, isServerMode, restartDelay := true, false, 1;
        stopChan, chans := Some(chans), chans + 1;
      }
    }

    /** The supervisor's back-off section. */
    method BackOff() returns (delay: nat)
      modifies `restartDelay
      ensures Snapshot() == BackedOff(old(Snapshot())) && delay == restartDelay
    {
      if restartDelay == 0 {
        restartDelay := 1;
      } else {
        restartDelay := restartDelay * 2;
        if restartDelay > 30 {
          restartDelay := 30;
        }
      }
      delay := restartDelay;
    }

    method RestartEngineFromDB(db: Stored, l: Launch) returns (err: bool)
      modifies this
      ensures Snapshot() == Restarted(old(Snapshot()), db, l)
      ensures err <==> RestartFails(old(Snapshot()), db, l)
    {
      if !expectedRun {
        return false;
      }
      if !db.Active? {
        return true;
      }
      StopEngineLockedOnly();
      if isServerMode {
        Execute(ServerProcess, l);
        err := l != Launched;
      } else {
        err := StartClientEngineLocked(db.client, l);
      }
    }

    /** The monitor's section after a probe. */
    method HandleProbe(cfg: ClientConfig, c: Counters, healthy: bool, l: Launch) returns (c': Counters)
      modifies this
      ensures (Snapshot(), c') == Probed(old(Snapshot()), cfg, c, healthy, l)
    {
      c' := c;
      if !expectedRun {
        return;
      }
      var primary, secondary := PrimaryURL(cfg), cfg.secondaryURL;
      var err;
      if activeURL == primary {
        if !healthy {
          c' := Counters(c'.failures + 1, 0);
          if c'.failures >= 3 {
            activeURL := secondary;
            c' := c'.(failures := 0);
            StopEngineLockedOnly();
            err := StartClientEngineLocked(cfg, l);
          }
        } else {
          c' := c'.(failures := 0);
        }
      } else if activeURL == secondary {
        if healthy {
          c' := Counters(0, c'.successes + 1);
          if c'.successes >= 3 {
            activeURL := primary;
            c' := c'.(successes := 0);
            StopEngineLockedOnly();
            err := StartClientEngineLocked(cfg, l);
          }
        } else {
          c' := c'.(successes := 0);
        }
      }
    }
  }
}
