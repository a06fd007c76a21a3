/** The counters of one failover monitor: three probes in a row that disagree with the active side
    switch the tunnel to the other address. */
module Failover {

  /** Where `activeURL` points, as one monitor compares it. */
  datatype Side = OnPrimary | OnSecondary | Elsewhere

  datatype Counters = Counters(failures: nat, successes: nat)

  datatype Tick = Tick(side: Side, counters: Counters, switched: bool)

  function SideOf(active: string, primary: string, secondary: string): Side {
    if active == primary then OnPrimary else if active == secondary then OnSecondary else Elsewhere
  }

  /** The side after a switch; `distinct` says that the two addresses differ. */
  function Other(side: Side, distinct: bool): Side {
    if side == OnPrimary && distinct then OnSecondary else OnPrimary
  }

  /** One probe result, handled under the lock. */
  function Probe(side: Side, c: Counters, healthy: bool, distinct: bool): Tick {
    match side
    case OnPrimary =>
      if healthy then Tick(side, c.(failures := 0), false)
      else if c.failures + 1 >= 3 then Tick(Other(side, distinct), Counters(0, 0), true)
      else Tick(side, Counters(c.failures + 1, 0), false)
    case OnSecondary =>
      if !healthy then Tick(side, c.(successes := 0), false)
      else if c.successes + 1 >= 3 then Tick(Other(side, distinct), Counters(0, 0), true)
      else Tick(side, Counters(0, c.successes + 1), false)
    case Elsewhere =>
      Tick(side, c, false)
  }

  /** A monitor's life over a probe history. */
  datatype Life = Life(side: Side, counters: Counters, switches: nat)

  function After(history: seq<bool>, start: Side, distinct: bool): Life {
    if history == [] then Life(start, Counters(0, 0), 0)
    else
      var l := After(history[..|history| - 1], start, distinct);
      var t := Probe(l.side, l.counters, history[|history| - 1], distinct);
      Life(t.side, t.counters, l.switches + (if t.switched then 1 else 0))
  }

  // ----- the reference: no counters, only the history

  /** A probe that speaks for leaving the side. */
  predicate Against(side: Side, healthy: bool) {
    (side == OnPrimary && !healthy) || (side == OnSecondary && healthy)
  }

  datatype Position = Position(side: Side, since: nat)

  /** The side and the number of probes up to the last switch, read off the history: a switch falls on
      a probe when it and the two before it, all after the last switch, speak against the side. */
  function Reference(history: seq<bool>, start: Side, distinct: bool): (p: Position)
    ensures p.since <= |history|
  {
    if history == [] then Position(start, 0)
    else
      var n, p := |history|, Reference(history[..|history| - 1], start, distinct);
      if SwitchDue(history, p) then Position(Other(p.side, distinct), n) else p
  }

  predicate SwitchDue(history: seq<bool>, p: Position) {
    var n := |history|;
    && p.since + 3 <= n
    && Against(p.side, history[n - 1]) && Against(p.side, history[n - 2]) && Against(p.side, history[n - 3])
  }

  /** How many of the last probes, none before `since`, speak against the side. */
  function Streak(history: seq<bool>, side: Side, since: nat): (r: nat)
    requires since <= |history|
    ensures r <= |history| - since
  {
    if |history| == since || !Against(side, history[|history| - 1]) then 0
    else 1 + Streak(history[..|history| - 1], side, since)
  }

  lemma {:induction false} StreakReaches(history: seq<bool>, side: Side, since: nat, k: nat)
    requires since <= |history|
    ensures Streak(history, side, since) >= k <==>
            k <= |history| - since && forall i :: |history| - k <= i < |history| ==> Against(side, history[i])
  {
    var n := |history|;
    if k > 0 && since < n && Against(side, history[n - 1]) {
      StreakReaches(history[..n - 1], side, since, k - 1);
    }
  }

  /** The counters count the streak, and a probe switches exactly when the reference says so. */
  lemma {:induction false} MonitorFollowsReference(history: seq<bool>, start: Side, distinct: bool)
    ensures After(history, start, distinct).side == Reference(history, start, distinct).side
    ensures var l, p := After(history, start, distinct), Reference(history, start, distinct);
            && (l.side == OnPrimary ==> l.counters == Counters(Streak(history, l.side, p.since), 0))
            && (l.side == OnSecondary ==> l.counters == Counters(0, Streak(history, l.side, p.since)))
            && (l.side == Elsewhere ==> l.counters == Counters(0, 0))
            && Streak(history, l.side, p.since) < 3
  {
    if history != [] {
      var n := |history|;
      var h := history[..n - 1];
      MonitorFollowsReference(h, start, distinct);
      var p := Reference(h, start, distinct);
      StreakReaches(history, p.side, p.since, 3);
      assert Streak(history, p.side, p.since) == (if Against(p.side, history[n - 1]) then 1 + Streak(h, p.side, p.since) else 0);
    }
  }

  /** A switch happens at a probe exactly when it and the two probes before it, all since the last
      switch, agree in the switching direction. */
  lemma SwitchIffThreeAgree(history: seq<bool>, healthy: bool, start: Side, distinct: bool)
    ensures var l := After(history, start, distinct);
            Probe(l.side, l.counters, healthy, distinct).switched <==>
            SwitchDue(history + [healthy], Reference(history, start, distinct))
  {
    var h, p := history + [healthy], Reference(history, start, distinct);
    assert h[..|history|] == history;
    MonitorFollowsReference(history, start, distinct);
    StreakReaches(h, p.side, p.since, 3);
    assert Streak(h, p.side, p.since) == (if Against(p.side, healthy) then 1 + Streak(history, p.side, p.since) else 0);
  }

  /** Every switch is paid for by three probes, and no probe pays twice. */
  lemma {:induction false} SwitchesArePaid(history: seq<bool>, start: Side, distinct: bool)
    ensures var l := After(history, start, distinct);
            3 * l.switches + l.counters.failures + l.counters.successes <= |history|
  {
    if history != [] {
      SwitchesArePaid(history[..|history| - 1], start, distinct);
      MonitorFollowsReference(history[..|history| - 1], start, distinct);
    }
  }
}
