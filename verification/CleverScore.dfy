/** The ranking score of a resolver, over the reals. */
module CleverScore {

  const DEAD := -20000
  const COMPROMISED := -10000
  const FLOOR := -5000

  datatype Measured = Measured(latencyMs: int, jitterMs: real, lossPct: real, censorship: string, dnssec: bool)

  predicate IsDead(m: Measured) {
    m.latencyMs <= 0 || m.lossPct == 100.0
  }

  predicate IsCompromised(m: Measured) {
    m.censorship == "hijacked" || m.censorship == "manipulated"
  }

  /** To the nearest integer, halves away from zero. */
  function Round(x: real): (n: int)
    ensures n as real - 0.5 <= x <= n as real + 0.5
    ensures x == n as real + 0.5 ==> x < 0.0
    ensures x == n as real - 0.5 ==> x > 0.0
  {
    if x >= 0.0 then (x + 0.5).Floor else -((0.5 - x).Floor)
  }

  function Raw(m: Measured): real
    requires m.latencyMs > 0
  {
    var speedScore := (1000.0 / m.latencyMs as real) * 0.5;
    (speedScore - m.jitterMs * 0.2 - m.lossPct * 0.3) * 100.0
    + (if m.dnssec then 15.0 else 0.0)
    + (if m.censorship == "sinkhole" then 10.0 else 0.0)
  }

  function Score(m: Measured): int {
    if IsDead(m) then DEAD
    else if IsCompromised(m) then COMPROMISED
    else if Round(Raw(m)) < FLOOR then FLOOR
    else Round(Raw(m))
  }

  lemma RoundIsMonotone(x: real, y: real)
    requires x <= y
    ensures Round(x) <= Round(y)
  {
    if Round(x) > Round(y) {
      assert false;
    }
  }

  lemma SlowerScoresLess(a: int, b: int)
    requires 0 < a <= b
    ensures 1000.0 / b as real <= 1000.0 / a as real
  {
    var x, y := 1000.0 / a as real, 1000.0 / b as real;
    assert x * a as real == 1000.0 && y * b as real == 1000.0;
    assert x * b as real >= x * a as real;
    assert (x - y) * b as real >= 0.0;
  }

  /** The score alone tells the three classes apart, and dead ranks below compromised below everything else. */
  lemma ScoreSeparatesClasses(m: Measured)
    ensures Score(m) == DEAD <==> IsDead(m)
    ensures Score(m) == COMPROMISED <==> IsCompromised(m) && !IsDead(m)
    ensures Score(m) >= FLOOR <==> !IsDead(m) && !IsCompromised(m)
    ensures DEAD < COMPROMISED < FLOOR
  {
  }

  /** `b` is no better than `a` in any measurement. */
  predicate NoBetter(b: Measured, a: Measured) {
    && a.latencyMs <= b.latencyMs && a.jitterMs <= b.jitterMs && a.lossPct <= b.lossPct
    && (b.dnssec ==> a.dnssec) && a.censorship == b.censorship
  }

  lemma WorseRoundsLower(a: Measured, b: Measured)
    requires !IsDead(a) && !IsDead(b) && NoBetter(b, a)
    ensures Round(Raw(b)) <= Round(Raw(a))
  {
    SlowerScoresLess(a.latencyMs, b.latencyMs);
    assert Raw(b) <= Raw(a);
    RoundIsMonotone(Raw(b), Raw(a));
  }

  /** Through rounding and the floor the score of a resolver never rises with latency, jitter or loss, nor when
      DNSSEC is lost; the one exception is leaving a dead measurement, upwards from no latency or past 100% loss. */
  lemma WorseNeverScoresHigherIff(a: Measured, b: Measured)
    requires NoBetter(b, a)
    ensures Score(b) <= Score(a) <==> (IsDead(a) ==> IsDead(b))
  {
    if !IsDead(a) && !IsDead(b) {
      WorseRoundsLower(a, b);
    }
  }

  /** Real measurements score at most 50025, reached at one millisecond without jitter or loss. */
  lemma ScoreIsBounded(m: Measured)
    requires m.jitterMs >= 0.0 && m.lossPct >= 0.0
    ensures Score(m) <= 50025
    ensures Score(Measured(1, 0.0, 0.0, "sinkhole", true)) == 50025
  {
    var best := Measured(1, 0.0, 0.0, "sinkhole", true);
    assert 1000.0 / 1 as real == 1000.0;
    assert Raw(best) == 50025.0;
    if !IsDead(m) && !IsCompromised(m) {
      SlowerScoresLess(1, m.latencyMs);
      RoundIsMonotone(Raw(m), 50025.0);
    }
  }

  // ----- the figures

  /** A dead measurement scores -20000 and a compromised one -10000. Any other score is the nearest integer to 50000
      over the latency, less 20 for a millisecond of jitter and 30 for a per cent of loss, plus 15 for DNSSEC and 10
      for a sinkhole, but never below -5000. */
  lemma ScoreIsNearest(m: Measured)
    ensures m.latencyMs <= 0 || m.lossPct == 100.0 ==> Score(m) == -20000
    ensures m.latencyMs > 0 && m.lossPct != 100.0 && m.censorship in ["hijacked", "manipulated"] ==> Score(m) == -10000
    ensures m.latencyMs > 0 && m.lossPct != 100.0 && m.censorship !in ["hijacked", "manipulated"] ==>
              var x := 50000.0 / m.latencyMs as real - 20.0 * m.jitterMs - 30.0 * m.lossPct
                       + (if m.dnssec then 15.0 else 0.0) + (if m.censorship == "sinkhole" then 10.0 else 0.0);
              if x <= -5000.5 then Score(m) == -5000 else Score(m) as real - 0.5 <= x <= Score(m) as real + 0.5
  {
    if m.latencyMs > 0 {
      var l := m.latencyMs as real;
      assert 1000.0 / l * l == 1000.0 && 50000.0 / l * l == 50000.0;
      assert (50.0 * (1000.0 / l) - 50000.0 / l) * l == 0.0;
      assert 50.0 * (1000.0 / l) == 50000.0 / l;
    }
  }
}
