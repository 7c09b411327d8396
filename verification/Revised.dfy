/** What the three replays of the revised BUY engine share: the widened setup of a recorded signal. */
module Revised {
  import opened Prelude

  datatype RecordedSignal = RecordedSignal(openedAt: int, entry: real, stop: real, target: real, firstObstacleR: real)

  /** A zero initial risk makes the scripts divide by zero, so recorded signals have a stop away from the entry. */
  type Signal = s: RecordedSignal | s.entry != s.stop witness RecordedSignal(0, 1.0, 0.0, 2.0, 1.0)

  type Multiplier = m: real | m > 0.0 witness 1.0

  datatype RawSetup = Setup(entry: real, risk: real, target: real)

  type Setup = t: RawSetup | t.risk > 0.0 && t.entry < t.target witness Setup(1.0, 1.0, 2.0)

  function InitialStop(t: Setup): real {
    t.entry - t.risk
  }

  function RAt(t: Setup, price: real): real {
    (price - t.entry) / t.risk
  }

  lemma RiskIsPositive(s: Signal, m: Multiplier)
    ensures Abs(s.entry - s.stop) * m > 0.0
  {
  }

  /** Widened stop and target; a target at or below the entry is invalid. */
  function Widen(s: Signal, stopMultiplier: Multiplier, targetMultiplier: real): Option<Setup> {
    var risk := Abs(s.entry - s.stop) * stopMultiplier;
    var target := s.entry + (s.target - s.entry) * targetMultiplier;
    RiskIsPositive(s, stopMultiplier);
    if target <= s.entry then None else Some(Setup(s.entry, risk, target))
  }

  function Opening(s: Signal): int { s.openedAt }

  lemma StopIsMinusOneR(t: Setup)
    ensures RAt(t, InitialStop(t)) == -1.0
    ensures RAt(t, t.target) > 0.0
  {
    var r := t.risk;
    assert (0.0 - r) / r == -1.0;
  }

  /** Locking `level` times the risk is worth exactly `level`. */
  lemma LevelIsItsR(t: Setup, level: real)
    ensures RAt(t, t.entry + level * t.risk) == level
  {
    Cancel(level, t.risk);
  }

  lemma Cancel(a: real, d: real)
    requires d > 0.0
    ensures (a * d) / d == a
  {
  }
}
