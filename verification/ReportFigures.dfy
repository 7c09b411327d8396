/** What each count of a replay report counts, and what its total and its expectancy are. */
module ReportFigures {
  import opened Prelude
  import Reports
  import DualTp
  import Management
  import Trailing

  /** The places of the trades that have a property. */
  ghost function Places<E>(es: seq<E>, p: E -> bool): set<int> {
    set i | 0 <= i < |es| && p(es[i])
  }

  lemma {:induction false} CountIsThePlaces<E>(es: seq<E>, p: E -> bool)
    ensures Reports.CountWhere(es, p) == |Places(es, p)|
  {
    if es != [] {
      var n := |es| - 1;
      CountIsThePlaces(es[..n], p);
      if p(es[n]) {
        assert Places(es, p) == Places(es[..n], p) + {n};
      } else {
        assert Places(es, p) == Places(es[..n], p);
      }
    }
  }

  /** Flags that agree on the trades have the same places. */
  lemma SamePlaces<E>(es: seq<E>, p: E -> bool, q: E -> bool)
    requires forall i :: 0 <= i < |es| ==> (p(es[i]) <==> q(es[i]))
    ensures Reports.CountWhere(es, p) == |Places(es, q)|
  {
    CountIsThePlaces(es, p);
    assert Places(es, p) == Places(es, q);
  }

  /** The expectancy of a report is its total over its number of trades, or zero without any. */
  lemma ExpectancyIsTheAverage(total: real, n: nat, mean: real)
    requires mean == Reports.Mean(total, n)
    ensures if n == 0 then mean == 0.0 else mean * n as real == total
  {
  }

  /** The ten counts of a dual-target report. */
  ghost function DualFlag(k: nat): DualTp.Executed -> bool {
    (e: DualTp.Executed) =>
      match k
      case 0 => e.exit.tp1TakenAt != None
      case 1 => e.exit.result == DualTp.Tp2
      case 2 => e.exit.result == DualTp.StopBeforeTp1
      case 3 => e.exit.result == DualTp.StopAfterTp1
      case 4 => e.plan.runner == 0.0
      case 5 => e.plan.runner == 0.5
      case 6 => e.plan.runner == 1.0
      case 7 => e.exit.tp1TakenAt != None && e.plan.runner < 1.0 && e.plan.runner > 0.0
      case 8 => e.plan.moveBe
      case _ => e.plan.profitLock
  }

  lemma DualCountsAre(s: Reports.Summary, es: seq<DualTp.Executed>, k: nat)
    requires Reports.Summarizes(s, es, DualTp.Flags(), DualTp.OutcomeR, DualTp.Closed) && k < 10
    ensures |s.counts| == 10 && s.counts[k] == |Places(es, DualFlag(k))|
  {
    assert k in [0, 1, 2, 3, 4, 5, 6, 7, 8, 9];
    SamePlaces(es, DualTp.Flags()[k], DualFlag(k));
  }

  /** Targets, stops, managed exits and ambiguous bars. */
  lemma ManagedCountsAre(s: Reports.Summary, es: seq<Management.Executed>)
    requires Reports.Summarizes(s, es, Management.Flags(), Management.OutcomeR, Management.Closed)
    ensures |s.counts| == 4
    ensures s.counts[0] == |Places(es, (e: Management.Executed) => e.exit.result == Management.Target)|
    ensures s.counts[1] == |Places(es, (e: Management.Executed) => e.exit.result == Management.Stop)|
    ensures s.counts[2] == |Places(es, (e: Management.Executed) => e.exit.result.ManagedExit?)|
    ensures s.counts[3] == |Places(es, (e: Management.Executed) => e.exit.result == Management.AmbiguousSameBar)|
  {
    var flags := Management.Flags();
    SamePlaces(es, flags[0], (e: Management.Executed) => e.exit.result == Management.Target);
    SamePlaces(es, flags[1], (e: Management.Executed) => e.exit.result == Management.Stop);
    SamePlaces(es, flags[2], (e: Management.Executed) => e.exit.result.ManagedExit?);
    SamePlaces(es, flags[3], (e: Management.Executed) => e.exit.result == Management.AmbiguousSameBar);
  }

  /** Targets, initial stops, trailed stops and ambiguous bars. */
  lemma TrailedCountsAre(s: Reports.Summary, es: seq<Trailing.Executed>)
    requires Reports.Summarizes(s, es, Trailing.Flags(), Trailing.OutcomeR, Trailing.Closed)
    ensures |s.counts| == 4
    ensures s.counts[0] == |Places(es, (e: Trailing.Executed) => e.exit.result == Trailing.Target)|
    ensures s.counts[1] == |Places(es, (e: Trailing.Executed) => e.exit.result == Trailing.Stop)|
    ensures s.counts[2] == |Places(es, (e: Trailing.Executed) => e.exit.result == Trailing.TrailStop)|
    ensures s.counts[3] == |Places(es, (e: Trailing.Executed) => e.exit.result == Trailing.AmbiguousSameBar)|
  {
    var flags := Trailing.Flags();
    SamePlaces(es, flags[0], (e: Trailing.Executed) => e.exit.result == Trailing.Target);
    SamePlaces(es, flags[1], (e: Trailing.Executed) => e.exit.result == Trailing.Stop);
    SamePlaces(es, flags[2], (e: Trailing.Executed) => e.exit.result == Trailing.TrailStop);
    SamePlaces(es, flags[3], (e: Trailing.Executed) => e.exit.result == Trailing.AmbiguousSameBar);
  }
}
