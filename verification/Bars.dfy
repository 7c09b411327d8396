/** One-minute bars, and where in a time-ordered history a trade begins. */
module Bars {
  import opened Prelude

  /** Times are seconds. */
  datatype Bar = Bar(time: int, open: real, high: real, low: real, close: real, spread: real)

  const ONE_MINUTE := 60

  ghost predicate WellFormed(bars: seq<Bar>) {
    forall i :: 0 <= i < |bars| ==> bars[i].low <= bars[i].close <= bars[i].high
  }

  ghost predicate Ordered(bars: seq<Bar>) {
    forall i, j :: 0 <= i < j < |bars| ==> bars[i].time < bars[j].time
  }

  /** The left bisection point of `time`. */
  function StartIndex(bars: seq<Bar>, time: int): (k: nat)
    ensures k <= |bars|
    ensures forall i :: 0 <= i < k ==> bars[i].time < time
    ensures k < |bars| ==> bars[k].time >= time
  {
    if bars == [] || bars[0].time >= time then 0 else 1 + StartIndex(bars[1..], time)
  }

  function LastClose(bars: seq<Bar>, entry: real): real {
    if bars == [] then entry else bars[|bars| - 1].close
  }
}
