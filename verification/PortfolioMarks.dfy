/** What marking the open positions to market means: the worst price of a bar decides about a stop-out. */
module PortfolioMarks {
  import opened Prelude
  import opened Bars
  import opened Legs
  import opened Portfolio

  // ---- Equity is linear in the price ----

  function Exposure(contractSize: real): Position -> real {
    (p: Position) => (if p.id.side.Buy? then contractSize else -contractSize) * p.lot
  }

  function Times(x: real, y: real): real {
    x * y
  }

  lemma FloatingMoves(p: Position, x: real, y: real, contractSize: real)
    ensures FloatingProfit(p, x, contractSize)
         == FloatingProfit(p, y, contractSize) + Times(Exposure(contractSize)(p), x - y)
  {
    var e, c, l := p.id.entry, contractSize, p.lot;
    assert (x - e) * c * l == (y - e) * c * l + (x - y) * c * l;
    assert (x - y) * c * l == (c * l) * (x - y);
  }

  lemma TimesDistributes(a: real, b: real, d: real)
    ensures Times(a + b, d) == Times(a, d) + Times(b, d)
  {
  }

  lemma {:induction false} FloatingIsAffine(ps: seq<Position>, x: real, y: real, contractSize: real)
    ensures SumBy(ps, Floating(x, contractSize))
         == SumBy(ps, Floating(y, contractSize)) + Times(SumBy(ps, Exposure(contractSize)), x - y)
  {
    if ps != [] {
      var n := |ps| - 1;
      FloatingIsAffine(ps[..n], x, y, contractSize);
      FloatingMoves(ps[n], x, y, contractSize);
      TimesDistributes(SumBy(ps[..n], Exposure(contractSize)), Exposure(contractSize)(ps[n]), x - y);
    }
  }

  lemma TimesSign(e: real, d: real)
    ensures e >= 0.0 && d >= 0.0 ==> Times(e, d) >= 0.0
    ensures e <= 0.0 && d <= 0.0 ==> Times(e, d) >= 0.0
  {
  }

  /** Between two prices the equity never falls below both ends. */
  lemma LowestAtAnEnd(b: Book, low: real, high: real, x: real, contractSize: real)
    requires low <= x <= high
    ensures Equity(b, x, contractSize) >= Min(Equity(b, low, contractSize), Equity(b, high, contractSize))
  {
    var e := SumBy(b.active, Exposure(contractSize));
    FloatingIsAffine(b.active, x, low, contractSize);
    FloatingIsAffine(b.active, x, high, contractSize);
    TimesSign(e, x - low);
    TimesSign(e, x - high);
  }

  // ---- The mark of a bar ----

  predicate InBar(bar: Bar, x: real) {
    bar.low <= x <= bar.high
  }

  predicate IsBar(bar: Bar) {
    bar.low <= bar.close <= bar.high
  }

  /** The adverse equity of a bar is the least equity at any of its prices, and one of them attains it. */
  lemma MarkIsTheWorst(b: Book, bar: Bar, contractSize: real)
    requires IsBar(bar)
    ensures forall x :: InBar(bar, x) ==> Equity(b, x, contractSize) >= AdverseEquity(b, bar, contractSize)
    ensures exists x :: InBar(bar, x) && Equity(b, x, contractSize) == AdverseEquity(b, bar, contractSize)
  {
    forall x | InBar(bar, x) ensures Equity(b, x, contractSize) >= AdverseEquity(b, bar, contractSize) {
      LowestAtAnEnd(b, bar.low, bar.high, x, contractSize);
      LowestAtAnEnd(b, bar.low, bar.high, bar.close, contractSize);
    }
    assert InBar(bar, bar.low) && InBar(bar, bar.high) && InBar(bar, bar.close);
  }

  /** At this price the account is worth nothing, or no more than the stop-out level of the margin in use. */
  predicate Ruined(b: Book, price: real, contractSize: real, stopOutLevel: real) {
    Ruinous(Equity(b, price, contractSize), SumBy(b.active, MarginOf), stopOutLevel)
  }

  predicate Ruinous(equity: real, margin: real, level: real) {
    equity <= 0.0 || (level > 0.0 && margin > 0.0 && equity <= margin * level / 100.0)
  }

  lemma LevelIsAShare(equity: real, margin: real, level: real)
    requires margin > 0.0
    ensures equity / margin * 100.0 <= level <==> equity <= margin * level / 100.0
  {
    var q := equity / margin;
    assert q * margin == equity;
    if q * 100.0 <= level {
      assert (level / 100.0 - q) * margin >= 0.0;
    } else {
      assert (q - level / 100.0) * margin > 0.0;
    }
    assert (level / 100.0) * margin == margin * level / 100.0;
  }

  lemma StopOutIsRuin(b: Book, bar: Bar, contractSize: real, stopOutLevel: real)
    ensures IsStopOut(b, bar, contractSize, stopOutLevel) <==>
            b.active != [] && Ruinous(AdverseEquity(b, bar, contractSize), SumBy(b.active, MarginOf), stopOutLevel)
  {
    if SumBy(b.active, MarginOf) > 0.0 {
      LevelIsAShare(AdverseEquity(b, bar, contractSize), SumBy(b.active, MarginOf), stopOutLevel);
    }
  }

  lemma LessIsNoBetter(equity: real, less: real, margin: real, level: real)
    requires less <= equity && Ruinous(equity, margin, level)
    ensures Ruinous(less, margin, level)
  {
  }

  /** A bar stops the account out exactly when some price of the bar ruins it. */
  lemma StopOutIff(b: Book, bar: Bar, contractSize: real, stopOutLevel: real)
    requires IsBar(bar)
    ensures IsStopOut(b, bar, contractSize, stopOutLevel) <==>
            b.active != [] && exists x :: InBar(bar, x) && Ruined(b, x, contractSize, stopOutLevel)
  {
    MarkIsTheWorst(b, bar, contractSize);
    StopOutIsRuin(b, bar, contractSize, stopOutLevel);
    var adverse, margin := AdverseEquity(b, bar, contractSize), SumBy(b.active, MarginOf);
    var worst :| InBar(bar, worst) && Equity(b, worst, contractSize) == adverse;
    assert Ruined(b, worst, contractSize, stopOutLevel) <==> Ruinous(adverse, margin, stopOutLevel);
    if x :| InBar(bar, x) && Ruined(b, x, contractSize, stopOutLevel) {
      LessIsNoBetter(Equity(b, x, contractSize), adverse, margin, stopOutLevel);
    }
  }

  /** What the broker leaves: the stop-out level of the margin, at the time and the worst equity of the bar. */
  lemma StopOutLeavesTheLevel(b: Book, bar: Bar, contractSize: real, stopOutLevel: real)
    requires IsBar(bar)
    ensures var s := StoppedOut(b, bar, contractSize, stopOutLevel);
            && s.failure.Some? && s.failure.value.StopOut? && s.failure.value.time == bar.time
            && (exists x :: InBar(bar, x) && Equity(b, x, contractSize) == s.failure.value.adverseEquity)
            && (forall x :: InBar(bar, x) ==> Equity(b, x, contractSize) >= s.failure.value.adverseEquity)
            && (SumBy(b.active, MarginOf) > 0.0 && stopOutLevel >= 0.0 ==>
                  s.balance / SumBy(b.active, MarginOf) * 100.0 == stopOutLevel)
            && s.balance >= 0.0 && s.minimumBalance == Min(b.minimumBalance, s.balance)
            && s == b.(failure := s.failure, balance := s.balance, minimumBalance := s.minimumBalance)
  {
    MarkIsTheWorst(b, bar, contractSize);
    var margin := SumBy(b.active, MarginOf);
    if margin > 0.0 && stopOutLevel >= 0.0 {
      LevelIsLeft(margin, stopOutLevel, margin * stopOutLevel / 100.0);
    }
  }

  lemma LevelIsLeft(margin: real, level: real, left: real)
    requires margin > 0.0 && level >= 0.0 && left == margin * level / 100.0
    ensures left >= 0.0 && left / margin * 100.0 == level
  {
    assert margin * (level / 100.0) == left;
    assert left / margin == level / 100.0;
  }

  // ---- Marks and settlements ----

  /** At its exit price an open position is worth what it settles for, gross. */
  lemma MarkAtTheExitIsTheGross(
      k: Broker, c: Costs, o: Outcome, side: Side, lot: real, leg: Leg, outcomeR: real, closedAt: int)
    requires Linear(k)
    ensures var p := PositionOf(k, c, o, side, lot, leg, outcomeR, closedAt);
            FloatingProfit(p, p.exitPrice, k.contractSize) == p.grossProfit
  {
    var exit := ExitPrice(o, side, outcomeR);
    assert k.profit(side, lot, o.entry, exit)
        == (if side.Buy? then exit - o.entry else o.entry - exit) * k.contractSize * lot;
    if side.Sell? {
      assert (-1.0 * (exit - o.entry)) == o.entry - exit;
    }
  }

  /** A fresh position is worth nothing yet. */
  lemma MarkAtTheEntryIsNothing(p: Position, contractSize: real)
    ensures FloatingProfit(p, p.id.entry, contractSize) == 0.0
  {
  }

  // ---- Over a run ----

  /** Without a stop-out no price of any checked bar ruined an account with open positions. */
  lemma UnstoppedRunsStaySolvent(
      account: Simulator, bars: seq<Bar>, n: nat, x: real, contractSize: real, stopOutLevel: real)
    requires account.SetUp() && account.NoStopBefore(bars, |bars|, contractSize, stopOutLevel)
    requires n < |bars| && IsBar(bars[n]) && InBar(bars[n], x)
    ensures var b := account.states[CheckedAfter(account.times, bars, n)];
            b.failure.None? && b.active != [] ==> !Ruined(b, x, contractSize, stopOutLevel)
  {
    assert !account.StopsAt(bars, n, contractSize, stopOutLevel);
    StopOutIff(account.states[CheckedAfter(account.times, bars, n)], bars[n], contractSize, stopOutLevel);
  }

  /** A stop-out happens at a bar with a ruinous price, and at no earlier bar was there one. */
  lemma StoppedRunsWereRuined(
      account: Simulator, bars: seq<Bar>, n: nat, contractSize: real, stopOutLevel: real)
    requires account.SetUp() && account.EndsAt(bars, n, contractSize, stopOutLevel)
    requires forall m :: 0 <= m <= n ==> IsBar(bars[m])
    ensures var b := account.states[CheckedAfter(account.times, bars, n)];
            b.active != [] && exists x :: InBar(bars[n], x) && Ruined(b, x, contractSize, stopOutLevel)
    ensures forall m, x :: 0 <= m < n && InBar(bars[m], x) ==>
              var b := account.states[CheckedAfter(account.times, bars, m)];
              b.failure.None? && b.active != [] ==> !Ruined(b, x, contractSize, stopOutLevel)
  {
    StopOutIff(account.states[CheckedAfter(account.times, bars, n)], bars[n], contractSize, stopOutLevel);
    forall m, x | 0 <= m < n && InBar(bars[m], x)
      ensures var b := account.states[CheckedAfter(account.times, bars, m)];
              b.failure.None? && b.active != [] ==> !Ruined(b, x, contractSize, stopOutLevel)
    {
      assert !account.StopsAt(bars, m, contractSize, stopOutLevel);
      StopOutIff(account.states[CheckedAfter(account.times, bars, m)], bars[m], contractSize, stopOutLevel);
    }
  }
}
