/** The extremes that the simulator reports are those of the balance column of its ledger. */
module PortfolioLedger {
  import opened Prelude
  import opened Legs
  import opened Portfolio
  import opened PortfolioTheorems
  import Drawdown

  /** The starting balance and the balance after every ledger line. */
  function LedgerCurve(start: real, ledger: seq<Event>): (c: seq<real>)
    ensures |c| == |ledger| + 1
  {
    if ledger == [] then [start]
    else LedgerCurve(start, ledger[..|ledger| - 1]) + [ledger[|ledger| - 1].balance]
  }

  ghost predicate IsLowest(c: seq<real>, x: real) {
    (forall i :: 0 <= i < |c| ==> x <= c[i]) && x in c
  }

  ghost predicate Tracks(c: seq<real>, balance: real, peak: real, lowest: real, fall: real) {
    && c != [] && c[|c| - 1] == balance
    && Drawdown.IsPeak(c, peak) && Drawdown.IsMaximumDrawdown(c, fall) && IsLowest(c, lowest)
  }

  ghost predicate LedgerTracks(b: Book, start: real) {
    Tracks(LedgerCurve(start, b.ledger), b.balance, b.peakBalance, b.minimumBalance, b.maximumRealizedDrawdown)
  }

  lemma TrackOne(c: seq<real>, balance: real, peak: real, lowest: real, fall: real, next: real)
    requires Tracks(c, balance, peak, lowest, fall)
    ensures Tracks(c + [next], next, Max(peak, next), Min(lowest, next), Max(fall, Max(peak, next) - next))
  {
    Drawdown.Advance(c, next, peak, fall);
    var k :| 0 <= k < |c| && c[k] == lowest;
    assert (c + [next])[k] == lowest && (c + [next])[|c|] == next;
  }

  lemma TrackedBounds(c: seq<real>, balance: real, peak: real, lowest: real, fall: real)
    requires Tracks(c, balance, peak, lowest, fall)
    ensures lowest <= balance <= peak && peak - balance <= fall
  {
    var p :| 0 <= p < |c| && c[p] == peak;
    assert c[p] - c[|c| - 1] <= fall;
  }

  lemma CurveAppend(start: real, ledger: seq<Event>, e: Event)
    ensures LedgerCurve(start, ledger + [e]) == LedgerCurve(start, ledger) + [e.balance]
  {
    assert (ledger + [e])[..|ledger|] == ledger;
  }

  /** One ledger line at the new balance, with the extremes carried along, keeps the figures those of the ledger. */
  lemma LineTracks(b: Book, c: Book, start: real, e: Event)
    requires LedgerTracks(b, start)
    requires c.ledger == b.ledger + [e] && e.balance == c.balance && c.peakBalance == Max(b.peakBalance, c.balance)
    requires c.minimumBalance == Min(b.minimumBalance, c.balance)
    requires c.maximumRealizedDrawdown == Max(b.maximumRealizedDrawdown, c.peakBalance - c.balance)
    ensures LedgerTracks(c, start)
  {
    TrackOne(LedgerCurve(start, b.ledger), b.balance, b.peakBalance, b.minimumBalance, b.maximumRealizedDrawdown,
      c.balance);
    CurveAppend(start, b.ledger, e);
  }

  lemma BookBounds(b: Book, start: real)
    requires LedgerTracks(b, start)
    ensures b.minimumBalance <= b.balance <= b.peakBalance && b.peakBalance - b.balance <= b.maximumRealizedDrawdown
  {
    TrackedBounds(LedgerCurve(start, b.ledger), b.balance, b.peakBalance, b.minimumBalance, b.maximumRealizedDrawdown);
  }

  lemma CloseOneTracks(b: Book, start: real, time: int, p: Position)
    requires LedgerTracks(b, start)
    ensures LedgerTracks(CloseOne(b, time, p), start)
  {
    var c := CloseOne(b, time, p);
    if c != b {
      LineTracks(b, c, start, Closed(time, p, c.balance));
    }
  }

  lemma {:induction false} CloseListTracks(b: Book, start: real, time: int, ps: seq<Position>)
    requires LedgerTracks(b, start)
    ensures LedgerTracks(CloseList(b, time, ps), start)
  {
    if ps != [] {
      var n := |ps| - 1;
      CloseListTracks(b, start, time, ps[..n]);
      CloseOneTracks(CloseList(b, time, ps[..n]), start, time, ps[n]);
    }
  }

  /** The figures of a book right after its entry costs were charged, before the opening lines are written. */
  ghost predicate ChargedFrom(d: Book, b: Book) {
    && d.ledger == b.ledger && d.balance <= b.balance && d.peakBalance == b.peakBalance
    && d.minimumBalance == Min(b.minimumBalance, d.balance)
    && d.maximumRealizedDrawdown == Max(b.maximumRealizedDrawdown, b.peakBalance - d.balance)
  }

  lemma {:induction false} ActivateIsQuiet(d: Book, time: int, ps: seq<Position>)
    ensures var c := Activate(d, time, ps); c == d.(active := c.active, ledger := c.ledger)
  {
    if ps != [] {
      ActivateIsQuiet(d, time, ps[..|ps| - 1]);
    }
  }

  lemma ActivateLine(d: Book, time: int, ps: seq<Position>)
    requires ps != []
    ensures Activate(d, time, ps).ledger
      == Activate(d, time, ps[..|ps| - 1]).ledger + [Opened(time, ps[|ps| - 1], d.balance)]
  {
    ActivateIsQuiet(d, time, ps[..|ps| - 1]);
  }

  lemma {:induction false} ActivateTracks(b: Book, d: Book, start: real, time: int, ps: seq<Position>)
    requires LedgerTracks(b, start) && ChargedFrom(d, b) && ps != []
    ensures LedgerTracks(Activate(d, time, ps), start)
  {
    var front, c := ps[..|ps| - 1], Activate(d, time, ps);
    ActivateLine(d, time, ps);
    ActivateIsQuiet(d, time, ps);
    ActivateIsQuiet(d, time, front);
    if front == [] {
      BookBounds(b, start);
      LineTracks(b, c, start, Opened(time, ps[|ps| - 1], d.balance));
    } else {
      ActivateTracks(b, d, start, time, front);
      BookBounds(Activate(d, time, front), start);
      LineTracks(Activate(d, time, front), c, start, Opened(time, ps[|ps| - 1], d.balance));
    }
  }

  lemma RegisterIsQuiet(b: Book, ps: seq<Position>)
    ensures var c := Register(b, ps); c == b.(selected := c.selected, closes := c.closes)
  {
  }

  lemma OpenAllTracks(b: Book, start: real, time: int, ps: seq<Position>)
    requires LedgerTracks(b, start) && forall p :: p in ps ==> Costed(p)
    ensures LedgerTracks(OpenAll(b, time, ps), start)
  {
    if !(SumBy(b.active, MarginOf) + SumBy(ps, MarginOf) > b.balance - SumBy(ps, EntryCostOf)) {
      var d := Register(ChargeFor(b, ps), ps);
      RegisterIsQuiet(ChargeFor(b, ps), ps);
      ChargeBalances(ps);
      if ps == [] {
        BookBounds(b, start);
      } else {
        ActivateTracks(b, d, start, time, ps);
      }
    }
  }

  /** After any number of events, the reported drawdown, peak and minimum are those of the ledger's balance column. */
  lemma {:induction false} ReportedExtremesAreTheLedgers(
      plan: LotPlan, groups: seq<Group>, times: seq<int>, start: real)
    requires AllFit(plan, groups) && SoundGroups(groups)
    ensures LedgerTracks(HandleAll(plan, groups, Opening(start), times), start)
  {
    if times == [] {
      assert [start][0] == start && [start][0] - [start][0] == 0.0;
    } else {
      var n := |times| - 1;
      ReportedExtremesAreTheLedgers(plan, groups, times[..n], start);
      var b := HandleAll(plan, groups, Opening(start), times[..n]);
      CloseListTracks(b, start, times[n], ClosesAt(b, times[n]));
      var c := CloseList(b, times[n], ClosesAt(b, times[n]));
      CandidatesAreFresh(plan, groups, times[n], c.balance);
      OpenAllTracks(c, start, times[n], Candidates(plan, groups, times[n], c.balance));
    }
  }
}
