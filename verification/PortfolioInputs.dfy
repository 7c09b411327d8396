/** From replay reports to the groups of the portfolio run: what the loader builds is what the account theorems need. */
module PortfolioInputs {
  import opened Prelude
  import opened Bars
  import opened Schedule
  import opened Legs
  import opened Portfolio
  import opened PortfolioTheorems
  import opened PortfolioRuns
  import DualTp
  import Theorems = DualTpTheorems

  // ---- The loader ----

  /** The volumes at which the script prepares every signal of a side. */
  function Lots(plan: LotPlan, staticLot: real): seq<real> {
    match plan
    case Static => [staticLot]
    case Threshold(_, low, high) => [low, high]
    case Tiers(tiers) => seq(|tiers|, i requires 0 <= i < |tiers| => tiers[i].lot)
  }

  function VariantsOf(b: Broker, c: Costs, o: Outcome, side: Side, lots: seq<real>): (vs: Option<seq<Variant>>)
    ensures vs.Some? ==> |vs.value| == |lots|
  {
    if lots == [] then Some([])
    else
      var n := |lots| - 1;
      match (VariantsOf(b, c, o, side, lots[..n]), Positions(b, c, o, side, lots[n]))
      case (Some(before), Some(ps)) => Some(before + [Variant(lots[n], ps)])
      case _ => None
  }

  function GroupsOf(b: Broker, c: Costs, os: seq<Outcome>, side: Side, lots: seq<real>): (gs: Option<seq<Group>>)
    ensures gs.Some? ==> |gs.value| == |os|
  {
    if os == [] then Some([])
    else
      var n := |os| - 1;
      match (GroupsOf(b, c, os[..n], side, lots), VariantsOf(b, c, os[n], side, lots))
      case (Some(before), Some(vs)) => Some(before + [Group(os[n].openedAt, vs)])
      case _ => None
  }

  function Join(buys: Option<seq<Group>>, sells: Option<seq<Group>>): Option<seq<Group>> {
    if buys.Some? && sells.Some? then Some(buys.value + sells.value) else None
  }

  predicate CostsAllowed(c: Costs) {
    c.roundTripSpread >= 0.0 && c.slippagePerSide >= 0.0 && c.commissionPerLotSide >= 0.0
  }

  /** All groups of both reports; None stands for the ValueErrors on negative costs and on a missing fill time. */
  function AllGroups(b: Broker, c: Costs, plan: LotPlan, buys: seq<Outcome>, sells: seq<Outcome>, buyLot: real,
      sellLot: real): Option<seq<Group>>
  {
    if !CostsAllowed(c) then None
    else Join(GroupsOf(b, c, buys, Buy, Lots(plan, buyLot)), GroupsOf(b, c, sells, Sell, Lots(plan, sellLot)))
  }

  method LoadVariants(b: Broker, c: Costs, o: Outcome, side: Side, lots: seq<real>) returns (vs: Option<seq<Variant>>)
    ensures vs == VariantsOf(b, c, o, side, lots)
  {
    vs := Some([]);
    for n := 0 to |lots|
      invariant vs == VariantsOf(b, c, o, side, lots[..n])
    {
      assert lots[..n + 1][..n] == lots[..n];
      if vs.Some? {
        var ps := Positions(b, c, o, side, lots[n]);
        vs := if ps.Some? then Some(vs.value + [Variant(lots[n], ps.value)]) else None;
      }
    }
    assert lots[..|lots|] == lots;
  }

  method LoadSide(b: Broker, c: Costs, os: seq<Outcome>, side: Side, lots: seq<real>) returns (gs: Option<seq<Group>>)
    ensures gs == GroupsOf(b, c, os, side, lots)
  {
    gs := Some([]);
    for n := 0 to |os|
      invariant gs == GroupsOf(b, c, os[..n], side, lots)
    {
      assert os[..n + 1][..n] == os[..n];
      if gs.Some? {
        var vs := LoadVariants(b, c, os[n], side, lots);
        gs := if vs.Some? then Some(gs.value + [Group(os[n].openedAt, vs.value)]) else None;
      }
    }
    assert os[..|os|] == os;
  }

  method LoadGroups(b: Broker, c: Costs, plan: LotPlan, buys: seq<Outcome>, sells: seq<Outcome>, buyLot: real,
      sellLot: real) returns (groups: Option<seq<Group>>)
    ensures groups == AllGroups(b, c, plan, buys, sells, buyLot, sellLot)
  {
    if !CostsAllowed(c) {
      return None;
    }
    var first := LoadSide(b, c, buys, Buy, Lots(plan, buyLot));
    var second := LoadSide(b, c, sells, Sell, Lots(plan, sellLot));
    return Join(first, second);
  }

  // ---- The volume of a signal ----

  lemma {:induction false} VariantsCarryTheirLots(b: Broker, c: Costs, o: Outcome, side: Side, lots: seq<real>, v: nat)
    requires VariantsOf(b, c, o, side, lots).Some? && v < |lots|
    ensures var vs := VariantsOf(b, c, o, side, lots).value;
            vs[v].lot == lots[v] && Positions(b, c, o, side, lots[v]) == Some(vs[v].positions)
  {
    var n := |lots| - 1;
    if v < n {
      VariantsCarryTheirLots(b, c, o, side, lots[..n], v);
    }
  }

  /** What the balance stands for under each plan: the static lot, low or high by the threshold, the reached tier. */
  ghost predicate IsChosenLot(plan: LotPlan, staticLot: real, balance: real, lot: real)
    requires ValidPlan(plan)
  {
    match plan
    case Static => lot == staticLot
    case Threshold(threshold, low, high) => lot == if balance >= threshold then high else low
    case Tiers(tiers) => exists k :: IsReached(tiers, balance, k) && lot == tiers[k].lot
  }

  /** The highest tier that the balance reaches; the first one needs no reaching. */
  ghost predicate IsReached(tiers: seq<Tier>, balance: real, k: int) {
    && 0 <= k < |tiers| && (k > 0 ==> tiers[k].balance <= balance + TIER_SLACK)
    && (forall j :: k < j < |tiers| ==> tiers[j].balance > balance + TIER_SLACK)
  }

  lemma IndexIsReached(tiers: seq<Tier>, balance: real)
    requires ValidPlan(Tiers(tiers))
    ensures IsReached(tiers, balance, TierIndex(balance, tiers))
  {
    var k := TierIndex(balance, tiers);
    TierIsUnique(balance, tiers, k);
    assert forall j :: k + 1 < j < |tiers| ==> tiers[k + 1].balance < tiers[j].balance;
  }

  lemma IndexIsChosen(plan: LotPlan, staticLot: real, balance: real)
    requires ValidPlan(plan)
    ensures |Lots(plan, staticLot)| == VariantCount(plan)
    ensures IsChosenLot(plan, staticLot, balance, Lots(plan, staticLot)[VariantIndex(plan, balance)])
  {
    if plan.Tiers? {
      IndexIsReached(plan.tiers, balance);
    }
  }

  /** A signal is taken at the volume that the lot plan chooses for the balance at its opening. */
  lemma SignalsTradeTheChosenLot(
      b: Broker, c: Costs, o: Outcome, side: Side, plan: LotPlan, staticLot: real, balance: real)
    requires ValidPlan(plan) && VariantsOf(b, c, o, side, Lots(plan, staticLot)).Some?
    ensures var vs, v := VariantsOf(b, c, o, side, Lots(plan, staticLot)).value, VariantIndex(plan, balance);
            && v < |vs| && IsChosenLot(plan, staticLot, balance, vs[v].lot)
            && Positions(b, c, o, side, vs[v].lot) == Some(vs[v].positions)
  {
    VariantsCarryTheirLots(b, c, o, side, Lots(plan, staticLot), VariantIndex(plan, balance));
    IndexIsChosen(plan, staticLot, balance);
  }

  // ---- What it builds is sound ----

  ghost predicate Tradable(b: Broker, lots: seq<real>) {
    b.contractSize >= 0.0 && b.volumeStep >= 0.0 && forall lot :: lot in lots ==> lot >= 0.0
  }

  /** Positions of one signal: its side and opening time, and costs that are not negative. */
  ghost predicate FromSignal(ps: seq<Position>, side: Side, openedAt: int) {
    DistinctIds(ps) && forall p :: p in ps ==> p.id.side == side && p.id.openedAt == openedAt && Costed(p)
  }

  ghost predicate VariantsFromSignal(vs: seq<Variant>, side: Side, openedAt: int) {
    forall v :: 0 <= v < |vs| ==> FromSignal(vs[v].positions, side, openedAt)
  }

  lemma TimesIsNonnegative(x: real, y: real)
    requires x >= 0.0 && y >= 0.0
    ensures x * y >= 0.0
  {
  }

  lemma CostIsNonnegative(b: Broker, c: Costs, lot: real)
    requires CostsAllowed(c) && b.contractSize >= 0.0 && lot >= 0.0
    ensures EntryCost(b, c, lot) >= 0.0
  {
    TimesIsNonnegative(b.contractSize, lot);
    TimesIsNonnegative(c.roundTripSpread + c.slippagePerSide, b.contractSize * lot);
    TimesIsNonnegative(c.commissionPerLotSide, lot);
  }

  lemma OnStepIsNonnegative(b: Broker, lot: real)
    requires b.volumeStep >= 0.0 && lot >= 0.0
    ensures OnStep(b, lot) >= 0.0
  {
    assert lot / Step(b) >= 0.0;
    TimesIsNonnegative(RoundHalfEven(lot / Step(b)) as real, Step(b));
  }

  lemma LegsAreNonnegative(b: Broker, o: Outcome, lot: real)
    requires b.volumeStep >= 0.0 && lot >= 0.0 && IsSplit(o)
    ensures var lots := SplitLots(b, o, lot); lots.Some? ==> lots.value.0 >= 0.0 && lots.value.1 >= 0.0
  {
    TimesIsNonnegative(lot, o.tp1Fraction);
    TimesIsNonnegative(lot, o.runnerFraction);
    OnStepIsNonnegative(b, Share(lot, o.tp1Fraction));
    OnStepIsNonnegative(b, Share(lot, o.runnerFraction));
  }

  lemma PositionsAreSound(b: Broker, c: Costs, o: Outcome, side: Side, lot: real)
    requires CostsAllowed(c) && b.contractSize >= 0.0 && b.volumeStep >= 0.0 && lot >= 0.0
    ensures var ps := Positions(b, c, o, side, lot); ps.Some? ==> FromSignal(ps.value, side, o.openedAt)
  {
    CostIsNonnegative(b, c, lot);
    if IsSplit(o) && SplitLots(b, o, lot).Some? {
      LegsAreNonnegative(b, o, lot);
      CostIsNonnegative(b, c, SplitLots(b, o, lot).value.0);
      CostIsNonnegative(b, c, SplitLots(b, o, lot).value.1);
    }
  }

  lemma {:induction false} VariantsAreSound(b: Broker, c: Costs, o: Outcome, side: Side, lots: seq<real>)
    requires CostsAllowed(c) && Tradable(b, lots)
    ensures var vs := VariantsOf(b, c, o, side, lots); vs.Some? ==> VariantsFromSignal(vs.value, side, o.openedAt)
  {
    if lots != [] {
      var n := |lots| - 1;
      assert lots[n] in lots && forall lot :: lot in lots[..n] ==> lot in lots;
      VariantsAreSound(b, c, o, side, lots[..n]);
      PositionsAreSound(b, c, o, side, lots[n]);
    }
  }

  /** Groups of one side follow their signals one to one. */
  ghost predicate FromReport(gs: seq<Group>, os: seq<Outcome>, side: Side, volumes: nat) {
    && |gs| == |os|
    && forall i :: 0 <= i < |gs| ==>
         && gs[i].openedAt == os[i].openedAt && |gs[i].variants| == volumes
         && VariantsFromSignal(gs[i].variants, side, os[i].openedAt)
  }

  lemma {:induction false} SideIsSound(b: Broker, c: Costs, os: seq<Outcome>, side: Side, lots: seq<real>)
    requires CostsAllowed(c) && Tradable(b, lots)
    ensures var gs := GroupsOf(b, c, os, side, lots); gs.Some? ==> FromReport(gs.value, os, side, |lots|)
  {
    if os != [] {
      var n := |os| - 1;
      SideIsSound(b, c, os[..n], side, lots);
      VariantsAreSound(b, c, os[n], side, lots);
    }
  }

  ghost predicate OpenInTurn(os: seq<Outcome>) {
    forall i, j :: 0 <= i < j < |os| ==> os[i].openedAt < os[j].openedAt
  }

  lemma OfferedCarriesItsSignal(gs: seq<Group>, os: seq<Outcome>, side: Side, volumes: nat, i: nat, p: Position)
    requires FromReport(gs, os, side, volumes) && i < |gs| && Offers(gs[i], p)
    ensures p.id.side == side && p.id.openedAt == os[i].openedAt
  {
    var v :| 0 <= v < |gs[i].variants| && p in gs[i].variants[v].positions;
    assert FromSignal(gs[i].variants[v].positions, side, os[i].openedAt);
  }

  lemma GroupIsSound(gs: seq<Group>, os: seq<Outcome>, side: Side, volumes: nat, i: nat, v: nat)
    requires FromReport(gs, os, side, volumes) && i < |gs| && v < |gs[i].variants|
    ensures SoundVariant(gs[i], v)
  {
    assert FromSignal(gs[i].variants[v].positions, side, os[i].openedAt);
  }

  /** Reports whose trades open one after the other give groups in which no two positions share an id. */
  lemma JoinedSidesAreSound(
      xs: seq<Group>, ys: seq<Group>, buys: seq<Outcome>, sells: seq<Outcome>, volumes: nat)
    requires FromReport(xs, buys, Buy, volumes) && FromReport(ys, sells, Sell, volumes)
    requires OpenInTurn(buys) && OpenInTurn(sells)
    ensures SoundGroups(xs + ys)
  {
    var gs := xs + ys;
    forall i, v | 0 <= i < |gs| && 0 <= v < |gs[i].variants| ensures SoundVariant(gs[i], v) {
      if i < |xs| {
        GroupIsSound(xs, buys, Buy, volumes, i, v);
      } else {
        GroupIsSound(ys, sells, Sell, volumes, i - |xs|, v);
      }
    }
    forall i, j, p, q | 0 <= i < j < |gs| && Offers(gs[i], p) && Offers(gs[j], q) ensures p.id != q.id {
      if i < |xs| {
        OfferedCarriesItsSignal(xs, buys, Buy, volumes, i, p);
      } else {
        OfferedCarriesItsSignal(ys, sells, Sell, volumes, i - |xs|, p);
      }
      if j < |xs| {
        OfferedCarriesItsSignal(xs, buys, Buy, volumes, j, q);
      } else {
        OfferedCarriesItsSignal(ys, sells, Sell, volumes, j - |xs|, q);
      }
    }
  }

  /** The groups that the loader builds from two one-at-a-time reports are those the account theorems are about. */
  lemma LoadedGroupsAreSound(b: Broker, c: Costs, plan: LotPlan, buys: seq<Outcome>, sells: seq<Outcome>, buyLot: real,
      sellLot: real)
    requires ValidPlan(plan) && OpenInTurn(buys) && OpenInTurn(sells)
    requires Tradable(b, Lots(plan, buyLot)) && Tradable(b, Lots(plan, sellLot))
    ensures var groups := AllGroups(b, c, plan, buys, sells, buyLot, sellLot);
            groups.Some? ==> AllFit(plan, groups.value) && SoundGroups(groups.value)
  {
    var groups := AllGroups(b, c, plan, buys, sells, buyLot, sellLot);
    if groups.Some? {
      SideIsSound(b, c, buys, Buy, Lots(plan, buyLot));
      SideIsSound(b, c, sells, Sell, Lots(plan, sellLot));
      var xs := GroupsOf(b, c, buys, Buy, Lots(plan, buyLot)).value;
      var ys := GroupsOf(b, c, sells, Sell, Lots(plan, sellLot)).value;
      JoinedSidesAreSound(xs, ys, buys, sells, VariantCount(plan));
      forall g | g in groups.value ensures Fits(plan, g) {
        assert g in xs || g in ys;
      }
    }
  }

  // ---- From two replays to a flat account ----

  /** Closes, and fills TP1, strictly after it opened, and records when it filled TP1. */
  ghost predicate SettlesLater(o: Outcome) {
    && o.openedAt < o.closedAt && (o.tp1Taken ==> o.tp1TakenAt.Some?)
    && (o.tp1TakenAt.Some? ==> o.openedAt < o.tp1TakenAt.value)
  }

  ghost predicate VariantsSettle(vs: seq<Variant>) {
    forall v, p :: 0 <= v < |vs| && p in vs[v].positions ==> Settles(p)
  }

  lemma PositionsSettle(b: Broker, c: Costs, o: Outcome, side: Side, lot: real)
    requires SettlesLater(o)
    ensures var ps := Positions(b, c, o, side, lot); ps.Some? && forall p :: p in ps.value ==> Settles(p)
  {
  }

  lemma {:induction false} VolumesSettle(b: Broker, c: Costs, o: Outcome, side: Side, lots: seq<real>)
    requires SettlesLater(o)
    ensures var vs := VariantsOf(b, c, o, side, lots); vs.Some? && VariantsSettle(vs.value)
  {
    if lots != [] {
      var n := |lots| - 1;
      VolumesSettle(b, c, o, side, lots[..n]);
      PositionsSettle(b, c, o, side, lots[n]);
    }
  }

  lemma {:induction false} SideSettles(b: Broker, c: Costs, os: seq<Outcome>, side: Side, lots: seq<real>)
    requires forall o :: o in os ==> SettlesLater(o)
    ensures var gs := GroupsOf(b, c, os, side, lots);
            gs.Some? && forall i :: 0 <= i < |gs.value| ==> VariantsSettle(gs.value[i].variants)
  {
    if os != [] {
      var n := |os| - 1;
      assert os[n] in os && forall o :: o in os[..n] ==> o in os;
      SideSettles(b, c, os[..n], side, lots);
      VolumesSettle(b, c, os[n], side, lots);
    }
  }

  /** Reports of trades that close after they open load without error, and every position settles at every volume. */
  lemma LoadedGroupsSettle(b: Broker, c: Costs, plan: LotPlan, buys: seq<Outcome>, sells: seq<Outcome>, buyLot: real,
      sellLot: real)
    requires CostsAllowed(c) && forall o :: o in buys || o in sells ==> SettlesLater(o)
    ensures var groups := AllGroups(b, c, plan, buys, sells, buyLot, sellLot); groups.Some? && AllSettle(groups.value)
  {
    SideSettles(b, c, buys, Buy, Lots(plan, buyLot));
    SideSettles(b, c, sells, Sell, Lots(plan, sellLot));
    var groups := AllGroups(b, c, plan, buys, sells, buyLot, sellLot).value;
    forall g, p | g in groups && Offers(g, p) ensures Settles(p) {
      assert VariantsSettle(g.variants);
    }
  }

  /** The items of a dual replay's report. */
  function Items(es: seq<DualTp.Executed>): (os: seq<Outcome>)
    requires forall e :: e in es ==> DualTp.Valid(e.plan)
    ensures |os| == |es| && forall i :: 0 <= i < |es| ==> os[i] == Report(es[i])
  {
    if es == [] then [] else Items(es[..|es| - 1]) + [Report(es[|es| - 1])]
  }

  /** What a dual replay reports: tradable plans, one trade after the other, each closing after it opened. */
  ghost predicate Replayed(es: seq<DualTp.Executed>) {
    && (forall e :: e in es ==> DualTp.Valid(e.plan) && Theorems.ClosesAfterOpening(e))
    && (forall i, j :: 0 <= i < j < |es| ==> DualTp.OpenedAt(es[i]) < DualTp.OpenedAt(es[j]))
  }

  /** One dual replay of a report. */
  datatype Replay = Replay(
    policy: DualTp.Policy, riskAtrLimit: real, bars: seq<Bar>, start: int, end: int, signals: seq<DualTp.Signal>)

  function TradesOf(r: Replay, side: Side): seq<DualTp.Executed> {
    Run(r.start, r.signals, DualTp.Opening, DualTp.Attempter(r.policy, side, r.riskAtrLimit, r.bars, r.end),
      DualTp.Closed).executed
  }

  /** Bars and signals in order of time, and no signal after the end of the report. */
  ghost predicate IsOrderly(r: Replay) {
    Ordered(r.bars) && InOrder(r.signals, DualTp.Opening) && Theorems.OpenBefore(r.signals, r.end)
  }

  lemma ReportsAreReplayed(r: Replay, side: Side)
    requires IsOrderly(r)
    ensures Replayed(TradesOf(r, side))
  {
    Theorems.ReportClosesAfterOpening(r.policy, side, r.riskAtrLimit, r.bars, r.start, r.end, r.signals);
    Theorems.ReportClosesInOrder(r.policy, side, r.riskAtrLimit, r.bars, r.start, r.end, r.signals);
  }

  lemma ItemsSettle(es: seq<DualTp.Executed>)
    requires Replayed(es)
    ensures OpenInTurn(Items(es)) && forall o :: o in Items(es) ==> SettlesLater(o)
  {
    var os := Items(es);
    forall o | o in os ensures SettlesLater(o) {
      var i :| 0 <= i < |os| && os[i] == o;
      assert es[i] in es && Theorems.ClosesAfterOpening(es[i]);
    }
  }

  /** Replayed reports load without error, and a run in which every event is handled earns all they offer. */
  lemma CombinedReplaysEarnInFull(b: Broker, c: Costs, plan: LotPlan, buys: seq<DualTp.Executed>,
      sells: seq<DualTp.Executed>, buyLot: real, sellLot: real, start: real)
    requires ValidPlan(plan) && CostsAllowed(c) && Replayed(buys) && Replayed(sells)
    requires Tradable(b, Lots(plan, buyLot)) && Tradable(b, Lots(plan, sellLot))
    ensures var groups := AllGroups(b, c, plan, Items(buys), Items(sells), buyLot, sellLot);
            && groups.Some? && AllFit(plan, groups.value) && SoundGroups(groups.value) && AllSettle(groups.value)
            && EarnedInFull(HandleAll(plan, groups.value, Opening(start), EventTimes(groups.value)), start)
  {
    ItemsSettle(buys);
    ItemsSettle(sells);
    LoadedGroupsSettle(b, c, plan, Items(buys), Items(sells), buyLot, sellLot);
    LoadedGroupsAreSound(b, c, plan, Items(buys), Items(sells), buyLot, sellLot);
    SettledInputsEndFlat(plan, AllGroups(b, c, plan, Items(buys), Items(sells), buyLot, sellLot).value, start);
  }

  /**
   * From recorded signals to a flat account: whatever policies replay a BUY and a SELL report, the two results load
   * without error, and when every event is handled the account is flat and has earned the profit of every position
   * it took, under every lot plan and whatever entries were refused.
   */
  lemma TwoReplaysEarnInFull(b: Broker, c: Costs, plan: LotPlan, buys: Replay, sells: Replay, buyLot: real,
      sellLot: real, start: real)
    requires ValidPlan(plan) && CostsAllowed(c) && IsOrderly(buys) && IsOrderly(sells)
    requires Tradable(b, Lots(plan, buyLot)) && Tradable(b, Lots(plan, sellLot))
    ensures Replayed(TradesOf(buys, Buy)) && Replayed(TradesOf(sells, Sell))
    ensures var groups :=
              AllGroups(b, c, plan, Items(TradesOf(buys, Buy)), Items(TradesOf(sells, Sell)), buyLot, sellLot);
            && groups.Some? && AllFit(plan, groups.value) && SoundGroups(groups.value) && AllSettle(groups.value)
            && EarnedInFull(HandleAll(plan, groups.value, Opening(start), EventTimes(groups.value)), start)
  {
    ReportsAreReplayed(buys, Buy);
    ReportsAreReplayed(sells, Sell);
    CombinedReplaysEarnInFull(b, c, plan, TradesOf(buys, Buy), TradesOf(sells, Sell), buyLot, sellLot, start);
  }
}
