/** Grouping of events into trades: a partition, conserved totals, and exactly when it is the right partition. */
module TradeLedgerTheorems {
  import opened Prelude
  import opened Sorting
  import opened TradeLedger
  import opened Present

  // ---- Every event lands in exactly one ledger ----

  /** The events that landed under `key`, in order. */
  function Members(events: seq<Event>, landed: seq<string>, key: string): seq<Event>
    requires |landed| == |events|
  {
    if events == [] then []
    else
      var n := |events| - 1;
      var before := Members(events[..n], landed[..n], key);
      if landed[n] == key then before + [events[n]] else before
  }

  /** The bookkeeping of a state that was built from `events`. */
  ghost predicate Partitions(s: State, events: seq<Event>) {
    && |s.landed| == |events|
    && NoRepeats(s.order)
    && (forall k :: k in s.order <==> k in s.trades)
    && (forall k :: k in s.trades <==> k in s.landed)
    && (forall k :: k in s.trades ==> s.trades[k].key == k && s.trades[k].ledger == Members(events, s.landed, k))
    && (forall a :: a in s.aliases ==> s.aliases[a] in s.trades)
  }

  lemma NobodyLandedThere(events: seq<Event>, landed: seq<string>, key: string)
    requires |landed| == |events| && key !in landed
    ensures Members(events, landed, key) == []
  {
    if events != [] {
      var n := |events| - 1;
      assert landed[n] in landed;
      NobodyLandedThere(events[..n], landed[..n], key);
    }
  }

  lemma MembersAppend(events: seq<Event>, landed: seq<string>, e: Event, at: string, key: string)
    requires |landed| == |events|
    ensures Members(events + [e], landed + [at], key)
         == if at == key then Members(events, landed, key) + [e] else Members(events, landed, key)
  {
    assert (events + [e])[..|events|] == events && (landed + [at])[..|landed|] == landed;
  }

  lemma FindsARegisteredKey(aliases: map<string, string>, candidates: seq<string>)
    ensures var found := FindTradeKey(aliases, candidates);
            && (found.None? <==> forall a :: a in candidates ==> a !in aliases)
            && (found.Some? ==> exists a :: a in candidates && a in aliases && aliases[a] == found.value)
  {
    if candidates != [] {
      FindsARegisteredKey(aliases, candidates[1..]);
      assert candidates == [candidates[0]] + candidates[1..];
    }
  }

  lemma {:induction false} RegisteredAliases(aliases: map<string, string>, key: string, names: seq<string>)
    ensures var r := RegisterAliases(aliases, key, names);
            forall a :: (a in r <==> a in aliases || a in names)
              && (a in r ==> r[a] == if a in names then key else aliases[a])
  {
    if names != [] {
      var n := |names| - 1;
      RegisteredAliases(aliases, key, names[..n]);
      assert names == names[..n] + [names[n]];
    }
  }

  lemma StepPartitions(s: State, events: seq<Event>, e: Event)
    requires Partitions(s, events)
    ensures Partitions(Step(s, e), events + [e])
  {
    StepKeepsKeys(s, events, e);
    var t, key := Step(s, e), KeyFor(s, e);
    forall k | k in t.trades ensures t.trades[k].key == k && t.trades[k].ledger == Members(events + [e], t.landed, k) {
      MembersAppend(events, s.landed, e, key, k);
      if k == key && key !in s.trades {
        NobodyLandedThere(events, s.landed, key);
      }
    }
  }

  lemma StepKeepsKeys(s: State, events: seq<Event>, e: Event)
    requires Partitions(s, events)
    ensures var t := Step(s, e);
            && NoRepeats(t.order)
            && (forall k :: k in t.order <==> k in t.trades)
            && (forall k :: k in t.trades <==> k in t.landed)
            && (forall a :: a in t.aliases ==> t.aliases[a] in t.trades)
  {
    KeysStay(s, Step(s, e), KeyFor(s, e), Merge(Touched(s, e), e), Aliases(e));
  }

  lemma KeysStay(s: State, t: State, key: string, trade: Trade, names: seq<string>)
    requires NoRepeats(s.order) && (forall k :: k in s.order <==> k in s.trades)
      && (forall k :: k in s.trades <==> k in s.landed)
    requires forall a :: a in s.aliases ==> s.aliases[a] in s.trades
    requires t.trades == s.trades[key := trade] && t.order == (if key in s.trades then s.order else s.order + [key])
    requires t.aliases == RegisterAliases(s.aliases, key, names) && t.landed == s.landed + [key]
    ensures NoRepeats(t.order) && (forall k :: k in t.order <==> k in t.trades)
      && (forall k :: k in t.trades <==> k in t.landed)
    ensures forall a :: a in t.aliases ==> t.aliases[a] in t.trades
  {
    RegisteredAliases(s.aliases, key, names);
    forall k ensures k in t.trades <==> k in t.landed {
      assert k in t.landed <==> k in s.landed || k == key;
    }
  }

  /** Each row lands in exactly one trade, ledgers keep its order, and every alias names an existing trade. */
  lemma {:induction false} LedgersPartitionTheEvents(events: seq<Event>)
    ensures Partitions(Build(events), events)
  {
    if events != [] {
      var n := |events| - 1;
      LedgersPartitionTheEvents(events[..n]);
      StepPartitions(Build(events[..n]), events[..n], events[n]);
      Snoc(events);
    }
  }

  // ---- Totals ----

  function CommissionOf(e: Event): real { if e.Position? then Cash(e.p.commission) else 0.0 }
  function SwapOf(e: Event): real { if e.Position? then Cash(e.p.swap) else 0.0 }
  function TradeCommission(t: Trade): real { Cash(t.commission) }
  function TradeSwap(t: Trade): real { Cash(t.swap) }

  /** The trades in order of creation. */
  function TradesOf(s: State): seq<Trade>
    requires forall k :: k in s.order ==> k in s.trades
  {
    seq(|s.order|, i requires 0 <= i < |s.order| => s.trades[s.order[i]])
  }

  lemma MergeAddsItsCash(t: Trade, e: Event)
    ensures TradeCommission(Merge(t, e)) == TradeCommission(t) + CommissionOf(e)
    ensures TradeSwap(Merge(t, e)) == TradeSwap(t) + SwapOf(e)
  {
  }

  lemma ReplaceAddsToTheSum(xs: seq<Trade>, k: nat, t: Trade, f: Trade -> real, extra: real)
    requires k < |xs| && f(t) == f(xs[k]) + extra
    ensures SumBy(xs[k := t], f) == SumBy(xs, f) + extra
  {
    var ys := xs[k := t];
    SumByRemove(xs, k, f);
    SumByRemove(ys, k, f);
    assert ys[..k] + ys[k + 1..] == xs[..k] + xs[k + 1..];
  }

  /** A step replaces one trade or appends a new one. */
  lemma TradesAfterStep(s: State, e: Event)
    requires (forall k :: k in s.order <==> k in s.trades) && NoRepeats(s.order)
    ensures var t, key := Step(s, e), KeyFor(s, e);
            && (forall k :: k in t.order ==> k in t.trades)
            && (key !in s.trades ==> TradesOf(t) == TradesOf(s) + [t.trades[key]])
            && (key in s.trades ==>
                  exists k :: 0 <= k < |s.order| && s.order[k] == key && TradesOf(t) == TradesOf(s)[k := t.trades[key]])
  {
    var t, key := Step(s, e), KeyFor(s, e);
    if key in s.trades {
      var k :| 0 <= k < |s.order| && s.order[k] == key;
      assert TradesOf(t) == TradesOf(s)[k := t.trades[key]];
    }
  }

  function Touched(s: State, e: Event): Trade {
    var key := KeyFor(s, e);
    if key in s.trades then s.trades[key] else NewTrade(key)
  }

  /** A step changes the total of any figure that merging adds up by exactly the event's share. */
  lemma StepAddsItsShare(s: State, e: Event, f: Trade -> real, extra: real)
    requires (forall k :: k in s.order <==> k in s.trades) && NoRepeats(s.order)
    requires f(Merge(Touched(s, e), e)) == f(Touched(s, e)) + extra && f(NewTrade(KeyFor(s, e))) == 0.0
    ensures forall k :: k in Step(s, e).order ==> k in Step(s, e).trades
    ensures SumBy(TradesOf(Step(s, e)), f) == SumBy(TradesOf(s), f) + extra
  {
    TradesAfterStep(s, e);
    var t, key := Step(s, e), KeyFor(s, e);
    if key in s.trades {
      var k :| 0 <= k < |s.order| && s.order[k] == key && TradesOf(t) == TradesOf(s)[k := t.trades[key]];
      ReplaceAddsToTheSum(TradesOf(s), k, t.trades[key], f, extra);
    } else {
      SumByAppend(TradesOf(s), t.trades[key], f);
    }
  }

  /** Commission and swap of all trades add up to those of all position events. */
  lemma {:induction false} CashIsConserved(events: seq<Event>)
    ensures forall k :: k in Build(events).order ==> k in Build(events).trades
    ensures SumBy(TradesOf(Build(events)), TradeCommission) == SumBy(events, CommissionOf)
    ensures SumBy(TradesOf(Build(events)), TradeSwap) == SumBy(events, SwapOf)
  {
    if events != [] {
      var n := |events| - 1;
      CashIsConserved(events[..n]);
      StepConservesCash(Build(events[..n]), events[..n], events[n]);
    }
  }

  lemma StepConservesCash(s: State, events: seq<Event>, e: Event)
    requires s == Build(events)
    ensures (forall k :: k in s.order ==> k in s.trades)
      && (forall k :: k in Step(s, e).order ==> k in Step(s, e).trades)
    ensures SumBy(TradesOf(Step(s, e)), TradeCommission) == SumBy(TradesOf(s), TradeCommission) + CommissionOf(e)
    ensures SumBy(TradesOf(Step(s, e)), TradeSwap) == SumBy(TradesOf(s), TradeSwap) + SwapOf(e)
  {
    LedgersPartitionTheEvents(events);
    MergeAddsItsCash(Touched(s, e), e);
    StepAddsItsShare(s, e, TradeCommission, CommissionOf(e));
    StepAddsItsShare(s, e, TradeSwap, SwapOf(e));
  }

  // ---- What a trade row says about its ledger ----

  function PnlOf(e: Event): Option<real> { if e.Position? then e.p.realizedPnl else None }
  function ExitOf(e: Event): Option<real> { if e.Position? then e.p.exitPrice else None }
  function VolumeOf(e: Event): Option<real> { if e.Position? then e.p.volume else e.x.volume }

  predicate Closes(e: Event) { e.Position? && IsClosing(e.p) }

  ghost predicate HoldsAClose(ledger: seq<Event>) {
    exists e :: e in ledger && Closes(e)
  }

  ghost predicate ClosesAreTimed(ledger: seq<Event>) {
    forall e :: e in ledger && Closes(e) ==> EventAt(e).Some?
  }

  /** A row is its ledger in brief: last profit, exit and volume, total costs, and whether an event closed it. */
  ghost predicate Summarizes(t: Trade) {
    && t.realizedPnl == Last(t.ledger, PnlOf)
    && t.exitPrice == Last(t.ledger, ExitOf)
    && t.volume == Last(t.ledger, VolumeOf)
    && TradeCommission(t) == SumBy(t.ledger, CommissionOf)
    && TradeSwap(t) == SumBy(t.ledger, SwapOf)
    && (IsTradeClosed(t) ==> HoldsAClose(t.ledger))
    && (HoldsAClose(t.ledger) && ClosesAreTimed(t.ledger) ==> t.closedAt.Some?)
  }

  lemma MergeSummarizes(t: Trade, e: Event)
    requires Summarizes(t)
    ensures Summarizes(Merge(t, e))
  {
    var m := Merge(t, e);
    assert m.ledger == t.ledger + [e];
    LastAppend(t.ledger, e, PnlOf);
    LastAppend(t.ledger, e, ExitOf);
    LastAppend(t.ledger, e, VolumeOf);
    LastFigures(t, e);
    SumByAppend(t.ledger, e, CommissionOf);
    SumByAppend(t.ledger, e, SwapOf);
    MergeAddsItsCash(t, e);
    MergeFollowsCloses(t, e);
  }

  lemma LastFigures(t: Trade, e: Event)
    ensures Merge(t, e).realizedPnl == Or(PnlOf(e), t.realizedPnl)
    ensures Merge(t, e).exitPrice == Or(ExitOf(e), t.exitPrice)
    ensures Merge(t, e).volume == Or(VolumeOf(e), t.volume)
  {
  }

  lemma MergeFollowsCloses(t: Trade, e: Event)
    requires IsTradeClosed(t) ==> HoldsAClose(t.ledger)
    requires HoldsAClose(t.ledger) && ClosesAreTimed(t.ledger) ==> t.closedAt.Some?
    ensures var m := Merge(t, e);
            && (IsTradeClosed(m) ==> HoldsAClose(m.ledger))
            && (HoldsAClose(m.ledger) && ClosesAreTimed(m.ledger) ==> m.closedAt.Some?)
  {
    var m := Merge(t, e);
    assert m.ledger == t.ledger + [e];
    assert e in m.ledger && forall c :: c in t.ledger ==> c in m.ledger;
    if HoldsAClose(t.ledger) {
      var c :| c in t.ledger && Closes(c);
      assert c in m.ledger;
    }
  }

  lemma {:induction false} RowsSummarizeTheirLedgers(events: seq<Event>)
    ensures forall k :: k in Build(events).trades ==> Summarizes(Build(events).trades[k])
  {
    if events != [] {
      var n := |events| - 1;
      RowsSummarizeTheirLedgers(events[..n]);
      var s, e := Build(events[..n]), events[n];
      var key := KeyFor(s, e);
      MergeSummarizes(if key in s.trades then s.trades[key] else NewTrade(key), e);
    }
  }

  /** With closing times present, a reported row is closed exactly when its ledger holds a closing event. */
  lemma ReportedStatusIsTheLedgers(events: seq<Event>, key: string)
    requires key in Build(events).trades && ClosesAreTimed(events)
    ensures var row := Sorted(Build(events).trades[key]); row.lifecycleClosed <==> HoldsAClose(row.ledger)
  {
    var t := Build(events).trades[key];
    RowsSummarizeTheirLedgers(events);
    LedgersPartitionTheEvents(events);
    MembersAreEvents(events, Build(events).landed, key);
    SortMembers(t.ledger, LedgerOrder);
    assert HoldsAClose(Sorted(t).ledger) <==> HoldsAClose(t.ledger);
  }

  lemma {:induction false} MembersAreEvents(events: seq<Event>, landed: seq<string>, key: string)
    requires |landed| == |events|
    ensures forall e :: e in Members(events, landed, key) ==> e in events
  {
    if events != [] {
      MembersAreEvents(events[..|events| - 1], landed[..|events| - 1], key);
      Snoc(events);
    }
  }
}
