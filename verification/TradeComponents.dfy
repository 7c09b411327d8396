/** When the greedy grouping is the right one: exactly when no event joins two trades that were already apart. */
module TradeComponents {
  import opened Prelude
  import opened Sorting
  import opened TradeLedger
  import opened TradeLedgerTheorems

  /** What the grouping sees of an event: its aliases, and the key it would get without any. */
  datatype Item = Item(names: seq<string>, fallback: string)

  function ItemOf(e: Event): Item {
    Item(Aliases(e), FallbackKey(e))
  }

  function ItemsOf(events: seq<Event>): seq<Item> {
    seq(|events|, i requires 0 <= i < |events| => ItemOf(events[i]))
  }

  function Own(item: Item): string {
    if item.names == [] then item.fallback else item.names[0]
  }

  ghost predicate Linked(items: seq<Item>, i: nat, j: nat) {
    i < |items| && j < |items| && exists a :: a in items[i].names && a in items[j].names
  }

  ghost predicate IsPath(items: seq<Item>, p: seq<nat>) {
    && p != [] && (forall m :: 0 <= m < |p| ==> p[m] < |items|)
    && (forall k, m :: 0 <= k < m < |p| && m == k + 1 ==> Linked(items, p[k], p[m]))
  }

  ghost predicate PathFromTo(items: seq<Item>, p: seq<nat>, i: nat, j: nat) {
    IsPath(items, p) && p[0] == i && p[|p| - 1] == j
  }

  /** Reachable through items that pairwise share an alias. */
  ghost predicate Connected(items: seq<Item>, i: nat, j: nat) {
    exists p :: PathFromTo(items, p, i, j)
  }

  /** The alias map after the first `n` items; it alone decides where an event lands. */
  ghost function Known(items: seq<Item>, n: nat): map<string, string>
    requires n <= |items|
  {
    if n == 0 then map[]
    else RegisterAliases(Known(items, n - 1), KeyIn(Known(items, n - 1), items[n - 1]), items[n - 1].names)
  }

  ghost function KeyIn(aliases: map<string, string>, e: Item): string {
    match FindTradeKey(aliases, e.names)
    case Some(key) => key
    case None => Own(e)
  }

  ghost function Landed(items: seq<Item>, i: nat): string
    requires i < |items|
  {
    KeyIn(Known(items, i), items[i])
  }

  /** The aliases of an event that are already known all name the same trade. */
  ghost predicate Agrees(aliases: map<string, string>, e: Item) {
    forall a, b :: a in e.names && b in e.names && a in aliases && b in aliases ==> aliases[a] == aliases[b]
  }

  ghost predicate NoConflict(items: seq<Item>) {
    forall n :: 0 <= n < |items| ==> Agrees(Known(items, n), items[n])
  }

  /** Row ids are unique, and no ticket is spelled like a fallback key. */
  ghost predicate FallbacksAreFresh(items: seq<Item>) {
    forall i, j :: 0 <= i < |items| && 0 <= j < |items| && i != j && items[i].names == [] ==>
      items[i].fallback !in items[j].names && items[i].fallback != Own(items[j])
  }

  ghost predicate Registers(s: map<string, string>, r: map<string, string>, key: string, names: seq<string>) {
    forall a :: (a in r <==> a in s || a in names) && (a in r ==> r[a] == if a in names then key else s[a])
  }

  /** One more event registers its aliases under the key it lands in. */
  lemma KnownNext(items: seq<Item>, n: nat)
    requires n < |items|
    ensures Registers(Known(items, n), Known(items, n + 1), Landed(items, n), items[n].names)
  {
    RegisteredAliases(Known(items, n), Landed(items, n), items[n].names);
  }

  lemma {:induction false} KnownIsAPrefixProperty(items: seq<Item>, m: nat, n: nat)
    requires n <= m <= |items|
    ensures Known(items[..m], n) == Known(items, n)
  {
    if n > 0 {
      KnownIsAPrefixProperty(items, m, n - 1);
    }
  }

  // ---- Where aliases and keys come from ----

  /** Event `i` carries the alias and landed where the alias points. */
  ghost predicate Names(items: seq<Item>, i: nat, a: string, key: string) {
    i < |items| && a in items[i].names && Landed(items, i) == key
  }

  lemma {:induction false} AliasesHaveCarriers(items: seq<Item>, n: nat, a: string) returns (i: nat)
    requires n <= |items| && a in Known(items, n)
    ensures i < n && Names(items, i, a, Known(items, n)[a])
  {
    KnownNext(items, n - 1);
    if a in items[n - 1].names {
      i := n - 1;
    } else {
      i := AliasesHaveCarriers(items, n - 1, a);
    }
  }

  /** A key is known as an alias or is the fallback of the event that created it. */
  lemma {:induction false} KeysHaveOrigins(items: seq<Item>, i: nat)
    requires i < |items|
    ensures Landed(items, i) in Known(items, i + 1)
         || (exists o :: 0 <= o <= i && items[o].names == [] && items[o].fallback == Landed(items, i))
    decreases i
  {
    var s, e := Known(items, i), items[i];
    KnownNext(items, i);
    FindsARegisteredKey(s, e.names);
    if FindTradeKey(s, e.names).Some? {
      var a :| a in e.names && a in s && s[a] == Landed(items, i);
      var o := AliasesHaveCarriers(items, i, a);
      KeysHaveOrigins(items, o);
      if Landed(items, i) in Known(items, o + 1) {
        StaysKnown(items, o + 1, i + 1, Landed(items, i));
      }
    } else if e.names == [] {
      assert e.fallback == Landed(items, i);
    }
  }

  lemma {:induction false} StaysKnown(items: seq<Item>, m: nat, n: nat, a: string)
    requires m <= n <= |items| && a in Known(items, m)
    ensures a in Known(items, n)
    decreases n
  {
    if m < n {
      StaysKnown(items, m, n - 1, a);
      KnownNext(items, n - 1);
    }
  }

  /** An event that finds no known alias opens a trade that no earlier event is in. */
  lemma UnmatchedEventsOpenNewTrades(items: seq<Item>, i: nat, j: nat)
    requires FallbacksAreFresh(items) && j < i < |items|
    requires FindTradeKey(Known(items, i), items[i].names).None?
    ensures Landed(items, j) != Landed(items, i)
  {
    FindsARegisteredKey(Known(items, i), items[i].names);
    if Landed(items, j) == Own(items[i]) {
      NoEarlierFallback(items, i, Own(items[i]));
      EarlierKeyIsKnown(items, j, j + 1, i, Own(items[i]));
      KnownKeyIsCarried(items, i, Own(items[i]));
    }
  }

  lemma EarlierKeyIsKnown(items: seq<Item>, j: nat, n: nat, i: nat, key: string)
    requires n == j + 1 <= i < |items| && Landed(items, j) == key
    requires forall o :: 0 <= o < i && items[o].names == [] ==> items[o].fallback != key
    ensures key in Known(items, i)
  {
    KeysHaveOrigins(items, j);
    StaysKnown(items, n, i, key);
  }

  lemma NoEarlierFallback(items: seq<Item>, i: nat, key: string)
    requires FallbacksAreFresh(items) && i < |items| && key == Own(items[i])
    ensures forall o :: 0 <= o < i && items[o].names == [] ==> items[o].fallback != key
  {
  }

  lemma KnownKeyIsCarried(items: seq<Item>, i: nat, key: string)
    requires FallbacksAreFresh(items) && i < |items| && key in Known(items, i)
    ensures items[i].names == [] ==> key != items[i].fallback
  {
    var o := AliasesHaveCarriers(items, i, key);
  }

  // ---- Paths ----

  lemma SelfPath(items: seq<Item>, i: nat)
    requires i < |items|
    ensures Connected(items, i, i)
  {
    assert PathFromTo(items, [i], i, i);
  }

  lemma ExtendPath(items: seq<Item>, i: nat, j: nat, k: nat)
    requires Connected(items, i, j) && Linked(items, j, k)
    ensures Connected(items, i, k)
  {
    var p :| PathFromTo(items, p, i, j);
    var q := p + [k];
    forall k, m | 0 <= k < m < |q| && m == k + 1 ensures Linked(items, q[k], q[m]) {
      assert m < |p| ==> q[k] == p[k] && q[m] == p[m];
    }
    assert PathFromTo(items, q, i, k);
  }

  lemma PrependPath(items: seq<Item>, i: nat, j: nat, k: nat)
    requires Linked(items, i, j) && Connected(items, j, k)
    ensures Connected(items, i, k)
  {
    var p :| PathFromTo(items, p, j, k);
    var q := [i] + p;
    forall k, m | 0 <= k < m < |q| && m == k + 1 ensures Linked(items, q[k], q[m]) {
      assert q[m] == p[k] && (k > 0 ==> q[k] == p[k - 1]);
    }
    assert PathFromTo(items, q, i, k);
  }

  lemma LinkConnects(items: seq<Item>, i: nat, j: nat)
    requires Linked(items, i, j)
    ensures Connected(items, i, j)
  {
    SelfPath(items, i);
    ExtendPath(items, i, i, j);
  }

  // ---- Events of one trade are connected ----

  lemma {:induction false} OneTradeIsConnected(items: seq<Item>, i: nat, j: nat)
    requires FallbacksAreFresh(items) && i < |items| && j < |items| && Landed(items, i) == Landed(items, j)
    ensures Connected(items, i, j)
    decreases i + j
  {
    if i == j {
      SelfPath(items, i);
    } else {
      var n, m := if i > j then i else j, if i > j then j else i;
      var s, e := Known(items, n), items[n];
      FindsARegisteredKey(s, e.names);
      if FindTradeKey(s, e.names).None? {
        UnmatchedEventsOpenNewTrades(items, n, m);
      } else {
        var a :| a in e.names && a in s && s[a] == Landed(items, n);
        var o := AliasesHaveCarriers(items, n, a);
        if n == i {
          OneTradeIsConnected(items, o, j);
          PrependPath(items, i, o, j);
        } else {
          OneTradeIsConnected(items, i, o);
          ExtendPath(items, i, o, j);
        }
      }
    }
  }

  // ---- Without conflicts, connected items share a trade ----

  lemma AgreementKeepsAliases(s: map<string, string>, r: map<string, string>, item: Item, a: string)
    requires Agrees(s, item) && Registers(s, r, KeyIn(s, item), item.names) && a in s
    ensures a in r && r[a] == s[a]
  {
    FindsARegisteredKey(s, item.names);
  }

  lemma AliasStays(items: seq<Item>, m: nat, n: nat, a: string)
    requires NoConflict(items) && n == m + 1 <= |items| && a in Known(items, m)
    ensures a in Known(items, n) && Known(items, n)[a] == Known(items, m)[a]
  {
    KnownNext(items, m);
    AgreementKeepsAliases(Known(items, m), Known(items, n), items[m], a);
  }

  lemma CarrierRegisters(items: seq<Item>, i: nat, n: nat, a: string)
    requires n == i + 1 <= |items| && a in items[i].names
    ensures a in Known(items, n) && Known(items, n)[a] == Landed(items, i)
  {
    KnownNext(items, i);
  }

  lemma {:induction false} AliasesNeverMove(items: seq<Item>, m: nat, n: nat, a: string)
    requires NoConflict(items) && m <= n <= |items| && a in Known(items, m)
    ensures a in Known(items, n) && Known(items, n)[a] == Known(items, m)[a]
    decreases n
  {
    if m < n {
      var k: nat := n - 1;
      AliasesNeverMove(items, m, k, a);
      AliasStays(items, k, n, a);
    }
  }

  /** Without conflicts, an alias ends up naming the trade that any of its carriers landed in. */
  lemma CarriedAliasIsFinal(items: seq<Item>, i: nat, a: string)
    requires NoConflict(items) && i < |items| && a in items[i].names
    ensures a in Known(items, |items|) && Known(items, |items|)[a] == Landed(items, i)
  {
    var n: nat := i + 1;
    CarrierRegisters(items, i, n, a);
    AliasesNeverMove(items, n, |items|, a);
  }

  lemma LinkedEventsShareATrade(items: seq<Item>, i: nat, j: nat)
    requires NoConflict(items) && Linked(items, i, j)
    ensures Landed(items, i) == Landed(items, j)
  {
    var a :| a in items[i].names && a in items[j].names;
    CarriedAliasIsFinal(items, i, a);
    CarriedAliasIsFinal(items, j, a);
  }

  lemma {:induction false} PathStaysInOneTrade(items: seq<Item>, p: seq<nat>, m: nat)
    requires forall i, j :: Linked(items, i, j) ==> Landed(items, i) == Landed(items, j)
    requires IsPath(items, p) && m < |p|
    ensures Landed(items, p[0]) == Landed(items, p[m])
  {
    if m > 0 {
      PathStaysInOneTrade(items, p, m - 1);
      var i, j := p[m - 1], p[m];
      assert Linked(items, i, j);
    }
  }

  /** The trades are the connected components of the shared-alias relation. */
  ghost predicate GroupsAreComponents(items: seq<Item>) {
    forall i, j :: 0 <= i < |items| && 0 <= j < |items| ==>
      (Landed(items, i) == Landed(items, j) <==> Connected(items, i, j))
  }

  /** A conflicting event connects two trades that stay apart. */
  lemma ConflictSplitsAComponent(items: seq<Item>, n: nat, a: string, b: string)
    requires n < |items| && a in items[n].names && b in items[n].names
    requires a in Known(items, n) && b in Known(items, n) && Known(items, n)[a] != Known(items, n)[b]
    ensures !GroupsAreComponents(items)
  {
    var i := AliasesHaveCarriers(items, n, a);
    var j := AliasesHaveCarriers(items, n, b);
    assert Linked(items, i, n) && Linked(items, n, j);
    LinkConnects(items, i, n);
    ExtendPath(items, i, n, j);
  }

  function Filled(id: nat, orderTicket: Option<string>, dealTicket: Option<string>): Event {
    Execution(ExecutionRow(id, orderTicket, dealTicket, None, None, None, None, None))
  }

  /**
   * The failing input: the first row knows one ticket, the second another, and the third carries both. It joins the
   * trade of the first, and the second is left apart although a shared ticket connects all three.
   */
  lemma TwoTicketsSplitATrade() returns (events: seq<Event>)
    ensures |events| == |Build(events).landed| == 3 && FallbacksAreFresh(ItemsOf(events))
    ensures Build(events).landed[0] != Build(events).landed[1] && Connected(ItemsOf(events), 0, 1)
  {
    var x, y, z := Filled(1, Some("a"), None), Filled(2, Some("b"), None), Filled(3, Some("a"), Some("b"));
    events := [x, y, z];
    FilledNames(1, "a", None);
    FilledNames(2, "b", None);
    FilledNames(3, "a", Some("b"));
    FirstTwoLand(ItemsOf(events));
    ThirdConnects(ItemsOf(events));
    BuilderFollowsTheAliases(events);
  }

  lemma FilledNames(id: nat, ticket: string, deal: Option<string>)
    requires ticket != ""
    ensures ItemOf(Filled(id, Some(ticket), deal)).names == [ticket] + Truthy(deal)
  {
  }

  lemma ThirdConnects(items: seq<Item>)
    requires |items| == 3 && items[0].names == ["a"] && items[1].names == ["b"] && items[2].names == ["a", "b"]
    ensures Connected(items, 0, 1)
  {
    assert "a" in items[0].names && "a" in items[2].names && "b" in items[2].names && "b" in items[1].names;
    LinkConnects(items, 0, 2);
    ExtendPath(items, 0, 2, 1);
  }

  lemma FirstTwoLand(items: seq<Item>)
    requires |items| > 1 && items[0].names == ["a"] && items[1].names == ["b"]
    ensures Landed(items, 0) == "a" && Landed(items, 1) == "b"
  {
    FindsARegisteredKey(Known(items, 0), items[0].names);
    KnownNext(items, 0);
    FindsARegisteredKey(Known(items, 1), items[1].names);
  }

  /** Grouping is right exactly when no event's already known aliases point to two different trades. */
  lemma GroupsAreComponentsIffNoConflict(items: seq<Item>)
    requires FallbacksAreFresh(items)
    ensures GroupsAreComponents(items) <==> NoConflict(items)
  {
    if NoConflict(items) {
      forall i, j | 0 <= i < |items| && 0 <= j < |items|
        ensures Landed(items, i) == Landed(items, j) <==> Connected(items, i, j)
      {
        if Connected(items, i, j) {
          var p :| PathFromTo(items, p, i, j);
          forall k, m | Linked(items, k, m) ensures Landed(items, k) == Landed(items, m) {
            LinkedEventsShareATrade(items, k, m);
          }
          PathStaysInOneTrade(items, p, |p| - 1);
        }
        if Landed(items, i) == Landed(items, j) {
          OneTradeIsConnected(items, i, j);
        }
      }
    } else {
      var n :| 0 <= n < |items| && !Agrees(Known(items, n), items[n]);
      var s := Known(items, n);
      var a, b :| a in items[n].names && b in items[n].names && a in s && b in s && s[a] != s[b];
      ConflictSplitsAComponent(items, n, a, b);
    }
  }

  // ---- The builder groups as the aliases say ----

  lemma StepRecords(s: State, e: Event)
    ensures Step(s, e).landed == s.landed + [KeyIn(s.aliases, ItemOf(e))]
    ensures Step(s, e).aliases == RegisterAliases(s.aliases, KeyIn(s.aliases, ItemOf(e)), ItemOf(e).names)
  {
  }

  lemma BuildRecords(events: seq<Event>, before: State)
    requires events != [] && before == Build(events[..|events| - 1])
    ensures var item := ItemsOf(events)[|events| - 1];
            && Build(events).landed == before.landed + [KeyIn(before.aliases, item)]
            && Build(events).aliases == RegisterAliases(before.aliases, KeyIn(before.aliases, item), item.names)
  {
    StepRecords(before, events[|events| - 1]);
  }

  lemma PrefixItems(events: seq<Event>, i: nat)
    requires events != [] && i < |events|
    ensures ItemsOf(events[..|events| - 1]) == ItemsOf(events)[..|events| - 1]
    ensures Known(ItemsOf(events[..|events| - 1]), i) == Known(ItemsOf(events), i)
    ensures i < |events| - 1 ==> Landed(ItemsOf(events[..|events| - 1]), i) == Landed(ItemsOf(events), i)
  {
    assert ItemsOf(events[..|events| - 1]) == ItemsOf(events)[..|events| - 1];
    KnownIsAPrefixProperty(ItemsOf(events), |events| - 1, i);
  }

  /** The alias map and the landing places of a state, said on the items alone. */
  ghost predicate Follows(s: State, items: seq<Item>) {
    && s.aliases == Known(items, |items|)
    && |s.landed| == |items|
    && (forall i :: 0 <= i < |items| ==> s.landed[i] == Landed(items, i))
  }

  lemma OneMoreFollows(before: State, after: State, items: seq<Item>)
    requires items != [] && |before.landed| == |items| - 1
    requires before.aliases == Known(items, |items| - 1)
    requires forall i :: 0 <= i < |items| - 1 ==> before.landed[i] == Landed(items, i)
    requires after.landed == before.landed + [KeyIn(before.aliases, items[|items| - 1])]
    requires after.aliases
      == RegisterAliases(before.aliases, KeyIn(before.aliases, items[|items| - 1]), items[|items| - 1].names)
    ensures Follows(after, items)
  {
  }

  /** The builder keeps exactly this alias map, and puts each event where it says. */
  lemma {:induction false} BuilderFollowsTheAliases(events: seq<Event>)
    ensures Follows(Build(events), ItemsOf(events))
  {
    if events != [] {
      var n := |events| - 1;
      BuilderFollowsTheAliases(events[..n]);
      PrefixesFollow(events, Build(events[..n]), Build(events));
    }
  }

  lemma PrefixFollows(events: seq<Event>, before: State)
    requires events != [] && Follows(before, ItemsOf(events[..|events| - 1]))
    ensures |before.landed| == |events| - 1 && before.aliases == Known(ItemsOf(events), |events| - 1)
    ensures forall i :: 0 <= i < |events| - 1 ==> before.landed[i] == Landed(ItemsOf(events), i)
  {
    forall i | 0 <= i < |events| - 1 ensures before.landed[i] == Landed(ItemsOf(events), i) {
      PrefixItems(events, i);
    }
    PrefixItems(events, |events| - 1);
  }

  lemma PrefixesFollow(events: seq<Event>, before: State, after: State)
    requires events != [] && before == Build(events[..|events| - 1]) && after == Build(events)
    requires Follows(before, ItemsOf(events[..|events| - 1]))
    ensures Follows(after, ItemsOf(events))
  {
    BuildRecords(events, before);
    PrefixFollows(events, before);
    OneMoreFollows(before, after, ItemsOf(events));
  }

  /** Two events are in one reported trade iff shared aliases connect them - for exactly the conflict-free inputs. */
  lemma TradesAreComponentsIffNoConflict(events: seq<Event>)
    requires FallbacksAreFresh(ItemsOf(events))
    ensures |Build(events).landed| == |events|
    ensures NoConflict(ItemsOf(events)) <==>
            forall i, j :: 0 <= i < |events| && 0 <= j < |events| ==>
              (Build(events).landed[i] == Build(events).landed[j] <==> Connected(ItemsOf(events), i, j))
  {
    BuilderFollowsTheAliases(events);
    GroupsAreComponentsIffNoConflict(ItemsOf(events));
    SameGroups(Build(events), ItemsOf(events));
  }

  lemma SameGroups(s: State, items: seq<Item>)
    requires Follows(s, items)
    ensures GroupsAreComponents(items) <==>
            forall i, j :: 0 <= i < |items| && 0 <= j < |items| ==>
              (s.landed[i] == s.landed[j] <==> Connected(items, i, j))
  {
    if forall i, j :: 0 <= i < |items| && 0 <= j < |items| ==>
         (s.landed[i] == s.landed[j] <==> Connected(items, i, j))
    {
      forall i, j | 0 <= i < |items| && 0 <= j < |items|
        ensures Landed(items, i) == Landed(items, j) <==> Connected(items, i, j)
      {
        assert s.landed[i] == Landed(items, i) && s.landed[j] == Landed(items, j);
      }
    }
  }

  // ---- The rows that are reported ----

  lemma LedgerOrderIsTotal()
    ensures TotalPreorder(LedgerOrder) && TotalPreorder(NewestFirst)
  {
  }

  /** Reported rows are the trades, newest first, each with its own events in ledger order. */
  lemma ReportedRows(events: seq<Event>)
    ensures var s := Build(events);
            && (forall k :: k in s.order ==> k in s.trades)
            && multiset(Sort(RowsOf(s), NewestFirst)) == multiset(RowsOf(s))
            && SortedBy(Sort(RowsOf(s), NewestFirst), NewestFirst)
            && (forall i :: 0 <= i < |s.order| ==>
                  && SortedBy(RowsOf(s)[i].ledger, LedgerOrder)
                  && multiset(RowsOf(s)[i].ledger) == multiset(s.trades[s.order[i]].ledger))
  {
    var s := Build(events);
    LedgersPartitionTheEvents(events);
    LedgerOrderIsTotal();
    SortIsPermutation(RowsOf(s), NewestFirst);
    SortSorts(RowsOf(s), NewestFirst);
    forall i | 0 <= i < |s.order|
      ensures SortedBy(RowsOf(s)[i].ledger, LedgerOrder)
      ensures multiset(RowsOf(s)[i].ledger) == multiset(s.trades[s.order[i]].ledger)
    {
      SortIsPermutation(s.trades[s.order[i]].ledger, LedgerOrder);
      SortSorts(s.trades[s.order[i]].ledger, LedgerOrder);
    }
  }
}
