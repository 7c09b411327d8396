/** Which fill a position gets, and what its group of events says, over the fields of rows and fills. */
module FillRanks {
  import opened Prelude
  import opened Present
  import opened ExecutionBridge
  import opened FillMatching

  // ---- Preference among fills ----

  /** The later of two tokens: the higher execution id, and of equal ids the higher row. */
  predicate IsLater(a: Token, b: Token) {
    a.id > b.id || (a.id == b.id && a.index > b.index)
  }

  /** `a` was filled nearer to the target than `b`; a fill without a time is farther than any other. */
  predicate IsNearer(target: int, a: Option<int>, b: Option<int>) {
    a != None
    && (b == None || Abs((a.value - target) as real) < Abs((b.value - target) as real))
  }

  predicate IsPreferred(target: Option<int>, a: Candidate, b: Candidate) {
    if target == None then IsLater(a.token, b.token)
    else
      || IsNearer(target.value, a.row.time, b.row.time)
      || (!IsNearer(target.value, b.row.time, a.row.time) && IsLater(a.token, b.token))
  }

  lemma BetterIsPreferred(target: Option<int>, a: Candidate, b: Candidate)
    ensures Better(target, a, b) <==> IsPreferred(target, a, b)
  {
    if target.Some? {
      NearerInTime(target.value, a, b);
      NearerInTime(target.value, b, a);
    }
  }

  lemma NearerInTime(target: int, a: Candidate, b: Candidate)
    ensures Nearer(Distance(a, target), Distance(b, target)) <==> IsNearer(target, a.row.time, b.row.time)
  {
  }

  // ---- Rank of a link ----

  const UNLINKED: nat := 4

  /** How closely a fill is linked to a position: 0 order ticket, 1 deal, 2 attempt, 3 symbol and side. */
  function Rank(g: Aggregate, c: Candidate): nat {
    if g.positionId != None && c.row.orderTicket == g.positionId then 0
    else if g.dealTicket != None && c.row.dealTicket == g.dealTicket then 1
    else if g.attemptId != None && c.row.attemptId == g.attemptId then 2
    else if g.symbol != None && g.side != None && c.row.instrument == Some((Upper(g.symbol.value), g.side.value)) then 3
    else UNLINKED
  }

  /** The fill of the strongest link among those that are free, and the preferred one at that link. */
  ghost predicate IsChoice(fills: seq<Candidate>, g: Aggregate, used: set<Token>, c: Candidate) {
    && c in fills && c.token !in used && Rank(g, c) < UNLINKED
    && (forall d :: d in fills && d.token !in used ==>
          Rank(g, c) <= Rank(g, d) && (Rank(g, d) == Rank(g, c) ==> !IsPreferred(g.openedAt, d, c)))
  }

  lemma TryIsPreferred<K>(fills: seq<Candidate>, key: Candidate -> Option<K>, k: Option<K>, used: set<Token>,
      target: Option<int>)
    ensures var r := Try(fills, key, k, used, target);
            && (r.None? <==> forall c :: c in fills && k.Some? && key(c) == k ==> c.token in used)
            && (r.Some? ==> r.value in fills && k.Some? && key(r.value) == k && r.value.token !in used)
            && (r.Some? ==> forall d :: d in fills && key(d) == k && d.token !in used ==>
                              !IsPreferred(target, d, r.value))
  {
    if k.Some? {
      ListedMembers(fills, key, k.value);
      var r := Try(fills, key, k, used, target);
      BestIsOptimal(Listed(fills, key, k.value), used, target);
      forall d | r.Some? && d in fills && key(d) == k && d.token !in used ensures !IsPreferred(target, d, r.value) {
        BetterIsPreferred(target, d, r.value);
      }
    }
  }

  /** The four lookups find the preferred free fill of the strongest link, or none when no linked fill is free. */
  lemma MatchTakesTheStrongestLink(fills: seq<Candidate>, g: Aggregate, used: set<Token>)
    ensures var r := Match(fills, g, used);
            && (r.None? <==> forall c :: c in fills && Rank(g, c) < UNLINKED ==> c.token in used)
            && (r.Some? ==> IsChoice(fills, g, used, r.value))
  {
    TryIsPreferred(fills, OrderOf, g.positionId, used, g.openedAt);
    TryIsPreferred(fills, DealOf, g.dealTicket, used, g.openedAt);
    TryIsPreferred(fills, AttemptOf, g.attemptId, used, g.openedAt);
    TryIsPreferred(fills, InstrumentOf, Instrument(g), used, g.openedAt);
  }

  /** With distinct tokens there is only one such fill, so the choice is the match. */
  lemma TheMatchIsTheChoice(fills: seq<Candidate>, g: Aggregate, used: set<Token>, c: Candidate)
    requires DistinctTokens(fills)
    ensures Match(fills, g, used) == Some(c) <==> IsChoice(fills, g, used, c)
  {
    MatchTakesTheStrongestLink(fills, g, used);
    var r := Match(fills, g, used);
    if IsChoice(fills, g, used, c) && r.Some? {
      assert !IsLater(c.token, r.value.token) && !IsLater(r.value.token, c.token);
      TokensTellFillsApart(fills, c, r.value);
    }
  }

  lemma TokensTellFillsApart(fills: seq<Candidate>, c: Candidate, d: Candidate)
    requires DistinctTokens(fills) && c in fills && d in fills && c.token == d.token
    ensures c == d
  {
  }

  // ---- The whole pairing ----

  /** The fills that the first `n` records hold. */
  ghost predicate IsHeld(records: seq<Record>, n: nat, t: Token)
    requires n <= |records|
  {
    exists j :: 0 <= j < n && records[j].fill.Some? && records[j].fill.value.token == t
  }

  /** Record `i` holds the preferred fill of the strongest link among those that no earlier record holds. */
  ghost predicate TakesTheBestLeft(records: seq<Record>, fills: seq<Candidate>, i: nat)
    requires i < |records|
  {
    var g := records[i].position;
    match records[i].fill
    case None => forall d :: d in fills && Rank(g, d) < UNLINKED ==> IsHeld(records, i, d.token)
    case Some(c) =>
      && c in fills && !IsHeld(records, i, c.token) && Rank(g, c) < UNLINKED
      && (forall d :: d in fills && !IsHeld(records, i, d.token) ==>
            Rank(g, c) <= Rank(g, d) && (Rank(g, d) == Rank(g, c) ==> !IsPreferred(g.openedAt, d, c)))
  }

  ghost predicate AllTakeTheBestLeft(records: seq<Record>, fills: seq<Candidate>) {
    forall i :: 0 <= i < |records| ==> TakesTheBestLeft(records, fills, i)
  }

  lemma {:induction false} EveryRecordTakesTheBestLeft(fills: seq<Candidate>, groups: seq<Aggregate>)
    ensures AllTakeTheBestLeft(PairAll(fills, groups).records, fills)
  {
    if groups != [] {
      var n := |groups| - 1;
      EveryRecordTakesTheBestLeft(fills, groups[..n]);
      NoFillIsUsedTwice(fills, groups[..n]);
      PairTakesTheBestLeft(PairAll(fills, groups[..n]), fills, groups[n]);
    }
  }

  lemma PairTakesTheBestLeft(p: Pairing, fills: seq<Candidate>, g: Aggregate)
    requires IsInjective(p, fills)
    requires AllTakeTheBestLeft(p.records, fills)
    ensures AllTakeTheBestLeft(Pair(p, fills, g).records, fills)
  {
    var records, n := Pair(p, fills, g).records, |p.records|;
    forall i | 0 <= i < n ensures TakesTheBestLeft(records, fills, i) {
      TakingStays(p.records, records, fills, i);
    }
    if HasExit(g) {
      MatchTakesTheStrongestLink(fills, g, p.used);
      HeldAreUsed(p, fills);
      HeldStays(p.records, records, n);
      LastTakesTheBestLeft(records, fills, g, p.used, n);
    }
  }

  lemma LastTakesTheBestLeft(records: seq<Record>, fills: seq<Candidate>, g: Aggregate, used: set<Token>, n: nat)
    requires n < |records| && records[n] == Record(g, Match(fills, g, used))
    requires forall t :: IsHeld(records, n, t) <==> t in used
    ensures TakesTheBestLeft(records, fills, n)
  {
    MatchTakesTheStrongestLink(fills, g, used);
  }

  lemma TakingStays(before: seq<Record>, records: seq<Record>, fills: seq<Candidate>, i: nat)
    requires i < |before| <= |records| && records[..|before|] == before && TakesTheBestLeft(before, fills, i)
    ensures TakesTheBestLeft(records, fills, i)
  {
    HeldStays(before, records, i);
    assert records[i] == before[i];
  }

  lemma HeldStays(before: seq<Record>, records: seq<Record>, n: nat)
    requires n <= |before| <= |records| && records[..|before|] == before
    ensures forall t :: IsHeld(records, n, t) <==> IsHeld(before, n, t)
  {
    forall t ensures IsHeld(records, n, t) <==> IsHeld(before, n, t) {
      assert forall j :: 0 <= j < n ==> records[j] == before[j];
    }
  }

  lemma HeldAreUsed(p: Pairing, fills: seq<Candidate>)
    requires IsInjective(p, fills)
    ensures forall t :: IsHeld(p.records, |p.records|, t) <==> t in p.used
  {
  }
}
