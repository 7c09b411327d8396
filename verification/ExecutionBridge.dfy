/** Reading the event log back: one terminal event per attempt, and filled attempts matched to closed positions. */
module ExecutionBridge {
  import opened Prelude

  /** The words of the protocol; any other text is kept as it is. */
  datatype Phase = NoPhase | IntentPhase | Precheck | Guard | Send | Fill | OtherPhase(text: string)

  datatype Status =
    | NoStatus | Ready | PrecheckOk | PrecheckRejected | GuardRejected
    | Filled | DryRunOk | Rejected | Error | OtherStatus(text: string)

  /** An execution event after its row and payload are coalesced and its texts normalized; a blank text is missing. */
  datatype ExecutionEvent = ExecutionEvent(
    executionId: Option<int>, attemptId: Option<string>, phase: Phase, status: Status,
    orderTicket: Option<string>, dealTicket: Option<string>, instrument: Option<(string, string)>, time: Option<int>)

  datatype Token = Token(id: int, index: nat)

  datatype Candidate = Candidate(row: ExecutionEvent, token: Token)

  function Upper(s: string): string {
    seq(|s|, i requires 0 <= i < |s| => if 'a' <= s[i] <= 'z' then (s[i] as int - 32) as char else s[i])
  }

  predicate IsFilledStatus(status: Status) {
    status.Filled? || status.DryRunOk?
  }

  predicate IsRejectedStatus(status: Status) {
    status.Rejected? || status.Error? || status.PrecheckRejected? || status.GuardRejected?
  }

  /** The event settles its attempt. */
  predicate IsTerminal(phase: Phase, status: Status) {
    || phase.Fill? || phase.Guard?
    || status.PrecheckRejected?
    || (phase.NoPhase? && (IsFilledStatus(status) || IsRejectedStatus(status)))
  }

  predicate TokenLess(a: Token, b: Token) {
    a.id < b.id || (a.id == b.id && a.index < b.index)
  }

  function Signed(n: int): string {
    if n < 0 then "-" + Decimal(-n) else Decimal(n)
  }

  function TokenOf(e: ExecutionEvent, index: nat): Token {
    Token(if e.executionId.Some? then e.executionId.value else index, index)
  }

  /** Events without an attempt id are attempts of their own. */
  function AttemptKey(e: ExecutionEvent, index: nat): string {
    match e.attemptId
    case Some(id) => id
    case None => "legacy-" + Signed(TokenOf(e, index).id) + "-" + Decimal(index)
  }

  // ---- One candidate per attempt ----

  datatype Attempts = Attempts(order: seq<string>, latest: map<string, Candidate>)

  /** Keep the candidate with the higher token. */
  function Keep(a: Attempts, key: string, c: Candidate): Attempts {
    if key !in a.latest then Attempts(a.order + [key], a.latest[key := c])
    else if TokenLess(a.latest[key].token, c.token) then Attempts(a.order, a.latest[key := c])
    else a
  }

  function Note(a: Attempts, e: ExecutionEvent, index: nat): Attempts {
    if IsTerminal(e.phase, e.status) then Keep(a, AttemptKey(e, index), Candidate(e, TokenOf(e, index))) else a
  }

  function AttemptsOf(events: seq<ExecutionEvent>): Attempts {
    if events == [] then Attempts([], map[])
    else Note(AttemptsOf(events[..|events| - 1]), events[|events| - 1], |events| - 1)
  }

  /** Event `i` is terminal and belongs to the attempt. */
  ghost predicate Settles(events: seq<ExecutionEvent>, i: nat, key: string) {
    i < |events| && IsTerminal(events[i].phase, events[i].status) && AttemptKey(events[i], i) == key
  }

  ghost predicate IsCandidateOf(events: seq<ExecutionEvent>, c: Candidate, key: string) {
    && Settles(events, c.token.index, key)
    && c == Candidate(events[c.token.index], TokenOf(events[c.token.index], c.token.index))
  }

  ghost predicate WellOrdered(a: Attempts) {
    && (forall i, j :: 0 <= i < j < |a.order| ==> a.order[i] != a.order[j])
    && (forall k :: k in a.order <==> k in a.latest)
  }

  ghost predicate NotOlder(a: Attempts, key: string, t: Token) {
    key in a.latest && !TokenLess(a.latest[key].token, t)
  }

  /** Every settled attempt is represented once, by its terminal event with the highest token. */
  ghost predicate HoldsLatest(a: Attempts, events: seq<ExecutionEvent>) {
    && WellOrdered(a)
    && (forall k :: k in a.latest ==> IsCandidateOf(events, a.latest[k], k))
    && (forall i: nat, k :: Settles(events, i, k) ==> NotOlder(a, k, TokenOf(events[i], i)))
  }

  lemma KeepKeepsOrder(a: Attempts, key: string, c: Candidate)
    requires WellOrdered(a)
    ensures WellOrdered(Keep(a, key, c))
    ensures var b := Keep(a, key, c);
            forall k :: k in b.latest ==>
              (k in a.latest && b.latest[k] == a.latest[k]) || (k == key && b.latest[k] == c)
    ensures forall k, t :: NotOlder(a, k, t) ==> NotOlder(Keep(a, key, c), k, t)
    ensures NotOlder(Keep(a, key, c), key, c.token)
  {
  }

  lemma EarlierCandidatesStay(events: seq<ExecutionEvent>, e: ExecutionEvent, c: Candidate, k: string)
    requires IsCandidateOf(events, c, k)
    ensures IsCandidateOf(events + [e], c, k)
  {
  }

  lemma EarlierSettles(events: seq<ExecutionEvent>, e: ExecutionEvent, i: nat, k: string)
    requires i < |events|
    ensures Settles(events + [e], i, k) <==> Settles(events, i, k)
  {
  }

  lemma NoteHoldsLatest(events: seq<ExecutionEvent>, e: ExecutionEvent, a: Attempts, key: string)
    requires HoldsLatest(a, events) && key == AttemptKey(e, |events|)
    ensures HoldsLatest(Note(a, e, |events|), events + [e])
  {
    var all, b, n := events + [e], Note(a, e, |events|), |events|;
    var c := Candidate(e, TokenOf(e, n));
    KeepKeepsOrder(a, key, c);
    forall k | k in b.latest ensures IsCandidateOf(all, b.latest[k], k) {
      if k in a.latest && b.latest[k] == a.latest[k] {
        EarlierCandidatesStay(events, e, a.latest[k], k);
      }
    }
    forall i: nat, k | Settles(all, i, k) ensures NotOlder(b, k, TokenOf(all[i], i)) {
      if i < n {
        EarlierSettles(events, e, i, k);
        assert NotOlder(a, k, TokenOf(events[i], i));
      }
    }
  }

  lemma {:induction false} LatestTerminalEventWins(events: seq<ExecutionEvent>)
    ensures HoldsLatest(AttemptsOf(events), events)
  {
    if events != [] {
      var n := |events| - 1;
      LatestTerminalEventWins(events[..n]);
      NoteHoldsLatest(events[..n], events[n], AttemptsOf(events[..n]), AttemptKey(events[n], n));
      Snoc(events);
    }
  }

  /** The filled ones among the first `n` attempts. */
  function FillsUpTo(a: Attempts, n: nat): seq<Candidate>
    requires n <= |a.order| && forall k :: k in a.order ==> k in a.latest
  {
    if n == 0 then []
    else
      var c := a.latest[a.order[n - 1]];
      FillsUpTo(a, n - 1) + if IsFilledStatus(c.row.status) then [c] else []
  }

  function RejectedUpTo(a: Attempts, n: nat): nat
    requires n <= |a.order| && forall k :: k in a.order ==> k in a.latest
  {
    if n == 0 then 0
    else RejectedUpTo(a, n - 1) + if IsRejectedStatus(a.latest[a.order[n - 1]].row.status) then 1 else 0
  }

  /** Each attempt counts as filled, as rejected, or as neither. */
  lemma {:induction false} FilledPlusRejectedIsAtMostTotal(a: Attempts, n: nat)
    requires n <= |a.order| && forall k :: k in a.order ==> k in a.latest
    ensures |FillsUpTo(a, n)| + RejectedUpTo(a, n) <= n
  {
    if n > 0 {
      FilledPlusRejectedIsAtMostTotal(a, n - 1);
    }
  }

  ghost predicate DistinctTokens(fills: seq<Candidate>) {
    forall i, j :: 0 <= i < j < |fills| ==> fills[i].token != fills[j].token
  }

  lemma {:induction false} FillsComeFromTheirAttempts(events: seq<ExecutionEvent>, a: Attempts, n: nat)
    requires HoldsLatest(a, events) && n <= |a.order|
    ensures forall c :: c in FillsUpTo(a, n) ==>
              IsFilledStatus(c.row.status) && exists k :: 0 <= k < n && a.latest[a.order[k]] == c
    ensures forall k :: 0 <= k < n && IsFilledStatus(a.latest[a.order[k]].row.status) ==>
      a.latest[a.order[k]] in FillsUpTo(a, n)
  {
    if n > 0 {
      FillsComeFromTheirAttempts(events, a, n - 1);
    }
  }

  lemma AttemptsHaveDistinctTokens(events: seq<ExecutionEvent>, c: Candidate, d: Candidate, key: string, other: string)
    requires IsCandidateOf(events, c, key) && IsCandidateOf(events, d, other) && key != other
    ensures c.token != d.token
  {
  }

  lemma {:induction false} EarlierFillsDiffer(events: seq<ExecutionEvent>, a: Attempts, n: nat, m: nat)
    requires HoldsLatest(a, events) && n <= m < |a.order|
    ensures forall c :: c in FillsUpTo(a, n) ==> c.token != a.latest[a.order[m]].token
  {
    if n > 0 {
      EarlierFillsDiffer(events, a, n - 1, m);
      var key, other := a.order[n - 1], a.order[m];
      assert key in a.order && other in a.order;
      AttemptsHaveDistinctTokens(events, a.latest[key], a.latest[other], key, other);
    }
  }

  /** Attempts are settled by different events, so no two fills share a token. */
  lemma {:induction false} FillsHaveDistinctTokens(events: seq<ExecutionEvent>, a: Attempts, n: nat)
    requires HoldsLatest(a, events) && n <= |a.order|
    ensures DistinctTokens(FillsUpTo(a, n))
  {
    if n > 0 {
      FillsHaveDistinctTokens(events, a, n - 1);
      EarlierFillsDiffer(events, a, n - 1, n - 1);
      DistinctAppend(FillsUpTo(a, n - 1), a.latest[a.order[n - 1]]);
    }
  }

  lemma DistinctAppend(fills: seq<Candidate>, c: Candidate)
    requires DistinctTokens(fills) && forall d :: d in fills ==> d.token != c.token
    ensures DistinctTokens(fills + [c])
  {
  }

  // ---- Lookup tables ----

  function OrderOf(c: Candidate): Option<string> { c.row.orderTicket }
  function DealOf(c: Candidate): Option<string> { c.row.dealTicket }
  function AttemptOf(c: Candidate): Option<string> { c.row.attemptId }
  function InstrumentOf(c: Candidate): Option<(string, string)> { c.row.instrument }

  /** The candidates filed under `k`, in order. */
  function Listed<K(==)>(fills: seq<Candidate>, key: Candidate -> Option<K>, k: K): seq<Candidate> {
    if fills == [] then []
    else Listed(fills[..|fills| - 1], key, k) + if key(fills[|fills| - 1]) == Some(k) then [fills[|fills| - 1]] else []
  }

  function Get<K>(table: map<K, seq<Candidate>>, k: K): seq<Candidate> {
    if k in table then table[k] else []
  }

  function AppendLookup<K>(table: map<K, seq<Candidate>>, k: Option<K>, c: Candidate): map<K, seq<Candidate>> {
    if k.None? then table else table[k.value := Get(table, k.value) + [c]]
  }

  ghost predicate Indexes<K(!new)>(table: map<K, seq<Candidate>>, fills: seq<Candidate>, key: Candidate -> Option<K>) {
    forall k :: Get(table, k) == Listed(fills, key, k)
  }

  lemma AppendKeepsIndex<K(!new)>(table: map<K, seq<Candidate>>, fills: seq<Candidate>, key: Candidate -> Option<K>,
      c: Candidate)
    requires Indexes(table, fills, key)
    ensures Indexes(AppendLookup(table, key(c), c), fills + [c], key)
  {
    assert (fills + [c])[..|fills|] == fills;
  }

  lemma {:induction false} ListedMembers<K>(fills: seq<Candidate>, key: Candidate -> Option<K>, k: K)
    ensures forall c :: c in Listed(fills, key, k) <==> c in fills && key(c) == Some(k)
  {
    if fills != [] {
      var n := |fills| - 1;
      ListedMembers(fills[..n], key, k);
      Snoc(fills);
      forall c ensures c in fills <==> c in fills[..n] || c == fills[n] {
      }
    }
  }

  datatype Lookups = Lookups(
    attempt: map<string, seq<Candidate>>, order: map<string, seq<Candidate>>,
    deal: map<string, seq<Candidate>>, instrument: map<(string, string), seq<Candidate>>)

  ghost predicate Indexed(l: Lookups, fills: seq<Candidate>) {
    && Indexes(l.attempt, fills, AttemptOf) && Indexes(l.order, fills, OrderOf)
    && Indexes(l.deal, fills, DealOf) && Indexes(l.instrument, fills, InstrumentOf)
  }

  datatype Bridge = Bridge(fills: seq<Candidate>, lookups: Lookups, rejected: nat, total: nat)

  method CollectAttempts(events: seq<ExecutionEvent>) returns (a: Attempts)
    ensures a == AttemptsOf(events) && HoldsLatest(a, events)
  {
    a := Attempts([], map[]);
    for n := 0 to |events|
      invariant a == AttemptsOf(events[..n])
    {
      assert events[..n + 1][..n] == events[..n];
      a := Note(a, events[n], n);
    }
    assert events[..|events|] == events;
    LatestTerminalEventWins(events);
  }

  method File(l: Lookups, fills: seq<Candidate>, c: Candidate) returns (r: Lookups)
    requires Indexed(l, fills)
    ensures Indexed(r, fills + [c])
  {
    AppendKeepsIndex(l.attempt, fills, AttemptOf, c);
    AppendKeepsIndex(l.order, fills, OrderOf, c);
    AppendKeepsIndex(l.deal, fills, DealOf, c);
    AppendKeepsIndex(l.instrument, fills, InstrumentOf, c);
    r := Lookups(AppendLookup(l.attempt, AttemptOf(c), c), AppendLookup(l.order, OrderOf(c), c),
                 AppendLookup(l.deal, DealOf(c), c), AppendLookup(l.instrument, InstrumentOf(c), c));
  }

  function BridgeOf(events: seq<ExecutionEvent>, lookups: Lookups): Bridge {
    LatestTerminalEventWins(events);
    var a := AttemptsOf(events);
    Bridge(FillsUpTo(a, |a.order|), lookups, RejectedUpTo(a, |a.order|), |a.order|)
  }

  method Classify(a: Attempts) returns (fills: seq<Candidate>, lookups: Lookups, rejected: nat)
    requires WellOrdered(a)
    ensures fills == FillsUpTo(a, |a.order|) && rejected == RejectedUpTo(a, |a.order|) && Indexed(lookups, fills)
  {
    fills, lookups, rejected := [], Lookups(map[], map[], map[], map[]), 0;
    for n := 0 to |a.order|
      invariant fills == FillsUpTo(a, n) && rejected == RejectedUpTo(a, n) && Indexed(lookups, fills)
    {
      var c := a.latest[a.order[n]];
      if IsRejectedStatus(c.row.status) {
        rejected := rejected + 1;
      }
      if IsFilledStatus(c.row.status) {
        lookups := File(lookups, fills, c);
        fills := fills + [c];
      }
    }
  }

  method BuildExecutionBridge(events: seq<ExecutionEvent>) returns (bridge: Bridge)
    ensures HoldsLatest(AttemptsOf(events), events)
    ensures bridge == BridgeOf(events, bridge.lookups) && Indexed(bridge.lookups, bridge.fills)
  {
    var a := CollectAttempts(events);
    var fills, lookups, rejected := Classify(a);
    bridge := Bridge(fills, lookups, rejected, |a.order|);
  }
}
