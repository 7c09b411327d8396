/** A replay as the calls it makes of its runtime, and what its report says about them and about the ticks. */
module CausalCalls {
  import opened Prelude
  import opened Contracts
  import opened CausalReplay

  // ---- Calls ----

  /** A call of the runtime: the state it was given, what it was told, and what it answered. */
  datatype Call<+S, +E> =
    | TickCall(before: S, tick: Tick, next: S, events: seq<E>, requests: seq<BarKey>)
    | BarCall(before: S, time: int, key: BarKey, bar: Bar, next: S, events: seq<E>)

  /** The runtime gave this answer, and a bar was in the index and closed by the time of the tick that asked for it. */
  ghost predicate IsAnswered<S, E>(r: Runtime<S, E>, index: map<BarKey, Bar>, c: Call<S, E>) {
    match c
    case TickCall(before, tick, next, events, requests) => r.onTick(before, tick) == Output(next, events, requests)
    case BarCall(before, time, key, bar, next, events) =>
      && key in index && bar == index[key] && bar.closeTime <= time
      && r.onBarClose(before, key, bar) == BarOutput(next, events)
  }

  ghost predicate AllAnswered<S, E>(r: Runtime<S, E>, index: map<BarKey, Bar>, calls: seq<Call<S, E>>) {
    forall i :: 0 <= i < |calls| ==> IsAnswered(r, index, calls[i])
  }

  /** Every call is given the state that the one before it left. */
  ghost predicate Chains<S, E>(calls: seq<Call<S, E>>, from: S, to: S)
    decreases |calls|
  {
    if calls == [] then from == to else calls[0].before == from && Chains(calls[1..], calls[0].next, to)
  }

  /** The calls of one tick's requests, in their order. */
  ghost predicate AreBarCalls<S, E>(calls: seq<Call<S, E>>, requests: seq<BarKey>, time: int) {
    && |calls| == |requests|
    && (forall i :: 0 <= i < |calls| ==>
          calls[i].BarCall? && calls[i].key == requests[i] && calls[i].time == time)
  }

  /** One call for each tick in turn, followed by one for each bar that it asked for. */
  ghost predicate FollowTicks<S, E>(calls: seq<Call<S, E>>, ticks: seq<Tick>)
    decreases |ticks|
  {
    if ticks == [] then calls == []
    else
      && calls != [] && calls[0].TickCall? && calls[0].tick == ticks[0]
      && 1 + |calls[0].requests| <= |calls|
      && AreBarCalls(calls[1..1 + |calls[0].requests|], calls[0].requests, ticks[0].time)
      && FollowTicks(calls[1 + |calls[0].requests|..], ticks[1..])
  }

  function EventsOf<S, E>(calls: seq<Call<S, E>>): seq<E> {
    if calls == [] then [] else calls[0].events + EventsOf(calls[1..])
  }

  function BarsIn<S, E>(calls: seq<Call<S, E>>): nat {
    if calls == [] then 0 else (if calls[0].BarCall? then 1 else 0) + BarsIn(calls[1..])
  }

  /** What the calls lead to from `p`. */
  ghost predicate Leads<S, E>(calls: seq<Call<S, E>>, p: Progress<S, E>, q: Progress<S, E>) {
    && Chains(calls, p.state, q.state)
    && q.events == p.events + EventsOf(calls) && q.closedBars == p.closedBars + BarsIn(calls)
  }

  lemma {:induction false} LeadsOn<S, E>(a: seq<Call<S, E>>, b: seq<Call<S, E>>, p: Progress<S, E>, q: Progress<S, E>,
      end: Progress<S, E>)
    requires Leads(a, p, q) && Leads(b, q, end)
    ensures Leads(a + b, p, end)
    decreases |a|
  {
    if a == [] {
      assert a + b == b;
    } else {
      var mid := Progress(a[0].next, p.events + a[0].events, p.closedBars + if a[0].BarCall? then 1 else 0);
      assert (a + b)[1..] == a[1..] + b;
      assert p.events + (a[0].events + EventsOf(a[1..])) == mid.events + EventsOf(a[1..]);
      LeadsOn(a[1..], b, mid, q, end);
      assert p.events + (a[0].events + EventsOf(a[1..] + b)) == mid.events + EventsOf(a[1..] + b);
    }
  }

  lemma OneCallLeads<S, E>(c: Call<S, E>, p: Progress<S, E>)
    requires c.before == p.state
    ensures Leads([c], p, Progress(c.next, p.events + c.events, p.closedBars + if c.BarCall? then 1 else 0))
  {
    assert [c][1..] == [];
    assert c.events + [] == c.events;
  }

  lemma {:induction false} ServingMakesBarCalls<S, E>(r: Runtime<S, E>, index: map<BarKey, Bar>, time: int,
      p: Progress<S, E>, requests: seq<BarKey>) returns (calls: seq<Call<S, E>>)
    requires ServeRequests(r, index, time, p, requests).Ok?
    ensures AllAnswered(r, index, calls) && AreBarCalls(calls, requests, time)
    ensures Leads(calls, p, ServeRequests(r, index, time, p, requests).value)
    decreases |requests|
  {
    if requests == [] {
      calls := [];
      assert p.events + [] == p.events;
    } else {
      var key := requests[0];
      var out := r.onBarClose(p.state, key, index[key]);
      var c := BarCall(p.state, time, key, index[key], out.next, out.events);
      var q := Progress(out.next, p.events + out.events, p.closedBars + 1);
      var rest := ServingMakesBarCalls(r, index, time, q, requests[1..]);
      OneCallLeads(c, p);
      calls := [c] + rest;
      LeadsOn([c], rest, p, q, ServeRequests(r, index, time, p, requests).value);
    }
  }

  lemma TickMakesItsCalls<S, E>(r: Runtime<S, E>, index: map<BarKey, Bar>, p: Progress<S, E>, tick: Tick)
    returns (calls: seq<Call<S, E>>)
    requires OnTick(r, index, p, tick).Ok?
    ensures AllAnswered(r, index, calls) && Leads(calls, p, OnTick(r, index, p, tick).value)
    ensures calls != [] && calls[0].TickCall? && calls[0].tick == tick
    ensures AreBarCalls(calls[1..], calls[0].requests, tick.time)
  {
    var fast := r.onTick(p.state, tick);
    var c := TickCall(p.state, tick, fast.next, fast.events, fast.requests);
    var q := Progress(fast.next, p.events + fast.events, p.closedBars);
    var rest := ServingMakesBarCalls(r, index, tick.time, q, fast.requests);
    OneCallLeads(c, p);
    calls := [c] + rest;
    LeadsOn([c], rest, p, q, OnTick(r, index, p, tick).value);
    assert calls[1..] == rest;
  }

  /** A successful replay is a chain of calls: each tick in turn, each bar it asks for, every one answered causally. */
  lemma {:induction false} FeedingIsAChainOfCalls<S, E>(r: Runtime<S, E>, index: map<BarKey, Bar>, p: Progress<S, E>,
      ticks: seq<Tick>) returns (calls: seq<Call<S, E>>)
    requires Feed(r, index, p, ticks).Ok?
    ensures AllAnswered(r, index, calls) && FollowTicks(calls, ticks) && Leads(calls, p, Feed(r, index, p, ticks).value)
    decreases |ticks|
  {
    if ticks == [] {
      calls := [];
      assert p.events + [] == p.events;
    } else {
      var q := OnTick(r, index, p, ticks[0]).value;
      var now := TickMakesItsCalls(r, index, p, ticks[0]);
      var rest := FeedingIsAChainOfCalls(r, index, q, ticks[1..]);
      calls := now + rest;
      LeadsOn(now, rest, p, q, Feed(r, index, p, ticks).value);
      TickLeadsTheRest(now, rest, ticks);
    }
  }

  lemma TickLeadsTheRest<S, E>(now: seq<Call<S, E>>, rest: seq<Call<S, E>>, ticks: seq<Tick>)
    requires ticks != [] && FollowTicks(rest, ticks[1..])
    requires now != [] && now[0].TickCall? && now[0].tick == ticks[0]
    requires AreBarCalls(now[1..], now[0].requests, ticks[0].time)
    ensures FollowTicks(now + rest, ticks)
  {
    var calls, n := now + rest, |now|;
    assert calls[1..n] == now[1..] && calls[n..] == rest;
    assert n == 1 + |calls[0].requests|;
  }

  // ---- Failure ----

  predicate IsServed(index: map<BarKey, Bar>, time: int, key: BarKey) {
    key in index && index[key].closeTime <= time
  }

  /** The first request without a bar, or with one that closes after the tick, and the error that it gives. */
  ghost predicate FailsAt(index: map<BarKey, Bar>, time: int, requests: seq<BarKey>, i: int, error: Error) {
    && 0 <= i < |requests| && !IsServed(index, time, requests[i])
    && (forall j :: 0 <= j < i ==> IsServed(index, time, requests[j]))
    && error == if requests[i] in index then FutureBar(requests[i]) else BarUnavailable(requests[i])
  }

  lemma {:induction false} ServingFailsAtTheFirstBadBar<S, E>(r: Runtime<S, E>, index: map<BarKey, Bar>, time: int,
      p: Progress<S, E>, requests: seq<BarKey>)
    ensures var served := ServeRequests(r, index, time, p, requests);
            && (served.Ok? <==> forall i :: 0 <= i < |requests| ==> IsServed(index, time, requests[i]))
            && (served.Err? ==> exists i :: FailsAt(index, time, requests, i, served.error))
    decreases |requests|
  {
    if requests != [] {
      var key, rest := requests[0], requests[1..];
      if IsServed(index, time, key) {
        var out := r.onBarClose(p.state, key, index[key]);
        var q := Progress(out.next, p.events + out.events, p.closedBars + 1);
        ServingFailsAtTheFirstBadBar(r, index, time, q, rest);
        AfterAServedOne(index, time, key, rest, ServeRequests(r, index, time, q, rest));
        assert requests == [key] + rest;
      } else {
        assert FailsAt(index, time, requests, 0, ServeRequests(r, index, time, p, requests).error);
      }
    }
  }

  lemma AfterAServedOne<T>(index: map<BarKey, Bar>, time: int, key: BarKey, rest: seq<BarKey>, served: Result<T>)
    requires IsServed(index, time, key)
    requires served.Ok? <==> forall i :: 0 <= i < |rest| ==> IsServed(index, time, rest[i])
    requires served.Err? ==> exists i :: FailsAt(index, time, rest, i, served.error)
    ensures served.Ok? <==> forall i :: 0 <= i < |[key] + rest| ==> IsServed(index, time, ([key] + rest)[i])
    ensures served.Err? ==> exists i :: FailsAt(index, time, [key] + rest, i, served.error)
  {
    var all := [key] + rest;
    assert forall j :: 0 <= j < |rest| ==> all[j + 1] == rest[j];
    if served.Err? {
      var i :| FailsAt(index, time, rest, i, served.error);
      forall j | 0 <= j < i + 1 ensures IsServed(index, time, all[j]) {
        assert j > 0 ==> all[j] == rest[j - 1];
      }
      assert FailsAt(index, time, all, i + 1, served.error);
    }
  }

  // ---- The report ----

  /** Of ascending ticks the replay sees exactly those up to its end. */
  lemma {:induction false} TicksAreThoseUntilTheEnd(ticks: seq<Tick>, replayEnd: int) returns (k: nat)
    requires forall i, j :: 0 <= i < j < |ticks| ==> ticks[i].time < ticks[j].time
    ensures k <= |ticks| && TicksUntil(ticks, replayEnd) == ticks[..k]
    ensures (forall i :: 0 <= i < k ==> ticks[i].time <= replayEnd)
    ensures (forall i :: k <= i < |ticks| ==> ticks[i].time > replayEnd)
  {
    if ticks == [] {
      k := 0;
    } else {
      var n := |ticks| - 1;
      k := TicksAreThoseUntilTheEnd(ticks[..n], replayEnd);
      if ticks[n].time <= replayEnd {
        if k < n {
          LaterTicksAreLate(ticks, k, n, replayEnd);
        }
        k := |ticks|;
      }
    }
  }

  lemma LaterTicksAreLate(ticks: seq<Tick>, k: nat, n: int, replayEnd: int)
    requires k < n < |ticks| && ticks[k].time > replayEnd
    requires forall i, j :: 0 <= i < j < |ticks| ==> ticks[i].time < ticks[j].time
    ensures ticks[n].time > replayEnd
  {
  }

  /** The places of the events that have a property. */
  function Places<E>(events: seq<E>, f: E -> bool): set<int> {
    set i | 0 <= i < |events| && f(events[i])
  }

  lemma {:induction false} CountCountsThePlaces<E>(events: seq<E>, f: E -> bool)
    ensures CountBy(events, f) == |Places(events, f)|
  {
    if events != [] {
      var n := |events| - 1;
      CountCountsThePlaces(events[..n], f);
      if f(events[n]) {
        assert Places(events, f) == Places(events[..n], f) + {n};
      } else {
        assert Places(events, f) == Places(events[..n], f);
      }
    }
  }

  /** What a report counts: its ticks, its decisions, and those among them before the end of the warm-up. */
  lemma ReportCounts<S, E>(r: Runtime<S, E>, d: Dataset, initial: S) returns (k: nat)
    requires ValidDataset(d) && Replay(r, d, initial).Ok?
    ensures 0 < k <= |d.ticks| && d.ticks[k - 1].time <= d.replayEnd
    ensures k < |d.ticks| ==> d.ticks[k].time > d.replayEnd
    ensures var report := Replay(r, d, initial).value;
            && report.fromTime == d.ticks[0].time && report.toTime == d.ticks[k - 1].time && report.tickCount == k
            && report.decisions == |Places(report.progress.events, r.isDecision)|
            && report.suppressed == |Places(report.progress.events,
                                            e => r.isDecision(e) && r.semanticTime(e) < d.warmupUntil)|
  {
    k := TicksAreThoseUntilTheEnd(d.ticks, d.replayEnd);
    var events := Replay(r, d, initial).value.progress.events;
    var early := e => r.isDecision(e) && r.semanticTime(e) < d.warmupUntil;
    CountCountsThePlaces(events, r.isDecision);
    CountCountsThePlaces(events, Suppressed(r, d.warmupUntil));
    assert Places(events, Suppressed(r, d.warmupUntil)) == Places(events, early);
  }

  /** A replay of a valid data set succeeds with a chain of calls over its ticks, each bar one of the data set's. */
  lemma ReplayIsAChainOfCalls<S, E>(r: Runtime<S, E>, d: Dataset, initial: S) returns (calls: seq<Call<S, E>>)
    requires ValidDataset(d) && Replay(r, d, initial).Ok?
    ensures FollowTicks(calls, TicksUntil(d.ticks, d.replayEnd))
    ensures Leads(calls, Progress(initial, [], 0), Replay(r, d, initial).value.progress)
    ensures AllAnswered(r, BarIndex(d.bars, d.replayEnd), calls)
    ensures forall i :: 0 <= i < |calls| && calls[i].BarCall? ==>
              && calls[i].bar.closeTime <= calls[i].time && calls[i].bar.closeTime <= d.replayEnd
              && exists b :: b in d.bars && KeyOf(b) == calls[i].key && b.bar == calls[i].bar
  {
    var index := BarIndex(d.bars, d.replayEnd);
    calls := FeedingIsAChainOfCalls(r, index, Progress(initial, [], 0), TicksUntil(d.ticks, d.replayEnd));
    IndexHoldsTheBar(d.bars, d.replayEnd);
    forall i | 0 <= i < |calls| && calls[i].BarCall?
      ensures calls[i].bar.closeTime <= calls[i].time && calls[i].bar.closeTime <= d.replayEnd
      ensures exists b :: b in d.bars && KeyOf(b) == calls[i].key && b.bar == calls[i].bar
    {
      assert IsAnswered(r, index, calls[i]);
    }
  }
}
