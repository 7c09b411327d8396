/** The causal replay of a data set through an event-driven runtime. */
module CausalReplay {
  import opened Prelude
  import opened Contracts

  datatype Timeframe = M1 | M5 | M15 | H1 | D1

  datatype BarKey = BarKey(timeframe: Timeframe, openTime: int)

  datatype ReplayBar = ReplayBar(timeframe: Timeframe, bar: Bar)

  function Duration(t: Timeframe): int {
    match t
    case M1 => 60
    case M5 => 300
    case M15 => 900
    case H1 => 3600
    case D1 => 86400
  }

  /** The pure event-driven runtime, with state `S` and event `E`; one call per tick and per closed bar it asks for. */
  datatype Runtime<!S, !E> = Runtime(
    onTick: (S, Tick) -> Output<S, E>,
    onBarClose: (S, BarKey, Bar) -> BarOutput<S, E>,
    isDecision: E -> bool,
    semanticTime: E -> int)

  datatype Output<+S, +E> = Output(next: S, events: seq<E>, requests: seq<BarKey>)

  datatype BarOutput<+S, +E> = BarOutput(next: S, events: seq<E>)

  datatype Error = NoTick | BarUnavailable(key: BarKey) | FutureBar(key: BarKey)

  datatype Result<+T> = Ok(value: T) | Err(error: Error)

  /** What the loop carries: state, events so far, bars consumed so far. */
  datatype Progress<+S, +E> = Progress(state: S, events: seq<E>, closedBars: nat)

  datatype Dataset = Dataset(ticks: seq<Tick>, bars: seq<ReplayBar>, warmupUntil: int, replayEnd: int)

  /** What construction of a data set enforces. */
  ghost predicate ValidDataset(d: Dataset) {
    && d.warmupUntil <= d.replayEnd
    && (forall i, j :: 0 <= i < j < |d.ticks| ==> d.ticks[i].time < d.ticks[j].time)
    && (forall i, j :: 0 <= i < j < |d.bars| ==> KeyOf(d.bars[i]) != KeyOf(d.bars[j]))
    && (forall b :: b in d.bars ==> b.bar.closeTime - b.bar.openTime == Duration(b.timeframe))
  }

  function KeyOf(b: ReplayBar): BarKey {
    BarKey(b.timeframe, b.bar.openTime)
  }

  /** Bars that have closed by the end of the replay, by timeframe and opening time. */
  function BarIndex(bars: seq<ReplayBar>, replayEnd: int): map<BarKey, Bar> {
    if bars == [] then map[]
    else
      var n := |bars| - 1;
      var before := BarIndex(bars[..n], replayEnd);
      if bars[n].bar.closeTime <= replayEnd then before[KeyOf(bars[n]) := bars[n].bar] else before
  }

  function TicksUntil(ticks: seq<Tick>, replayEnd: int): seq<Tick> {
    if ticks == [] then []
    else
      var n := |ticks| - 1;
      var before := TicksUntil(ticks[..n], replayEnd);
      if ticks[n].time <= replayEnd then before + [ticks[n]] else before
  }

  /** The requests of one tick, in order; a missing bar or one that closes after the tick aborts the replay. */
  function ServeRequests<S, E>(r: Runtime<S, E>, index: map<BarKey, Bar>, time: int, p: Progress<S, E>,
      requests: seq<BarKey>)
    : Result<Progress<S, E>>
    decreases |requests|
  {
    if requests == [] then Ok(p)
    else
      var key := requests[0];
      if key !in index then Err(BarUnavailable(key))
      else if index[key].closeTime > time then Err(FutureBar(key))
      else
        var out := r.onBarClose(p.state, key, index[key]);
        ServeRequests(r, index, time, Progress(out.next, p.events + out.events, p.closedBars + 1), requests[1..])
  }

  function OnTick<S, E>(r: Runtime<S, E>, index: map<BarKey, Bar>, p: Progress<S, E>,
      tick: Tick): Result<Progress<S, E>> {
    var fast := r.onTick(p.state, tick);
    ServeRequests(r, index, tick.time, Progress(fast.next, p.events + fast.events, p.closedBars), fast.requests)
  }

  function Feed<S, E>(r: Runtime<S, E>, index: map<BarKey, Bar>, p: Progress<S, E>,
      ticks: seq<Tick>): Result<Progress<S, E>>
    decreases |ticks|
  {
    if ticks == [] then Ok(p)
    else match OnTick(r, index, p, ticks[0])
      case Err(e) => Err(e)
      case Ok(q) => Feed(r, index, q, ticks[1..])
  }

  datatype Report<+S, +E> = Report(
    fromTime: int, toTime: int, tickCount: nat, decisions: nat, suppressed: nat, progress: Progress<S, E>)

  function CountBy<E>(events: seq<E>, f: E -> bool): nat {
    if events == [] then 0 else CountBy(events[..|events| - 1], f) + if f(events[|events| - 1]) then 1 else 0
  }

  /** Decisions taken before the warm-up ended. */
  function Suppressed<S, E>(r: Runtime<S, E>, warmupUntil: int): E -> bool {
    e => r.isDecision(e) && r.semanticTime(e) < warmupUntil
  }

  function ReportOf<S, E>(r: Runtime<S, E>, d: Dataset, ticks: seq<Tick>, p: Progress<S, E>): Report<S, E>
    requires ticks != []
  {
    Report(ticks[0].time, ticks[|ticks| - 1].time, |ticks|,
           CountBy(p.events, r.isDecision), CountBy(p.events, Suppressed(r, d.warmupUntil)), p)
  }

  function Replay<S, E>(r: Runtime<S, E>, d: Dataset, initial: S): Result<Report<S, E>> {
    var ticks := TicksUntil(d.ticks, d.replayEnd);
    if ticks == [] then Err(NoTick)
    else match Feed(r, BarIndex(d.bars, d.replayEnd), Progress(initial, [], 0), ticks)
      case Err(e) => Err(e)
      case Ok(p) => Ok(ReportOf(r, d, ticks, p))
  }

  method Run<S, E>(r: Runtime<S, E>, d: Dataset, initial: S) returns (report: Result<Report<S, E>>)
    ensures report == Replay(r, d, initial)
  {
    var index := BarIndex(d.bars, d.replayEnd);
    var ticks := TicksUntil(d.ticks, d.replayEnd);
    if ticks == [] {
      return Err(NoTick);
    }
    var state, events, closedBars := initial, [], 0;
    ghost var whole := Feed(r, index, Progress(initial, [], 0), ticks);
    for n := 0 to |ticks|
      invariant Feed(r, index, Progress(state, events, closedBars), ticks[n..]) == whole
    {
      var tick := ticks[n];
      var fast := r.onTick(state, tick);
      state, events := fast.next, events + fast.events;
      assert ticks[n..][1..] == ticks[n + 1..];
      ghost var served := ServeRequests(r, index, tick.time, Progress(state, events, closedBars), fast.requests);
      for m := 0 to |fast.requests|
        invariant ServeRequests(r, index, tick.time, Progress(state, events, closedBars), fast.requests[m..]) == served
      {
        var request := fast.requests[m];
        assert fast.requests[m..][1..] == fast.requests[m + 1..];
        if request !in index {
          return Err(BarUnavailable(request));
        }
        if index[request].closeTime > tick.time {
          return Err(FutureBar(request));
        }
        var output := r.onBarClose(state, request, index[request]);
        state, events, closedBars := output.next, events + output.events, closedBars + 1;
      }
    }
    return Ok(ReportOf(r, d, ticks, Progress(state, events, closedBars)));
  }

  // ---- Resumable ----

  /** Feeding two stretches of ticks is feeding the first and resuming from where it stopped. */
  lemma {:induction false} FeedIsResumable<S, E>(
      r: Runtime<S, E>, index: map<BarKey, Bar>, p: Progress<S, E>, a: seq<Tick>, b: seq<Tick>)
    ensures Feed(r, index, p, a + b)
         == match Feed(r, index, p, a)
            case Err(e) => Err(e)
            case Ok(q) => Feed(r, index, q, b)
    decreases |a|
  {
    if a == [] {
      assert a + b == b;
    } else {
      assert (a + b)[0] == a[0] && (a + b)[1..] == a[1..] + b;
      match OnTick(r, index, p, a[0])
      case Err(_) =>
      case Ok(q) => FeedIsResumable(r, index, q, a[1..], b);
    }
  }

  /** `q` is `p` with the events and bars of `base` put in front. */
  function Prefixed<S, E>(base: Progress<S, E>, p: Progress<S, E>): Progress<S, E> {
    Progress(p.state, base.events + p.events, base.closedBars + p.closedBars)
  }

  function PrefixedResult<S, E>(base: Progress<S, E>, r: Result<Progress<S, E>>): Result<Progress<S, E>> {
    match r
    case Err(e) => Err(e)
    case Ok(p) => Ok(Prefixed(base, p))
  }

  lemma {:induction false} ServeAppends<S, E>(
      r: Runtime<S, E>, index: map<BarKey, Bar>, time: int, base: Progress<S, E>, p: Progress<S, E>,
        requests: seq<BarKey>)
    ensures ServeRequests(r, index, time, Prefixed(base, p), requests)
         == PrefixedResult(base, ServeRequests(r, index, time, p, requests))
    decreases |requests|
  {
    if requests != [] && requests[0] in index && index[requests[0]].closeTime <= time {
      var out := r.onBarClose(p.state, requests[0], index[requests[0]]);
      var q := Progress(out.next, p.events + out.events, p.closedBars + 1);
      ServeAppends(r, index, time, base, q, requests[1..]);
      assert base.events + (p.events + out.events) == (base.events + p.events) + out.events;
    }
  }

  lemma {:induction false} FeedAppends<S, E>(
      r: Runtime<S, E>, index: map<BarKey, Bar>, base: Progress<S, E>, p: Progress<S, E>, ticks: seq<Tick>)
    ensures Feed(r, index, Prefixed(base, p), ticks) == PrefixedResult(base, Feed(r, index, p, ticks))
    decreases |ticks|
  {
    if ticks != [] {
      var fast := r.onTick(p.state, ticks[0]);
      var q := Progress(fast.next, p.events + fast.events, p.closedBars);
      ServeAppends(r, index, ticks[0].time, base, q, fast.requests);
      assert base.events + (p.events + fast.events) == (base.events + p.events) + fast.events;
      match OnTick(r, index, p, ticks[0])
      case Err(_) =>
      case Ok(next) => FeedAppends(r, index, base, next, ticks[1..]);
    }
  }

  /**
   * A replay interrupted after `a` and restarted on `b` from the saved state reports the same final state,
   * the concatenated events and the summed bar count.
   */
  lemma RestartIsSeamless<S, E>(r: Runtime<S, E>, index: map<BarKey, Bar>, initial: S, a: seq<Tick>, b: seq<Tick>)
    ensures Feed(r, index, Progress(initial, [], 0), a + b)
         == match Feed(r, index, Progress(initial, [], 0), a)
            case Err(e) => Err(e)
            case Ok(first) => PrefixedResult(first, Feed(r, index, Progress(first.state, [], 0), b))
  {
    FeedIsResumable(r, index, Progress(initial, [], 0), a, b);
    match Feed(r, index, Progress(initial, [], 0), a)
    case Err(_) =>
    case Ok(first) =>
      assert first.events + [] == first.events;
      FeedAppends(r, index, first, Progress(first.state, [], 0), b);
  }

  lemma {:induction false} CountConcat<E>(a: seq<E>, b: seq<E>, f: E -> bool)
    ensures CountBy(a + b, f) == CountBy(a, f) + CountBy(b, f)
  {
    if b == [] {
      assert a + b == a;
    } else {
      var n := |b| - 1;
      assert (a + b)[..|a| + n] == a + b[..n] && (a + b)[|a| + n] == b[n];
      CountConcat(a, b[..n], f);
    }
  }

  /** The decision and warm-up counts of an interrupted replay add up to those of the whole. */
  lemma CountsAdd<S, E>(r: Runtime<S, E>, warmupUntil: int, first: Progress<S, E>, second: Progress<S, E>)
    ensures var whole := Prefixed(first, second);
            && CountBy(whole.events, r.isDecision)
               == CountBy(first.events, r.isDecision) + CountBy(second.events, r.isDecision)
            && CountBy(whole.events, Suppressed(r, warmupUntil))
               == CountBy(first.events, Suppressed(r, warmupUntil)) + CountBy(second.events, Suppressed(r, warmupUntil))
  {
    CountConcat(first.events, second.events, r.isDecision);
    CountConcat(first.events, second.events, Suppressed(r, warmupUntil));
  }

  // ---- Causal ----

  /** Bars closed by `time` are the same in both indexes. */
  ghost predicate AgreeUntil(x: map<BarKey, Bar>, y: map<BarKey, Bar>, time: int) {
    forall key :: key in x && x[key].closeTime <= time ==> key in y && y[key] == x[key]
  }

  lemma {:induction false} ServingSeesNoFuture<S, E>(
      r: Runtime<S, E>, x: map<BarKey, Bar>, y: map<BarKey, Bar>, time: int, p: Progress<S, E>, requests: seq<BarKey>)
    requires AgreeUntil(x, y, time) && ServeRequests(r, x, time, p, requests).Ok?
    ensures ServeRequests(r, y, time, p, requests) == ServeRequests(r, x, time, p, requests)
    decreases |requests|
  {
    if requests != [] {
      var out := r.onBarClose(p.state, requests[0], x[requests[0]]);
      ServingSeesNoFuture(r, x, y, time, Progress(out.next, p.events + out.events, p.closedBars + 1), requests[1..]);
    }
  }

  /**
   * No bar that closes after the last tick can influence a replay: exchanging or dropping such bars changes
   * nothing.
   */
  lemma {:induction false} FeedSeesNoFuture<S, E>(
      r: Runtime<S, E>, x: map<BarKey, Bar>, y: map<BarKey, Bar>, last: int, p: Progress<S, E>, ticks: seq<Tick>)
    requires AgreeUntil(x, y, last) && Feed(r, x, p, ticks).Ok?
    requires forall t :: t in ticks ==> t.time <= last
    ensures Feed(r, y, p, ticks) == Feed(r, x, p, ticks)
    decreases |ticks|
  {
    if ticks != [] {
      var fast := r.onTick(p.state, ticks[0]);
      assert ticks[0] in ticks;
      ServingSeesNoFuture(r, x, y, ticks[0].time, Progress(fast.next, p.events + fast.events, p.closedBars),
        fast.requests);
      FeedSeesNoFuture(r, x, y, last, OnTick(r, x, p, ticks[0]).value, ticks[1..]);
    }
  }

  lemma {:induction false} IndexIgnoresLateBars(bars: seq<ReplayBar>, late: seq<ReplayBar>, replayEnd: int)
    requires forall b :: b in late ==> b.bar.closeTime > replayEnd
    ensures BarIndex(bars + late, replayEnd) == BarIndex(bars, replayEnd)
  {
    if late == [] {
      assert bars + late == bars;
    } else {
      var n := |late| - 1;
      assert (bars + late)[..|bars| + n] == bars + late[..n] && (bars + late)[|bars| + n] == late[n];
      assert late[n] in late;
      IndexIgnoresLateBars(bars, late[..n], replayEnd);
    }
  }

  lemma {:induction false} LateTicksAreDropped(ticks: seq<Tick>, late: seq<Tick>, replayEnd: int)
    requires forall t :: t in late ==> t.time > replayEnd
    ensures TicksUntil(ticks + late, replayEnd) == TicksUntil(ticks, replayEnd)
  {
    if late == [] {
      assert ticks + late == ticks;
    } else {
      var n := |late| - 1;
      assert (ticks + late)[..|ticks| + n] == ticks + late[..n] && (ticks + late)[|ticks| + n] == late[n];
      assert late[n] in late;
      LateTicksAreDropped(ticks, late[..n], replayEnd);
    }
  }

  /** Ticks and bars after the end of the replay never change its report, nor whether it fails. */
  lemma ReportIgnoresTheFuture<S, E>(
      r: Runtime<S, E>, d: Dataset, lateTicks: seq<Tick>, lateBars: seq<ReplayBar>, initial: S)
    requires forall t :: t in lateTicks ==> t.time > d.replayEnd
    requires forall b :: b in lateBars ==> b.bar.closeTime > d.replayEnd
    ensures Replay(r, d.(ticks := d.ticks + lateTicks, bars := d.bars + lateBars), initial) == Replay(r, d, initial)
  {
    IndexIgnoresLateBars(d.bars, lateBars, d.replayEnd);
    LateTicksAreDropped(d.ticks, lateTicks, d.replayEnd);
  }

  lemma {:induction false} IndexHoldsTheBar(bars: seq<ReplayBar>, replayEnd: int)
    requires forall i, j :: 0 <= i < j < |bars| ==> KeyOf(bars[i]) != KeyOf(bars[j])
    ensures forall b :: b in bars && b.bar.closeTime <= replayEnd ==>
      KeyOf(b) in BarIndex(bars, replayEnd) && BarIndex(bars, replayEnd)[KeyOf(b)] == b.bar
    ensures forall key :: key in BarIndex(bars, replayEnd) ==>
      exists b ::
        b in bars && KeyOf(b) == key && b.bar == BarIndex(bars, replayEnd)[key] && b.bar.closeTime <= replayEnd
  {
    if bars != [] {
      var n := |bars| - 1;
      var rest := bars[..n];
      IndexHoldsTheBar(rest, replayEnd);
      assert bars == rest + [bars[n]];
      forall b | b in rest ensures KeyOf(b) != KeyOf(bars[n]) {
        var i :| 0 <= i < n && rest[i] == b;
        assert bars[i] == b;
      }
      forall key | key in BarIndex(bars, replayEnd)
        ensures exists b ::
          b in bars && KeyOf(b) == key && b.bar == BarIndex(bars, replayEnd)[key] && b.bar.closeTime <= replayEnd
      {
        if key in BarIndex(rest, replayEnd) && (bars[n].bar.closeTime > replayEnd || key != KeyOf(bars[n])) {
          var b :| b in rest && KeyOf(b) == key && b.bar == BarIndex(rest, replayEnd)[key]
            && b.bar.closeTime <= replayEnd;
          assert b in bars;
        } else {
          assert bars[n] in bars && KeyOf(bars[n]) == key;
        }
      }
    }
  }

  /**
   * Two valid data sets with the same ticks, the same warm-up and end, and the same bars up to the last tick give
   * the same report whenever the first one succeeds.
   */
  lemma ReportDependsOnThePastOnly<S, E>(r: Runtime<S, E>, d: Dataset, d': Dataset, last: int, initial: S)
    requires ValidDataset(d) && ValidDataset(d')
    requires d.ticks == d'.ticks && d.replayEnd == d'.replayEnd && d.warmupUntil == d'.warmupUntil
    requires forall t :: t in TicksUntil(d.ticks, d.replayEnd) ==> t.time <= last
    requires forall b :: b in d.bars && b.bar.closeTime <= last ==> b in d'.bars
    requires Replay(r, d, initial).Ok?
    ensures Replay(r, d', initial) == Replay(r, d, initial)
  {
    var x, y := BarIndex(d.bars, d.replayEnd), BarIndex(d'.bars, d.replayEnd);
    IndexHoldsTheBar(d.bars, d.replayEnd);
    IndexHoldsTheBar(d'.bars, d.replayEnd);
    forall key | key in x && x[key].closeTime <= last ensures key in y && y[key] == x[key] {
      var b :| b in d.bars && KeyOf(b) == key && b.bar == x[key] && b.bar.closeTime <= d.replayEnd;
      assert b in d'.bars;
    }
    FeedSeesNoFuture(r, x, y, last, Progress(initial, [], 0), TicksUntil(d.ticks, d.replayEnd));
  }
}
