/** The non-overlapping admission loop that all four replay scripts share. */
module Schedule {
  import opened Prelude

  datatype Book<+E> = Book(unavailableUntil: int, executed: seq<E>, overlapping: nat, invalid: nat)

  /** One signal: skipped while a trade is running, counted when its prices are unusable, else traded. */
  function Admit<S, E>(b: Book<E>, s: S, opening: S -> int, attempt: S -> Option<E>, closed: E -> int): Book<E> {
    if opening(s) < b.unavailableUntil then b.(overlapping := b.overlapping + 1)
    else match attempt(s)
      case None => b.(invalid := b.invalid + 1)
      case Some(e) => b.(unavailableUntil := closed(e), executed := b.executed + [e])
  }

  function Run<S, E>(start: int, signals: seq<S>, opening: S -> int, attempt: S -> Option<E>,
      closed: E -> int): Book<E> {
    if signals == [] then Book(start, [], 0, 0)
    else
      var n := |signals| - 1;
      Admit(Run(start, signals[..n], opening, attempt, closed), signals[n], opening, attempt, closed)
  }

  /** No signal is lost and none is counted twice. */
  lemma {:induction false} EverySignalIsCountedOnce<S, E>(
      start: int, signals: seq<S>, opening: S -> int, attempt: S -> Option<E>, closed: E -> int)
    ensures var b := Run(start, signals, opening, attempt, closed);
            |b.executed| + b.overlapping + b.invalid == |signals|
  {
    if signals != [] {
      EverySignalIsCountedOnce(start, signals[..|signals| - 1], opening, attempt, closed);
    }
  }

  /** Every executed trade is what the attempt made of one of the signals. */
  lemma {:induction false} ExecutedComeFromSignals<S, E>(
      start: int, signals: seq<S>, opening: S -> int, attempt: S -> Option<E>, closed: E -> int)
    ensures forall e :: e in Run(start, signals, opening, attempt, closed).executed ==>
      exists s :: s in signals && attempt(s) == Some(e)
  {
    if signals != [] {
      var n := |signals| - 1;
      ExecutedComeFromSignals(start, signals[..n], opening, attempt, closed);
      forall e | e in Run(start, signals, opening, attempt, closed).executed
        ensures exists s :: s in signals && attempt(s) == Some(e)
      {
        if e in Run(start, signals[..n], opening, attempt, closed).executed {
          var s :| s in signals[..n] && attempt(s) == Some(e);
          assert s in signals;
        } else {
          assert signals[n] in signals && attempt(signals[n]) == Some(e);
        }
      }
    }
  }

  /** Trades that hold the market one at a time, in order. */
  ghost predicate OneAtATime<E>(start: int, es: seq<E>, openedAt: E -> int, closed: E -> int) {
    && (forall i :: 0 <= i < |es| ==> start <= openedAt(es[i]))
    && (forall i, j :: 0 <= i < j < |es| ==> closed(es[i]) <= openedAt(es[j]))
  }

  ghost predicate InOrder<S>(signals: seq<S>, opening: S -> int) {
    forall i, j :: 0 <= i < j < |signals| ==> opening(signals[i]) <= opening(signals[j])
  }

  /** An attempt keeps the opening time of its signal. */
  ghost predicate KeepsOpening<S(!new), E>(opening: S -> int, attempt: S -> Option<E>, openedAt: E -> int) {
    forall s :: attempt(s).Some? ==> openedAt(attempt(s).value) == opening(s)
  }

  /** Signals in order of opening are never traded while an earlier trade is still open. */
  lemma {:induction false} NeverOverlaps<S(!new), E>(
      start: int, signals: seq<S>, opening: S -> int, attempt: S -> Option<E>, openedAt: E -> int, closed: E -> int)
    requires InOrder(signals, opening) && KeepsOpening(opening, attempt, openedAt)
    ensures var b := Run(start, signals, opening, attempt, closed);
            && OneAtATime(start, b.executed, openedAt, closed)
            && b.unavailableUntil == (if b.executed == [] then start else closed(b.executed[|b.executed| - 1]))
            && (forall e :: e in b.executed && signals != [] ==> openedAt(e) <= opening(signals[|signals| - 1]))
  {
    if signals != [] {
      var n := |signals| - 1;
      NeverOverlaps(start, signals[..n], opening, attempt, openedAt, closed);
      assert n > 0 ==> opening(signals[n - 1]) <= opening(signals[n]);
      var es := Run(start, signals[..n], opening, attempt, closed).executed;
      assert n == 0 ==> es == [];
      if es != Run(start, signals, opening, attempt, closed).executed {
        JoinsInOrder(start, es, attempt(signals[n]).value, openedAt, closed);
      }
    }
  }

  lemma JoinsInOrder<E>(start: int, es: seq<E>, e: E, openedAt: E -> int, closed: E -> int)
    requires OneAtATime(start, es, openedAt, closed) && (forall f :: f in es ==> openedAt(f) <= openedAt(e))
    requires (if es == [] then start else closed(es[|es| - 1])) <= openedAt(e)
    ensures OneAtATime(start, es + [e], openedAt, closed)
  {
    if es != [] {
      assert es[0] in es && es[|es| - 1] in es;
      forall i | 0 <= i < |es| ensures closed(es[i]) <= openedAt(e) {
        assert i < |es| - 1 ==> closed(es[i]) <= openedAt(es[|es| - 1]);
      }
    }
  }

  /** A signal is skipped exactly when it opens before the start or inside an already executed trade. */
  lemma SkippedExactlyWhenBusy<S(!new), E>(
      start: int, signals: seq<S>, k: nat, opening: S -> int, attempt: S -> Option<E>, openedAt: E -> int,
        closed: E -> int)
    requires InOrder(signals, opening) && KeepsOpening(opening, attempt, openedAt) && k < |signals|
    ensures var before := Run(start, signals[..k], opening, attempt, closed);
            var after := Run(start, signals[..k + 1], opening, attempt, closed);
            after.overlapping == before.overlapping + 1 <==>
            || opening(signals[k]) < start
            || exists i :: 0 <= i < |before.executed| && opening(signals[k]) < closed(before.executed[i])
  {
    NeverOverlaps(start, signals[..k], opening, attempt, openedAt, closed);
    assert signals[..k + 1][..k] == signals[..k];
    var es := Run(start, signals[..k], opening, attempt, closed).executed;
    if es != [] {
      assert es[|es| - 1] in es;
      assert k > 0 ==> opening(signals[..k][k - 1]) <= opening(signals[k]);
      forall i | 0 <= i < |es| - 1 ensures closed(es[i]) <= openedAt(es[|es| - 1]) {}
    }
  }

  /** Two attempts that agree signal by signal give books that agree trade by trade. */
  lemma {:induction false} SameBook<S, E, F>(
      start: int, signals: seq<S>, opening: S -> int,
      attempt: S -> Option<E>, closed: E -> int, attempt': S -> Option<F>, closed': F -> int, same: (E, F) -> bool)
    requires forall s :: s in signals ==>
      && attempt(s).Some? == attempt'(s).Some?
      && (attempt(s).Some? ==>
            same(attempt(s).value, attempt'(s).value) && closed(attempt(s).value) == closed'(attempt'(s).value))
    ensures var b, b' := Run(start, signals, opening, attempt, closed), Run(start, signals, opening, attempt', closed');
            && b.unavailableUntil == b'.unavailableUntil
            && b.overlapping == b'.overlapping && b.invalid == b'.invalid
            && |b.executed| == |b'.executed|
            && (forall i :: 0 <= i < |b.executed| ==> same(b.executed[i], b'.executed[i]))
  {
    if signals != [] {
      SameBook(start, signals[..|signals| - 1], opening, attempt, closed, attempt', closed', same);
    }
  }
}
