/** Vocabulary shared by every component: options, the side of a trade, and sums of reals. */
module Prelude {
  datatype Option<+T> = None | Some(value: T)

  /** `a` when it is present, else `b`. */
  function Or<T>(a: Option<T>, b: Option<T>): Option<T> {
    if a.Some? then a else b
  }

  function Cash(o: Option<real>): real {
    if o.Some? then o.value else 0.0
  }

  datatype Side = Buy | Sell

  function Max(a: real, b: real): real {
    if a >= b then a else b
  }

  function Min(a: real, b: real): real {
    if a <= b then a else b
  }

  function Abs(a: real): real {
    if a >= 0.0 then a else -a
  }

  const DIGITS := "0123456789"

  function Decimal(n: nat): string {
    if n < 10 then [DIGITS[n]] else Decimal(n / 10) + [DIGITS[n % 10]]
  }

  /** Python's `round`: to the nearest integer, ties to the even one. */
  function RoundHalfEven(x: real): (n: int)
    ensures -0.5 <= x - n as real <= 0.5
    ensures x == x.Floor as real ==> n as real == x
  {
    var f := x.Floor;
    var d := x - f as real;
    if d < 0.5 || (d == 0.5 && f % 2 == 0) then f else f + 1
  }

  lemma RoundIsMonotone(x: real, y: real)
    requires x <= y
    ensures RoundHalfEven(x) <= RoundHalfEven(y)
  {
    var f, g := x.Floor, y.Floor;
    if f == g {
      assert x - f as real <= y - g as real;
    } else {
      assert f < g;
    }
  }

  lemma DivMonotone(a: real, b: real, d: real)
    requires d > 0.0 && a <= b
    ensures a / d <= b / d
  {
  }

  lemma QuotientIs(q: real, a: real, d: real)
    requires d > 0.0 && q * d == a
    ensures a / d == q
  {
  }

  lemma Distribute(a: real, b: real, c: real)
    ensures (a + b) * c == a * c + b * c
  {
  }

  /** Total of `f` over a sequence, in the order in which a loop would add it up. */
  function SumBy<T>(xs: seq<T>, f: T -> real): real {
    if xs == [] then 0.0 else SumBy(xs[..|xs| - 1], f) + f(xs[|xs| - 1])
  }

  function Sum(xs: seq<real>): real {
    if xs == [] then 0.0 else Sum(xs[..|xs| - 1]) + xs[|xs| - 1]
  }

  /** A nonempty sequence is its front followed by its last element. */
  lemma Snoc<T>(xs: seq<T>)
    requires xs != []
    ensures xs == xs[..|xs| - 1] + [xs[|xs| - 1]]
  {
  }

  lemma Cut<T>(xs: seq<T>, k: nat)
    requires k < |xs|
    ensures xs == (xs[..k] + [xs[k]]) + xs[k + 1..]
  {
  }

  lemma SumByAppend<T>(xs: seq<T>, x: T, f: T -> real)
    ensures SumBy(xs + [x], f) == SumBy(xs, f) + f(x)
  {
    assert (xs + [x])[..|xs|] == xs;
  }

  lemma {:induction false} SumByConcat<T>(xs: seq<T>, ys: seq<T>, f: T -> real)
    ensures SumBy(xs + ys, f) == SumBy(xs, f) + SumBy(ys, f)
  {
    if ys == [] {
      assert xs + ys == xs;
    } else {
      var n := |ys| - 1;
      SumByConcat(xs, ys[..n], f);
      assert xs + ys == (xs + ys[..n]) + [ys[n]];
      SumByAppend(xs + ys[..n], ys[n], f);
    }
  }

  lemma SumByMiddle<T>(before: seq<T>, x: T, after: seq<T>, f: T -> real)
    ensures SumBy((before + [x]) + after, f) == SumBy(before + after, f) + f(x)
  {
    SumByConcat(before + [x], after, f);
    SumByAppend(before, x, f);
    SumByConcat(before, after, f);
  }

  /** Taking one element out of a sequence takes its share out of the total. */
  lemma SumByRemove<T>(xs: seq<T>, k: nat, f: T -> real)
    requires k < |xs|
    ensures SumBy(xs, f) == SumBy(xs[..k] + xs[k + 1..], f) + f(xs[k])
  {
    Cut(xs, k);
    SumByMiddle(xs[..k], xs[k], xs[k + 1..], f);
  }

  lemma {:induction false} SumBySplit<T>(xs: seq<T>, f: T -> real, g: T -> real, h: T -> real)
    requires forall i :: 0 <= i < |xs| ==> f(xs[i]) == g(xs[i]) + h(xs[i])
    ensures SumBy(xs, f) == SumBy(xs, g) + SumBy(xs, h)
  {
    if xs != [] {
      SumBySplit(xs[..|xs| - 1], f, g, h);
    }
  }

  ghost predicate NoRepeats<T>(xs: seq<T>) {
    forall i, j :: 0 <= i < j < |xs| ==> xs[i] != xs[j]
  }

  /** Distinct values that all occur in a sequence are no more than it is long. */
  lemma {:induction false} NoRepeatsFit<T>(xs: seq<T>, ys: seq<T>)
    requires NoRepeats(xs) && forall x :: x in xs ==> x in ys
    ensures |xs| <= |ys|
  {
    if xs != [] {
      var n := |xs| - 1;
      assert xs[n] in xs;
      var k :| 0 <= k < |ys| && ys[k] == xs[n];
      var rest := ys[..k] + ys[k + 1..];
      forall x | x in xs[..n] ensures x in rest {
        assert x in xs;
        var j :| 0 <= j < |ys| && ys[j] == x;
        assert rest[if j < k then j else j - 1] == x;
      }
      NoRepeatsFit(xs[..n], rest);
    }
  }
}
