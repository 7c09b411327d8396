/** First and last present values of an optional field over a sequence. */
module Present {
  import opened Prelude

  function Last<E, T>(xs: seq<E>, field: E -> Option<T>): Option<T> {
    if xs == [] then None else Or(field(xs[|xs| - 1]), Last(xs[..|xs| - 1], field))
  }

  function First<E, T>(xs: seq<E>, field: E -> Option<T>): Option<T> {
    if xs == [] then None else Or(First(xs[..|xs| - 1], field), field(xs[|xs| - 1]))
  }

  lemma LastAppend<E, T>(xs: seq<E>, x: E, field: E -> Option<T>)
    ensures Last(xs + [x], field) == Or(field(x), Last(xs, field))
  {
    assert (xs + [x])[..|xs|] == xs;
  }

  lemma FirstAppend<E, T>(xs: seq<E>, x: E, field: E -> Option<T>)
    ensures First(xs + [x], field) == Or(First(xs, field), field(x))
  {
    assert (xs + [x])[..|xs|] == xs;
  }

  ghost predicate NeverPresent<E, T>(xs: seq<E>, field: E -> Option<T>) {
    forall i :: 0 <= i < |xs| ==> field(xs[i]).None?
  }

  ghost predicate IsLastPresent<E, T>(xs: seq<E>, field: E -> Option<T>, at: int) {
    0 <= at < |xs| && field(xs[at]).Some? && forall i :: at < i < |xs| ==> field(xs[i]).None?
  }

  ghost predicate IsFirstPresent<E, T>(xs: seq<E>, field: E -> Option<T>, at: int) {
    0 <= at < |xs| && field(xs[at]).Some? && forall i :: 0 <= i < at ==> field(xs[i]).None?
  }

  lemma {:induction false} LastIsTheLastPresent<E, T>(xs: seq<E>, field: E -> Option<T>)
    ensures Last(xs, field).None? <==> NeverPresent(xs, field)
    ensures Last(xs, field).Some? ==> exists at :: IsLastPresent(xs, field, at) && Last(xs, field) == field(xs[at])
  {
    if xs != [] {
      var n := |xs| - 1;
      LastIsTheLastPresent(xs[..n], field);
      if field(xs[n]).Some? {
        assert IsLastPresent(xs, field, n);
      } else if Last(xs[..n], field).Some? {
        var at :| IsLastPresent(xs[..n], field, at) && Last(xs[..n], field) == field(xs[..n][at]);
        assert IsLastPresent(xs, field, at);
      }
    }
  }

  lemma {:induction false} FirstIsTheFirstPresent<E, T>(xs: seq<E>, field: E -> Option<T>)
    ensures First(xs, field).None? <==> NeverPresent(xs, field)
    ensures First(xs, field).Some? ==> exists at :: IsFirstPresent(xs, field, at) && First(xs, field) == field(xs[at])
  {
    if xs != [] {
      var n := |xs| - 1;
      FirstIsTheFirstPresent(xs[..n], field);
      if First(xs[..n], field).Some? {
        var at :| IsFirstPresent(xs[..n], field, at) && First(xs[..n], field) == field(xs[..n][at]);
        assert IsFirstPresent(xs, field, at);
      } else if field(xs[n]).Some? {
        assert IsFirstPresent(xs, field, n);
      }
    }
  }
}
