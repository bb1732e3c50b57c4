// A limiter that lets a few things through and then spaces the rest: the arithmetic shared by the
// circuit breaker and the login lockout.
module Pacing {

  type Duration = d: real | d >= 0.0 witness 0.0

  datatype Interval = Interval(start: real, end: real)

  predicate InOrder(xs: seq<Interval>) {
    && (forall i :: 0 <= i < |xs| ==> xs[i].start <= xs[i].end)
    && (forall i :: 0 < i < |xs| ==> xs[i - 1].end <= xs[i].start)
  }

  /** Past the first `allowed` intervals, each starts at least `pause` after the one before it ended. */
  predicate Paced(xs: seq<Interval>, allowed: nat, pause: real) {
    InOrder(xs) && forall i :: 0 < i < |xs| && allowed <= i ==> xs[i].start >= xs[i - 1].end + pause
  }

  predicate Within(xs: seq<Interval>, from: real, window: real) {
    forall i :: 0 <= i < |xs| ==> from <= xs[i].start <= from + window
  }

  lemma {:induction false} Spread(xs: seq<Interval>, allowed: nat, pause: real, m: nat)
    requires Paced(xs, allowed, pause) && 1 <= allowed && m < |xs| && allowed <= m
    ensures xs[m].start - xs[allowed - 1].start >= (m - allowed + 1) as real * pause
    decreases m
  {
    assert xs[m].start >= xs[m - 1].end + pause >= xs[m - 1].start + pause;
    if m > allowed {
      Spread(xs, allowed, pause, m - 1);
      assert (m - allowed + 1) as real * pause == (m - allowed) as real * pause + pause;
    } else {
      assert (m - allowed + 1) as real * pause == pause;
    }
  }

  lemma FitsInto(k: int, pause: real, window: real)
    requires pause > 0.0 && k as real * pause <= window
    ensures k <= (window / pause).Floor
  {
    var q := window / pause;
    assert q * pause == window;
    if k as real > q {
      Scale(q, k as real, pause);
    }
  }

  lemma Scale(a: real, b: real, c: real)
    requires a < b && c > 0.0
    ensures a * c < b * c
  {
    assert (b - a) * c > 0.0;
  }

  /** However the intervals fall, a window of length `window` sees at most `allowed` and one more per pause. */
  lemma PacedBound(xs: seq<Interval>, allowed: nat, pause: real, from: real, window: real)
    requires Paced(xs, allowed, pause) && 1 <= allowed && pause > 0.0 && window >= 0.0
    requires Within(xs, from, window)
    ensures |xs| <= allowed + (window / pause).Floor
  {
    if |xs| > allowed {
      Spread(xs, allowed, pause, |xs| - 1);
      FitsInto(|xs| - allowed, pause, window);
    } else {
      FitsInto(0, pause, window);
    }
  }
}
