/**
 * The streaming exponential moving average that `Series.ewm(span=..., adjust=False).mean()`
 * computes. A series is a sequence of optional reals: `None` stands for NaN. The mean is
 * undefined until the first defined sample, which seeds it; from then on each defined sample
 * moves the mean by the fraction `alpha` towards itself.
 */
module Ewm {
  import opened Wrappers

  /** The smoothing factor pandas derives from a span: 2 / (span + 1). */
  function Alpha(span: nat): (a: real)
    ensures 0.0 < a <= 2.0
    ensures span >= 1 ==> a <= 1.0
  {
    2.0 / (span as real + 1.0)
  }

  /** One step of the recurrence: a NaN sample leaves the mean as it is, the first defined
      sample seeds it, every later one mixes in with weight `alpha`. */
  function Step(mean: Option<real>, x: Option<real>, alpha: real): Option<real>
  {
    match x
    case None => mean
    case Some(v) =>
      if mean.None? then Some(v) else Some((1.0 - alpha) * mean.value + alpha * v)
  }

  /** The mean after the samples xs[0..i]. */
  function MeanAt(xs: seq<Option<real>>, alpha: real, i: nat): Option<real>
    requires i < |xs|
    decreases i
  {
    Step(if i == 0 then None else MeanAt(xs, alpha, i - 1), xs[i], alpha)
  }

  /** The whole smoothed series, index by index. */
  function Mean(xs: seq<Option<real>>, alpha: real): seq<Option<real>>
  {
    seq(|xs|, i requires 0 <= i < |xs| => MeanAt(xs, alpha, i))
  }

  /** The seeding rule: the mean is defined at i exactly when some sample at or before i is. */
  lemma {:induction false} MeanDefined(xs: seq<Option<real>>, alpha: real, i: nat)
    requires i < |xs|
    ensures MeanAt(xs, alpha, i).Some? <==> exists j :: 0 <= j <= i && xs[j].Some?
  {
    if i > 0 {
      MeanDefined(xs, alpha, i - 1);
      if MeanAt(xs, alpha, i).Some? && xs[i].None? {
        var j :| 0 <= j <= i - 1 && xs[j].Some?;
        assert 0 <= j <= i && xs[j].Some?;
      }
    }
  }

  /** The first defined sample is the mean at its own index, exactly (no windowed warm-up). */
  lemma {:induction false} MeanSeed(xs: seq<Option<real>>, alpha: real, i: nat)
    requires i < |xs| && xs[i].Some?
    requires forall j :: 0 <= j < i ==> xs[j].None?
    ensures MeanAt(xs, alpha, i) == xs[i]
  {
    if i > 0 {
      MeanDefined(xs, alpha, i - 1);
    }
  }

  /** With 0 <= alpha <= 1 the mean is a convex combination of the samples, so it never falls
      below a bound that every defined sample respects ... */
  lemma {:induction false} MeanAtLeast(xs: seq<Option<real>>, alpha: real, lo: real, i: nat)
    requires i < |xs| && 0.0 <= alpha <= 1.0
    requires forall j :: 0 <= j < |xs| && xs[j].Some? ==> lo <= xs[j].value
    ensures MeanAt(xs, alpha, i).Some? ==> lo <= MeanAt(xs, alpha, i).value
  {
    if i > 0 {
      MeanAtLeast(xs, alpha, lo, i - 1);
      var prev := MeanAt(xs, alpha, i - 1);
      if xs[i].Some? && prev.Some? {
        var beta, m, v := 1.0 - alpha, prev.value, xs[i].value;
        MulNonNegative(beta, m - lo);
        MulNonNegative(alpha, v - lo);
        assert beta * m + alpha * v - lo == beta * (m - lo) + alpha * (v - lo);
      }
    }
  }

  /** ... and never rises above a bound that every defined sample respects. */
  lemma {:induction false} MeanAtMost(xs: seq<Option<real>>, alpha: real, hi: real, i: nat)
    requires i < |xs| && 0.0 <= alpha <= 1.0
    requires forall j :: 0 <= j < |xs| && xs[j].Some? ==> xs[j].value <= hi
    ensures MeanAt(xs, alpha, i).Some? ==> MeanAt(xs, alpha, i).value <= hi
  {
    if i > 0 {
      MeanAtMost(xs, alpha, hi, i - 1);
      var prev := MeanAt(xs, alpha, i - 1);
      if xs[i].Some? && prev.Some? {
        var beta, m, v := 1.0 - alpha, prev.value, xs[i].value;
        MulNonNegative(beta, hi - m);
        MulNonNegative(alpha, hi - v);
        assert hi - (beta * m + alpha * v) == beta * (hi - m) + alpha * (hi - v);
      }
    }
  }

  lemma MulNonNegative(a: real, b: real)
    requires a >= 0.0 && b >= 0.0
    ensures a * b >= 0.0
  {
  }

  lemma MulPositive(a: real, b: real)
    requires a > 0.0 && b > 0.0
    ensures a * b > 0.0
  {
  }
}
