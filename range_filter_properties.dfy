/**
 * What the range filter promises: a non-negative range defined from the second candle on,
 * a filter that stays within the band around the price, a direction and a trend register that
 * never fall back to "undetermined", BUY and SELL only on a flip of the trend, strictly
 * alternating, and a flat market that never signals.
 */
module IndicatorProperties {
  import opened Wrappers
  import Ewm
  import opened Indicator

  // ---------------------------------------------------------------- range

  /** A series that is NaN at index 0 and defined from index 1 on. */
  predicate DefinedFromSecond(xs: seq<Option<real>>)
  {
    && (|xs| > 0 ==> xs[0].None?)
    && (forall i :: 1 <= i < |xs| ==> xs[i].Some?)
  }

  /** Smoothing keeps that shape, and a lower bound of the samples. */
  lemma MeanFromSecondAtLeast(xs: seq<Option<real>>, alpha: real, lo: real)
    requires DefinedFromSecond(xs) && 0.0 <= alpha <= 1.0
    requires forall i :: 1 <= i < |xs| ==> xs[i].value >= lo
    ensures DefinedFromSecond(Ewm.Mean(xs, alpha))
    ensures forall i :: 1 <= i < |xs| ==> Ewm.Mean(xs, alpha)[i].value >= lo
  {
    forall i | 0 <= i < |xs|
      ensures Ewm.MeanAt(xs, alpha, i).Some? <==> i >= 1
      ensures Ewm.MeanAt(xs, alpha, i).Some? ==> Ewm.MeanAt(xs, alpha, i).value >= lo
    {
      Ewm.MeanDefined(xs, alpha, i);
      Ewm.MeanAtLeast(xs, alpha, lo, i);
    }
  }

  /** Smoothing a series whose defined samples are all zero gives zeros. */
  lemma MeanFromSecondZero(xs: seq<Option<real>>, alpha: real)
    requires DefinedFromSecond(xs) && 0.0 <= alpha <= 1.0
    requires forall i :: 1 <= i < |xs| ==> xs[i].value == 0.0
    ensures DefinedFromSecond(Ewm.Mean(xs, alpha))
    ensures forall i :: 1 <= i < |xs| ==> Ewm.Mean(xs, alpha)[i].value == 0.0
  {
    MeanFromSecondAtLeast(xs, alpha, 0.0);
    forall i | 1 <= i < |xs|
      ensures Ewm.MeanAt(xs, alpha, i).value <= 0.0
    {
      Ewm.MeanAtMost(xs, alpha, 0.0, i);
    }
  }

  lemma AbsChangeShape(avg: seq<real>)
    ensures DefinedFromSecond(AbsChange(avg))
    ensures forall i :: 1 <= i < |avg| ==> AbsChange(avg)[i].value >= 0.0
  {
  }

  lemma AbsChangeFlat(avg: seq<real>, c: real)
    requires forall i :: 0 <= i < |avg| ==> avg[i] == c
    ensures DefinedFromSecond(AbsChange(avg))
    ensures forall i :: 1 <= i < |avg| ==> AbsChange(avg)[i].value == 0.0
  {
  }

  lemma ScaleShape(q: real, xs: seq<Option<real>>)
    requires DefinedFromSecond(xs)
    ensures DefinedFromSecond(Scale(q, xs))
    ensures forall i :: 1 <= i < |xs| ==> Scale(q, xs)[i].value == q * xs[i].value
  {
  }

  /** `rng_qty * ac` is defined from the second candle on, and non-negative when the
      multiplier is. */
  lemma ScaledChangeNonNegative(hs: seq<real>, ls: seq<real>, s: Settings)
    requires |hs| == |ls| && s.rngPer >= 1 && s.rngQty >= 0.0
    ensures DefinedFromSecond(ScaledChange(hs, ls, s))
    ensures forall i :: 1 <= i < |hs| ==> ScaledChange(hs, ls, s)[i].value >= 0.0
  {
    var ch := AbsChange(AvgPrice(hs, ls));
    AbsChangeShape(AvgPrice(hs, ls));
    MeanFromSecondAtLeast(ch, Ewm.Alpha(s.rngPer), 0.0);
    ScaleNonNegative(s.rngQty, Ewm.Mean(ch, Ewm.Alpha(s.rngPer)));
  }

  lemma ScaleNonNegative(q: real, xs: seq<Option<real>>)
    requires q >= 0.0 && DefinedFromSecond(xs)
    requires forall i :: 1 <= i < |xs| ==> xs[i].value >= 0.0
    ensures DefinedFromSecond(Scale(q, xs))
    ensures forall i :: 1 <= i < |xs| ==> Scale(q, xs)[i].value >= 0.0
  {
    ScaleShape(q, xs);
    forall i | 1 <= i < |xs|
      ensures q * xs[i].value >= 0.0
    {
      Ewm.MulNonNegative(q, xs[i].value);
    }
  }

  /** The range is NaN at the first candle only, and from the second candle on it is a
      non-negative real whenever the multiplier is non-negative. */
  lemma RangeNonNegative(hs: seq<real>, ls: seq<real>, s: Settings)
    requires |hs| == |ls| && s.rngPer >= 1 && s.rngQty >= 0.0
    ensures |RangeSeries(hs, ls, s)| == |hs|
    ensures DefinedFromSecond(RangeSeries(hs, ls, s))
    ensures forall i :: 1 <= i < |hs| ==> RangeSeries(hs, ls, s)[i].value >= 0.0
  {
    ScaledChangeNonNegative(hs, ls, s);
    if s.smoothRange {
      MeanFromSecondAtLeast(ScaledChange(hs, ls, s), Ewm.Alpha(s.rngPer), 0.0);
    }
  }

  lemma ScaledChangeFlat(hs: seq<real>, s: Settings, c: real)
    requires s.rngPer >= 1
    requires forall i :: 0 <= i < |hs| ==> hs[i] == c
    ensures DefinedFromSecond(ScaledChange(hs, hs, s))
    ensures forall i :: 1 <= i < |hs| ==> ScaledChange(hs, hs, s)[i].value == 0.0
  {
    AvgPriceFlat(hs, c);
    var avg := AvgPrice(hs, hs);
    AbsChangeFlat(avg, c);
    MeanFromSecondZero(AbsChange(avg), Ewm.Alpha(s.rngPer));
    ScaleZero(s.rngQty, Ewm.Mean(AbsChange(avg), Ewm.Alpha(s.rngPer)));
  }

  lemma AvgPriceFlat(hs: seq<real>, c: real)
    requires forall i :: 0 <= i < |hs| ==> hs[i] == c
    ensures forall i :: 0 <= i < |hs| ==> AvgPrice(hs, hs)[i] == c
  {
  }

  lemma ScaleZero(q: real, xs: seq<Option<real>>)
    requires DefinedFromSecond(xs)
    requires forall i :: 1 <= i < |xs| ==> xs[i].value == 0.0
    ensures DefinedFromSecond(Scale(q, xs))
    ensures forall i :: 1 <= i < |xs| ==> Scale(q, xs)[i].value == 0.0
  {
    ScaleShape(q, xs);
  }

  /** On a flat market every defined range value is zero. */
  lemma ConstantRangeZero(hs: seq<real>, s: Settings, c: real)
    requires s.rngPer >= 1
    requires forall i :: 0 <= i < |hs| ==> hs[i] == c
    ensures |RangeSeries(hs, hs, s)| == |hs|
    ensures forall i :: 1 <= i < |hs| ==> RangeSeries(hs, hs, s)[i] == Some(0.0)
  {
    ScaledChangeFlat(hs, s, c);
    if s.smoothRange {
      MeanFromSecondZero(ScaledChange(hs, hs, s), Ewm.Alpha(s.rngPer));
    }
  }

  // ---------------------------------------------------------------- raw filter

  function Min(a: real, b: real): real { if a <= b then a else b }
  function Max(a: real, b: real): real { if a <= b then b else a }

  /** From the second candle on, the raw filter lies between `high - range` and
      `low + range`: it is pulled to one edge of the band, or already inside it. */
  lemma FilterRawWithinBand(hs: seq<real>, ls: seq<real>, rng: seq<Option<real>>, i: nat)
    requires |hs| == |ls| == |rng| && 1 <= i < |hs| && rng[i].Some?
    ensures Min(hs[i] - rng[i].value, ls[i] + rng[i].value)
      <= FilterRaw(hs, ls, rng)[i]
      <= Max(hs[i] - rng[i].value, ls[i] + rng[i].value)
  {
    assert FilterRaw(hs, ls, rng)[i] == FilterRawAt(hs, ls, rng, i);
  }

  /** With the close as price source the filter stays within one range of the close. */
  lemma FilterTracksClose(closes: seq<real>, s: Settings)
    requires s.rngPer >= 1 && s.rngQty >= 0.0
    ensures forall i :: 1 <= i < |closes| ==>
      var r := RangeSeries(closes, closes, s)[i];
      var f := FilterRaw(closes, closes, RangeSeries(closes, closes, s))[i];
      r.Some? && closes[i] - r.value <= f <= closes[i] + r.value
  {
    var rng := RangeSeries(closes, closes, s);
    RangeNonNegative(closes, closes, s);
    forall i | 1 <= i < |closes|
      ensures closes[i] - rng[i].value <= FilterRaw(closes, closes, rng)[i] <= closes[i] + rng[i].value
    {
      FilterRawWithinBand(closes, closes, rng, i);
    }
  }

  /** A flat market with a zero range leaves the filter where it started. */
  lemma {:induction false} ConstantFilterRaw(hs: seq<real>, rng: seq<Option<real>>, c: real, i: nat)
    requires |hs| == |rng| && i < |hs|
    requires forall j :: 0 <= j < |hs| ==> hs[j] == c
    requires forall j :: 1 <= j < |hs| ==> rng[j] == Some(0.0)
    ensures FilterRawAt(hs, hs, rng, i) == c
  {
    if i > 0 {
      ConstantFilterRaw(hs, rng, c, i - 1);
    }
  }

  /** A raw filter that never changes is also the averaged filter: the register is seeded
      with it at index 0 and never moves again. */
  lemma {:induction false} ConstantConditionalEma(raw: seq<real>, alpha: real, c: real, i: nat)
    requires i < |raw|
    requires forall j :: 0 <= j < |raw| ==> raw[j] == c
    ensures LastEmaAt(raw, alpha, i) == Some(c)
  {
    if i > 0 {
      ConstantConditionalEma(raw, alpha, c, i - 1);
    }
  }

  /** With averaging on, the filter starts at the raw filter, holds where the raw filter held,
      and elsewhere moves the fraction 2/(avSamples+1) of the way to the raw filter. */
  lemma AveragedFilterSteps(raw: seq<real>, s: Settings)
    requires s.avVals
    ensures |raw| > 0 ==> FilterColumn(raw, s)[0] == raw[0]
    ensures forall i :: 1 <= i < |raw| && raw[i] == raw[i - 1] ==>
      FilterColumn(raw, s)[i] == FilterColumn(raw, s)[i - 1]
    ensures forall i :: 1 <= i < |raw| && raw[i] != raw[i - 1] ==>
      FilterColumn(raw, s)[i]
        == FilterColumn(raw, s)[i - 1] + Ewm.Alpha(s.avSamples) * (raw[i] - FilterColumn(raw, s)[i - 1])
  {
    var alpha := Ewm.Alpha(s.avSamples);
    var e := ConditionalEma(raw, alpha);
    ConditionalEmaSteps(raw, alpha);
    assert Ffill(e) == e;
    var f := FilterColumn(raw, s);
    assert forall i :: 0 <= i < |raw| ==> f[i] == e[i].value;
  }

  // ---------------------------------------------------------------- rising prices

  /** With the close as price source and a non-negative range, a non-decreasing close series
      drives the raw filter up like a ratchet: it never falls and never rises above the close. */
  lemma {:induction false} RawMonotone(cs: seq<real>, rng: seq<Option<real>>, i: nat)
    requires |cs| == |rng| && i < |cs|
    requires forall j :: 1 <= j < |cs| ==> cs[j - 1] <= cs[j]
    requires forall j :: 1 <= j < |cs| ==> rng[j].Some? && rng[j].value >= 0.0
    ensures FilterRawAt(cs, cs, rng, i) <= cs[i]
    ensures i > 0 ==> FilterRawAt(cs, cs, rng, i - 1) <= FilterRawAt(cs, cs, rng, i)
  {
    if i > 0 {
      RawMonotone(cs, rng, i - 1);
    }
  }

  /** With a factor in [0, 1], the conditional average of a non-decreasing raw filter never
      falls and never rises above the raw filter. */
  lemma {:induction false} EmaMonotone(raw: seq<real>, alpha: real, i: nat)
    requires i < |raw| && 0.0 <= alpha <= 1.0
    requires forall j :: 1 <= j < |raw| ==> raw[j - 1] <= raw[j]
    ensures LastEmaAt(raw, alpha, i).value <= raw[i]
    ensures i > 0 ==> LastEmaAt(raw, alpha, i - 1).value <= LastEmaAt(raw, alpha, i).value
  {
    if i > 0 {
      EmaMonotone(raw, alpha, i - 1);
      if Changed(raw, i) {
        UpdateBetween(LastEmaAt(raw, alpha, i - 1).value, raw[i], alpha);
      }
    }
  }

  /** A step towards x that starts below x ends between the start and x. */
  lemma UpdateBetween(last: real, x: real, alpha: real)
    requires last <= x && 0.0 <= alpha <= 1.0
    ensures last <= EmaUpdate(last, x, alpha) <= x
  {
    var gap := x - last;
    Ewm.MulNonNegative(alpha, gap);
    Ewm.MulNonNegative(1.0 - alpha, gap);
    assert x - EmaUpdate(last, x, alpha) == (1.0 - alpha) * gap;
  }

  /** The averaged filter column of a non-decreasing raw filter never falls. */
  lemma AveragedMonotone(raw: seq<real>, s: Settings)
    requires s.avVals && s.avSamples >= 1
    requires forall j :: 1 <= j < |raw| ==> raw[j - 1] <= raw[j]
    ensures var f := FilterColumn(raw, s); forall j :: 1 <= j < |raw| ==> f[j - 1] <= f[j]
  {
    var alpha := Ewm.Alpha(s.avSamples);
    var e := ConditionalEma(raw, alpha);
    ConditionalEmaSteps(raw, alpha);
    assert Ffill(e) == e;
    var f := FilterColumn(raw, s);
    forall j | 1 <= j < |raw|
      ensures f[j - 1] <= f[j]
    {
      EmaMonotone(raw, alpha, j);
      assert f[j] == LastEmaAt(raw, alpha, j).value;
      assert f[j - 1] == LastEmaAt(raw, alpha, j - 1).value;
    }
  }

  /** The raw filter of a non-decreasing close series under a non-negative range never falls. */
  lemma RawSeriesMonotone(cs: seq<real>, rng: seq<Option<real>>)
    requires |cs| == |rng|
    requires forall j :: 1 <= j < |cs| ==> cs[j - 1] <= cs[j]
    requires forall j :: 1 <= j < |cs| ==> rng[j].Some? && rng[j].value >= 0.0
    ensures var raw := FilterRaw(cs, cs, rng); forall j :: 1 <= j < |cs| ==> raw[j - 1] <= raw[j]
  {
    var raw := FilterRaw(cs, cs, rng);
    forall j | 1 <= j < |cs|
      ensures raw[j - 1] <= raw[j]
    {
      RawMonotone(cs, rng, j);
    }
  }

  /** The filter column of a non-decreasing close series never falls, with or without
      averaging. */
  lemma FilterColumnMonotone(cs: seq<real>, s: Settings)
    requires s.rngPer >= 1 && s.rngQty >= 0.0 && (s.avVals ==> s.avSamples >= 1)
    requires forall j :: 1 <= j < |cs| ==> cs[j - 1] <= cs[j]
    ensures var f := FilterColumn(FilterRaw(cs, cs, RangeSeries(cs, cs, s)), s);
      forall j :: 1 <= j < |cs| ==> f[j - 1] <= f[j]
  {
    var rng := RangeSeries(cs, cs, s);
    RangeNonNegative(cs, cs, s);
    assert forall j :: 1 <= j < |cs| ==> rng[j].Some? && rng[j].value >= 0.0;
    RawSeriesMonotone(cs, rng);
    if s.avVals {
      AveragedMonotone(FilterRaw(cs, cs, rng), s);
    }
  }

  /** A filter that never falls never gets the direction -1. */
  lemma {:induction false} DirNeverDown(filter: seq<real>, i: nat)
    requires i < |filter|
    requires forall j :: 1 <= j < |filter| ==> filter[j - 1] <= filter[j]
    ensures DirAt(filter, i) >= 0
  {
    if i > 0 {
      DirNeverDown(filter, i - 1);
    }
  }

  /** On a non-decreasing close series the filter never falls, the direction is never -1 and
      no SELL fires. */
  lemma RisingCloseNoSell(candles: seq<Candle>, s: Settings)
    requires s.movSrc == Close && s.rngPer >= 1 && s.rngQty >= 0.0
    requires s.avVals ==> s.avSamples >= 1
    requires |candles| > 0
    requires forall j :: 1 <= j < |candles| ==> candles[j - 1].close <= candles[j].close
    ensures RangeFilter(candles, s).Success?
    ensures forall j :: 1 <= j < |candles| ==>
      RangeFilter(candles, s).value.filter[j - 1] <= RangeFilter(candles, s).value.filter[j]
    ensures forall j :: 0 <= j < |candles| ==>
      && 0 <= RangeFilter(candles, s).value.fdir[j]
      && RangeFilter(candles, s).value.signal[j] != Sell
  {
    var cs := Closes(candles);
    assert Highs(candles, s.movSrc) == Lows(candles, s.movSrc) == cs;
    FilterColumnMonotone(cs, s);
    var filter := FilterColumn(FilterRaw(cs, cs, RangeSeries(cs, cs, s)), s);
    var fdir := Direction(filter);
    forall j | 0 <= j < |candles|
      ensures fdir[j] >= 0
    {
      DirNeverDown(filter, j);
    }
    var conds := Conditions(cs, filter, fdir);
    var sig := Signals(conds.0, conds.1, Trend(conds.0, conds.1));
    forall j | 0 <= j < |candles|
      ensures sig[j] != Sell
    {
      assert !conds.1[j];
      assert sig[j] == SignalAt(conds.0, conds.1, Trend(conds.0, conds.1), j);
    }
  }

  /** On a non-decreasing close series, a candle whose close rises by more than the range
      moves the raw filter strictly up: the filter sits at or below the previous close, so the
      ratchet takes its up branch. */
  lemma {:induction false} RawStepUp(cs: seq<real>, rng: seq<Option<real>>, j: nat)
    requires |cs| == |rng| && 1 <= j < |cs|
    requires forall k :: 1 <= k < |cs| ==> cs[k - 1] <= cs[k]
    requires forall k :: 1 <= k < |cs| ==> rng[k].Some? && rng[k].value >= 0.0
    requires cs[j] - cs[j - 1] > rng[j].value
    ensures FilterRawAt(cs, cs, rng, j - 1) < FilterRawAt(cs, cs, rng, j)
  {
    RawMonotone(cs, rng, j - 1);
  }

  /** With a factor in (0, 1], a strict rise of a non-decreasing raw filter is a change, and the
      conditional average moves part of a positive gap up. */
  lemma {:induction false} EmaStepUp(raw: seq<real>, alpha: real, j: nat)
    requires 1 <= j < |raw| && 0.0 < alpha <= 1.0
    requires forall k :: 1 <= k < |raw| ==> raw[k - 1] <= raw[k]
    requires raw[j - 1] < raw[j]
    ensures LastEmaAt(raw, alpha, j - 1).value < LastEmaAt(raw, alpha, j).value
  {
    EmaMonotone(raw, alpha, j - 1);
    var last := LastEmaAt(raw, alpha, j - 1).value;
    assert Changed(raw, j);
    UpdateRises(last, raw[j], alpha);
    assert LastEmaAt(raw, alpha, j).value == EmaUpdate(last, raw[j], alpha);
  }

  /** A step towards x that starts strictly below x, with a positive factor, strictly rises. */
  lemma UpdateRises(last: real, x: real, alpha: real)
    requires last < x && 0.0 < alpha
    ensures last < EmaUpdate(last, x, alpha)
  {
    var gap := x - last;
    Ewm.MulPositive(gap, alpha);
    assert EmaUpdate(last, x, alpha) == gap * alpha + last;
  }

  /** With `av_vals`, the averaged filter column of a non-decreasing raw filter rises strictly
      where the raw filter does. */
  lemma {:induction false} AveragedStepUp(raw: seq<real>, s: Settings, j: nat)
    requires s.avVals && s.avSamples >= 1 && 1 <= j < |raw|
    requires forall k :: 1 <= k < |raw| ==> raw[k - 1] <= raw[k]
    requires raw[j - 1] < raw[j]
    ensures FilterColumn(raw, s)[j - 1] < FilterColumn(raw, s)[j]
  {
    var alpha := Ewm.Alpha(s.avSamples);
    var e := ConditionalEma(raw, alpha);
    ConditionalEmaSteps(raw, alpha);
    assert Ffill(e) == e;
    var f := FilterColumn(raw, s);
    EmaStepUp(raw, alpha, j);
    assert f[j] == LastEmaAt(raw, alpha, j).value;
    assert f[j - 1] == LastEmaAt(raw, alpha, j - 1).value;
  }

  /** Under a range that is non-negative from the second candle on, a candle of a
      non-decreasing close series whose close rises by more than the range moves the filter
      column strictly up, with or without averaging. */
  lemma {:induction false} ColumnStepUp(cs: seq<real>, rng: seq<Option<real>>, s: Settings, j: nat)
    requires |cs| == |rng| && 1 <= j < |cs| && (s.avVals ==> s.avSamples >= 1)
    requires forall k :: 1 <= k < |cs| ==> cs[k - 1] <= cs[k]
    requires forall k :: 1 <= k < |cs| ==> rng[k].Some? && rng[k].value >= 0.0
    requires cs[j] - cs[j - 1] > rng[j].value
    ensures FilterColumn(FilterRaw(cs, cs, rng), s)[j - 1] < FilterColumn(FilterRaw(cs, cs, rng), s)[j]
  {
    RawSeriesMonotone(cs, rng);
    RawStepUp(cs, rng, j);
    var raw := FilterRaw(cs, cs, rng);
    assert raw[j - 1] < raw[j];
    if s.avVals {
      AveragedStepUp(raw, s, j);
    }
  }

  /** On a non-decreasing close series, a candle whose close rises by more than the range moves
      the filter column strictly up, with or without averaging. */
  lemma {:induction false} FilterColumnStepUp(cs: seq<real>, s: Settings, j: nat)
    requires s.rngPer >= 1 && s.rngQty >= 0.0 && (s.avVals ==> s.avSamples >= 1)
    requires 1 <= j < |cs|
    requires forall k :: 1 <= k < |cs| ==> cs[k - 1] <= cs[k]
    requires RangeSeries(cs, cs, s)[j].Some? && cs[j] - cs[j - 1] > RangeSeries(cs, cs, s)[j].value
    ensures var f := FilterColumn(FilterRaw(cs, cs, RangeSeries(cs, cs, s)), s); f[j - 1] < f[j]
  {
    var rng := RangeSeries(cs, cs, s);
    RangeNonNegative(cs, cs, s);
    assert forall k :: 1 <= k < |cs| ==> rng[k].Some? && rng[k].value >= 0.0;
    ColumnStepUp(cs, rng, s, j);
  }

  /** A filter that rises at candle i has direction 1 there. */
  lemma {:induction false} DirUp(filter: seq<real>, i: nat)
    requires 1 <= i < |filter| && filter[i - 1] < filter[i]
    ensures DirAt(filter, i) == 1
  {
  }

  /** With the close as price source, the analysis's filter is the filter column of the closes
      and its direction column is the direction of that filter. */
  lemma CloseSourceAnalysis(candles: seq<Candle>, s: Settings)
    requires s.movSrc == Close && |candles| > 0
    ensures var cs := Closes(candles);
      && Analyze(candles, s).filter == FilterColumn(FilterRaw(cs, cs, RangeSeries(cs, cs, s)), s)
      && Analyze(candles, s).fdir == Direction(Analyze(candles, s).filter)
  {
    var cs := Closes(candles);
    assert Highs(candles, s.movSrc) == cs && Lows(candles, s.movSrc) == cs;
  }

  /** On a non-decreasing close series, a candle whose close rises by more than the range at
      that candle makes the analysis's filter rise strictly and its direction 1 there. */
  lemma {:induction false} RisingCloseUp(candles: seq<Candle>, s: Settings, j: nat)
    requires s.movSrc == Close && s.rngPer >= 1 && s.rngQty >= 0.0
    requires s.avVals ==> s.avSamples >= 1
    requires 1 <= j < |candles|
    requires forall k :: 1 <= k < |candles| ==> Closes(candles)[k - 1] <= Closes(candles)[k]
    requires RangeSeries(Closes(candles), Closes(candles), s)[j].Some?
    requires Closes(candles)[j] - Closes(candles)[j - 1]
      > RangeSeries(Closes(candles), Closes(candles), s)[j].value
    ensures RangeFilter(candles, s).Success?
    ensures RangeFilter(candles, s).value.filter[j - 1] < RangeFilter(candles, s).value.filter[j]
    ensures RangeFilter(candles, s).value.fdir[j] == 1
  {
    CloseSourceAnalysis(candles, s);
    FilterColumnStepUp(Closes(candles), s, j);
  }

  /** Under the bot's own settings the premise of `RisingCloseUp` is met by a series of three
      candles: closes 0, 0 and 100, where the range at the third candle is about 4.65. */
  lemma RisingCloseUpExample()
    ensures var candles := [Candle(0.0, 0.0, 0.0, 0.0, 0.0), Candle(0.0, 0.0, 0.0, 0.0, 0.0),
                            Candle(100.0, 100.0, 100.0, 100.0, 0.0)];
      && RangeFilter(candles, RfSettings).Success?
      && RangeFilter(candles, RfSettings).value.fdir[2] == 1
  {
    var candles := [Candle(0.0, 0.0, 0.0, 0.0, 0.0), Candle(0.0, 0.0, 0.0, 0.0, 0.0),
                    Candle(100.0, 100.0, 100.0, 100.0, 0.0)];
    var s := RfSettings;
    var cs := Closes(candles);
    assert cs == [0.0, 0.0, 100.0];
    var alpha := Ewm.Alpha(s.rngPer);
    assert alpha == 2.0 / 15.0;
    var change := AbsChange(AvgPrice(cs, cs));
    assert change == [None, Some(0.0), Some(100.0)];
    var mean := Ewm.Mean(change, alpha);
    assert mean[1] == Some(0.0) && mean[2] == Some(alpha * 100.0);
    var scaled := ScaledChange(cs, cs, s);
    assert scaled[1] == Some(0.0) && scaled[2] == Some(2.618 * (alpha * 100.0));
    var rng := RangeSeries(cs, cs, s);
    assert rng[1] == Some(0.0);
    assert rng[2] == Some(alpha * (2.618 * (alpha * 100.0)));
    RisingCloseUp(candles, s, 2);
  }

  // ---------------------------------------------------------------- direction

  /** The direction is 0 exactly while the filter has not moved yet. */
  lemma {:induction false} DirectionZeroIffFlat(filter: seq<real>, i: nat)
    requires i < |filter|
    ensures DirAt(filter, i) == 0 <==> forall j :: 0 <= j <= i ==> filter[j] == filter[0]
  {
    if i > 0 {
      DirectionZeroIffFlat(filter, i - 1);
      if filter[i] == filter[i - 1] {
        assert DirAt(filter, i) == DirAt(filter, i - 1);
      } else {
        assert DirAt(filter, i) != 0;
      }
    }
  }

  /** Once the filter has moved, the direction never returns to 0. */
  lemma DirectionSticky(filter: seq<real>, i: nat, j: nat)
    requires i <= j < |filter| && Direction(filter)[i] != 0
    ensures Direction(filter)[j] != 0
  {
    DirectionZeroIffFlat(filter, i);
    DirectionZeroIffFlat(filter, j);
  }

  // ---------------------------------------------------------------- trend and signals

  predicate Exclusive(longc: seq<bool>, shortc: seq<bool>)
    requires |longc| == |shortc|
  {
    forall i :: 0 <= i < |longc| ==> !(longc[i] && shortc[i])
  }

  /** Once the trend register is long or short it never returns to undetermined. */
  lemma {:induction false} TrendSticky(longc: seq<bool>, shortc: seq<bool>, i: nat, j: nat)
    requires |longc| == |shortc| && i <= j < |longc| && TrendAt(longc, shortc, i) != 0
    ensures TrendAt(longc, shortc, j) != 0
  {
    if i < j {
      TrendSticky(longc, shortc, i, j - 1);
    }
  }

  /** Edge-only firing: nothing at index 0; BUY exactly on a long candle after a short trend,
      SELL exactly on a short candle after a long trend; so every signal flips the trend. */
  lemma SignalEdges(longc: seq<bool>, shortc: seq<bool>, i: nat)
    requires |longc| == |shortc| && Exclusive(longc, shortc) && i < |longc|
    ensures var t := Trend(longc, shortc);
      && Signals(longc, shortc, t)[0] == NoSignal
      && (Signals(longc, shortc, t)[i] == Buy <==> i > 0 && longc[i] && t[i - 1] == -1)
      && (Signals(longc, shortc, t)[i] == Sell <==> i > 0 && shortc[i] && t[i - 1] == 1)
      && (Signals(longc, shortc, t)[i] != NoSignal ==> i > 0 && t[i] != t[i - 1])
  {
  }

  function Opposite(sig: Signal): Signal
  {
    match sig
    case Buy => Sell
    case Sell => Buy
    case NoSignal => NoSignal
  }

  /** If the trend is v at i and -v at m > i, the flip back fired a signal in (i, m]:
      SELL when v is long, BUY when v is short. */
  lemma {:induction false} FlipFires(longc: seq<bool>, shortc: seq<bool>, i: nat, m: nat, v: int)
    requires |longc| == |shortc| && Exclusive(longc, shortc)
    requires i < m < |longc| && (v == 1 || v == -1)
    requires TrendAt(longc, shortc, i) == v && TrendAt(longc, shortc, m) == -v
    ensures exists k ::
      (i < k <= m && Signals(longc, shortc, Trend(longc, shortc))[k] == (if v == 1 then Sell else Buy))
  {
    var t := Trend(longc, shortc);
    if m - 1 > i && TrendAt(longc, shortc, m - 1) == -v {
      FlipFires(longc, shortc, i, m - 1, v);
    } else {
      TrendSticky(longc, shortc, i, m - 1);
      assert t[m - 1] == v;
      assert Signals(longc, shortc, t)[m] == SignalAt(longc, shortc, t, m);
    }
  }

  /** Signals alternate: between two BUYs there is a SELL, between two SELLs a BUY. */
  lemma SignalsAlternate(longc: seq<bool>, shortc: seq<bool>, i: nat, j: nat)
    requires |longc| == |shortc| && Exclusive(longc, shortc) && i < j < |longc|
    requires var sig := Signals(longc, shortc, Trend(longc, shortc));
      sig[i] != NoSignal && sig[j] == sig[i]
    ensures var sig := Signals(longc, shortc, Trend(longc, shortc));
      exists k :: i < k < j && sig[k] == Opposite(sig[i])
  {
    var t := Trend(longc, shortc);
    var sig := Signals(longc, shortc, t);
    assert sig[i] == SignalAt(longc, shortc, t, i);
    assert sig[j] == SignalAt(longc, shortc, t, j);
    var v := if sig[i] == Buy then 1 else -1;
    assert t[i] == v;
    assert t[j - 1] == -v;
    FlipFires(longc, shortc, i, j - 1, v);
  }

  // ---------------------------------------------------------------- the whole computation

  /** The bot's own settings are accepted. */
  lemma DefaultSettingsValid(candles: seq<Candle>)
    ensures RangeFilter(candles, RfSettings).Failure? <==> |candles| == 0
  {
  }

  /** The analysis never fires two BUYs or two SELLs in a row. */
  lemma AnalysisSignalsAlternate(candles: seq<Candle>, s: Settings, i: nat, j: nat)
    requires s.rngPer >= 1 && i < j < |candles|
    ensures RangeFilter(candles, s).Success?
    ensures var sig := RangeFilter(candles, s).value.signal;
      sig[i] != NoSignal && sig[j] == sig[i] ==> exists k :: i < k < j && sig[k] == Opposite(sig[i])
  {
    var hs := Highs(candles, s.movSrc);
    var ls := Lows(candles, s.movSrc);
    var raw := FilterRaw(hs, ls, RangeSeries(hs, ls, s));
    var filter := FilterColumn(raw, s);
    var conds := Conditions(Closes(candles), filter, Direction(filter));
    var sig := RangeFilter(candles, s).value.signal;
    if sig[i] != NoSignal && sig[j] == sig[i] {
      SignalsAlternate(conds.0, conds.1, i, j);
    }
  }

  /** A flat market (close price source, every close equal to c): the range is zero, the
      filter is c throughout, the direction stays 0 and no candle signals. */
  lemma ConstantSeriesNoSignal(candles: seq<Candle>, s: Settings, c: real)
    requires s.movSrc == Close && s.rngPer >= 1 && |candles| > 0
    requires forall i :: 0 <= i < |candles| ==> candles[i].close == c
    ensures forall i :: 1 <= i < |candles| ==>
      RangeSeries(Closes(candles), Closes(candles), s)[i] == Some(0.0)
    ensures RangeFilter(candles, s).Success?
    ensures forall i :: 0 <= i < |candles| ==>
      && RangeFilter(candles, s).value.filter[i] == c
      && RangeFilter(candles, s).value.fdir[i] == 0
      && RangeFilter(candles, s).value.signal[i] == NoSignal
  {
    var n := |candles|;
    var hs := Highs(candles, s.movSrc);
    assert hs == Lows(candles, s.movSrc) == Closes(candles);
    ConstantRangeZero(hs, s, c);
    var rng := RangeSeries(hs, hs, s);
    var raw := FilterRaw(hs, hs, rng);
    forall i | 0 <= i < n
      ensures raw[i] == c
    {
      ConstantFilterRaw(hs, rng, c, i);
    }
    var filter := FilterColumn(raw, s);
    if s.avVals {
      forall i | 0 <= i < n
        ensures ConditionalEma(raw, Ewm.Alpha(s.avSamples))[i] == Some(c)
      {
        ConstantConditionalEma(raw, Ewm.Alpha(s.avSamples), c, i);
      }
    }
    assert forall i :: 0 <= i < n ==> filter[i] == c;
    var fdir := Direction(filter);
    forall i | 0 <= i < n
      ensures fdir[i] == 0
    {
      DirectionZeroIffFlat(filter, i);
    }
    var conds := Conditions(Closes(candles), filter, fdir);
    var t := Trend(conds.0, conds.1);
    var sig := Signals(conds.0, conds.1, t);
    forall i | 0 <= i < n
      ensures sig[i] == NoSignal
    {
      assert sig[i] == SignalAt(conds.0, conds.1, t, i);
    }
  }
}
