/**
 * The range-filter indicator and its signal detector: one left-to-right pass over an ordered
 * candle series that builds the smoothed range, the raw filter, the optionally averaged filter,
 * the forward-filled direction, the trend register `cond_ini` and the BUY/SELL edges.
 *
 * Prices are reals. A pandas NaN appears only where it decides a seeding rule: the absolute
 * change (and so the range) is undefined at index 0, and the conditional average starts unset.
 * The three loops of `calculate_range_filter` that fill a series element by element are
 * methods over a local array, each proved equal to the specification function beside it; the vectorised column
 * expressions are functions.
 */
module Indicator {
  import opened Wrappers
  import Ewm

  /** Which prices feed the filter: the close alone, or the high and low wicks. */
  datatype PriceSource = Close | Wicks

  datatype Candle = Candle(open: real, high: real, low: real, close: real, volume: real)

  /** The indicator settings. `smoothPer` is carried because the configuration declares it,
      but nothing reads it: the second smoothing pass uses `rngPer`. */
  datatype Settings = Settings(
    movSrc: PriceSource,
    rngQty: real,
    rngPer: nat,
    smoothRange: bool,
    smoothPer: nat,
    avVals: bool,
    avSamples: nat)

  /** The settings the bot runs with. */
  const RfSettings := Settings(Close, 2.618, 14, true, 27, true, 2)

  datatype Signal = NoSignal | Buy | Sell

  /** A span below 1 is refused by pandas' `ewm`; an empty frame has no first price to seed
      the filter with. */
  datatype Error = InvalidSpan | EmptySeries

  /** The columns the computation adds to the candle frame, one entry per candle. */
  datatype Analysis = Analysis(filter: seq<real>, fdir: seq<int>, signal: seq<Signal>)

  // ---------------------------------------------------------------- price columns

  function Highs(candles: seq<Candle>, src: PriceSource): seq<real>
  {
    seq(|candles|, i requires 0 <= i < |candles| =>
      if src == Wicks then candles[i].high else candles[i].close)
  }

  function Lows(candles: seq<Candle>, src: PriceSource): seq<real>
  {
    seq(|candles|, i requires 0 <= i < |candles| =>
      if src == Wicks then candles[i].low else candles[i].close)
  }

  function Closes(candles: seq<Candle>): seq<real>
  {
    seq(|candles|, i requires 0 <= i < |candles| => candles[i].close)
  }

  function AvgPrice(hs: seq<real>, ls: seq<real>): seq<real>
    requires |hs| == |ls|
  {
    seq(|hs|, i requires 0 <= i < |hs| => (hs[i] + ls[i]) / 2.0)
  }

  function Abs(x: real): real
  {
    if x < 0.0 then -x else x
  }

  // ---------------------------------------------------------------- smoothed range

  /** |avg[i] - avg[i-1]|; NaN at index 0, where there is no previous price. */
  function AbsChange(avg: seq<real>): seq<Option<real>>
  {
    seq(|avg|, i requires 0 <= i < |avg| =>
      if i == 0 then None else Some(Abs(avg[i] - avg[i - 1])))
  }

  /** A scalar times a series; NaN stays NaN. */
  function Scale(q: real, xs: seq<Option<real>>): seq<Option<real>>
  {
    seq(|xs|, i requires 0 <= i < |xs| =>
      if xs[i].Some? then Some(q * xs[i].value) else None)
  }

  /** The average change smoothed over `rngPer`, scaled by `rngQty` and, when `smoothRange` is
      set, smoothed a second time, again over `rngPer`. */
  function RangeSeries(hs: seq<real>, ls: seq<real>, s: Settings): seq<Option<real>>
    requires |hs| == |ls|
  {
    var rng := ScaledChange(hs, ls, s);
    if s.smoothRange then Ewm.Mean(rng, Ewm.Alpha(s.rngPer)) else rng
  }

  /** `rng_qty * ac`: the smoothed absolute change of the average price, scaled. */
  function ScaledChange(hs: seq<real>, ls: seq<real>, s: Settings): seq<Option<real>>
    requires |hs| == |ls|
  {
    Scale(s.rngQty, Ewm.Mean(AbsChange(AvgPrice(hs, ls)), Ewm.Alpha(s.rngPer)))
  }

  // ---------------------------------------------------------------- raw filter

  /** One step of the filter: it moves up to `h - r` when that lies above it, down to `l + r`
      when that lies below it, and holds otherwise. A NaN range compares false both ways, so
      the filter holds. */
  function Ratchet(prev: real, h: real, l: real, r: Option<real>): real
  {
    if r.Some? && h - r.value > prev then h - r.value
    else if r.Some? && l + r.value < prev then l + r.value
    else prev
  }

  function FilterRawAt(hs: seq<real>, ls: seq<real>, rng: seq<Option<real>>, i: nat): real
    requires |hs| == |ls| == |rng| && i < |hs|
    decreases i
  {
    if i == 0 then (hs[0] + ls[0]) / 2.0
    else Ratchet(FilterRawAt(hs, ls, rng, i - 1), hs[i], ls[i], rng[i])
  }

  function FilterRaw(hs: seq<real>, ls: seq<real>, rng: seq<Option<real>>): seq<real>
    requires |hs| == |ls| == |rng|
  {
    seq(|hs|, i requires 0 <= i < |hs| => FilterRawAt(hs, ls, rng, i))
  }

  /** Fills the raw filter candle by candle: seeded with the first average price, then one
      ratchet step per later candle. */
  method ComputeFilterRaw(hs: seq<real>, ls: seq<real>, rng: seq<Option<real>>)
    returns (filtRaw: seq<real>)
    requires |hs| == |ls| == |rng|
    requires |hs| > 0
    ensures filtRaw == FilterRaw(hs, ls, rng)
  {
    var n := |hs|;
    var f := new real[n];
    f[0] := (hs[0] + ls[0]) / 2.0;
    for i := 1 to n
      invariant forall k {:trigger f[k]} :: 0 <= k < i ==> f[k] == FilterRawAt(hs, ls, rng, k)
    {
      var prevFilt := f[i - 1];
      var r := rng[i];
      if r.Some? && hs[i] - r.value > prevFilt {
        f[i] := hs[i] - r.value;
      } else if r.Some? && ls[i] + r.value < prevFilt {
        f[i] := ls[i] + r.value;
      } else {
        f[i] := prevFilt;
      }
    }
    filtRaw := f[..];
    assert forall k :: 0 <= k < n ==> filtRaw[k] == FilterRaw(hs, ls, rng)[k];
  }

  /** The raw filter starts at the first average price and moves by one ratchet step per
      candle. */
  lemma FilterRawSteps(hs: seq<real>, ls: seq<real>, rng: seq<Option<real>>)
    requires |hs| == |ls| == |rng|
    ensures |FilterRaw(hs, ls, rng)| == |hs|
    ensures |hs| > 0 ==> FilterRaw(hs, ls, rng)[0] == (hs[0] + ls[0]) / 2.0
    ensures forall i :: 1 <= i < |hs| ==>
      FilterRaw(hs, ls, rng)[i] == Ratchet(FilterRaw(hs, ls, rng)[i - 1], hs[i], ls[i], rng[i])
  {
    var f := FilterRaw(hs, ls, rng);
    assert forall i :: 0 <= i < |hs| ==> f[i] == FilterRawAt(hs, ls, rng, i);
  }

  // ---------------------------------------------------------------- averaged filter

  /** `filt_raw != filt_raw.shift(1)`: at index 0 the shifted value is NaN, so this holds. */
  predicate Changed(raw: seq<real>, i: nat)
    requires i < |raw|
  {
    i == 0 || raw[i] != raw[i - 1]
  }

  /** The `last_ema` register after candle i: it moves only on candles where the raw filter
      changed, and is seeded by the first such candle. Index 0 always counts as a change, so
      the register is never unset afterwards. */
  function LastEmaAt(raw: seq<real>, alpha: real, i: nat): (e: Option<real>)
    requires i < |raw|
    ensures e.Some?
    decreases i
  {
    var prev := if i == 0 then None else LastEmaAt(raw, alpha, i - 1);
    if !Changed(raw, i) then prev
    else if prev.None? then Some(raw[i])
    else Some(EmaUpdate(prev.value, raw[i], alpha))
  }

  /** `(x - last) * alpha + last`: the register moves the fraction alpha of the way to x. */
  function EmaUpdate(last: real, x: real, alpha: real): real
  {
    (x - last) * alpha + last
  }

  function ConditionalEma(raw: seq<real>, alpha: real): seq<Option<real>>
  {
    seq(|raw|, i requires 0 <= i < |raw| => LastEmaAt(raw, alpha, i))
  }

  /** Fills `ema_values` candle by candle from the `last_ema` register. */
  method ComputeConditionalEma(raw: seq<real>, alpha: real) returns (emaValues: seq<Option<real>>)
    ensures emaValues == ConditionalEma(raw, alpha)
  {
    var n := |raw|;
    var ema := new Option<real>[n];
    var lastEma: Option<real> := None;
    for i := 0 to n
      invariant forall k {:trigger ema[k]} :: 0 <= k < i ==> ema[k] == LastEmaAt(raw, alpha, k)
      invariant i == 0 ==> lastEma.None?
      invariant i > 0 ==> lastEma == LastEmaAt(raw, alpha, i - 1)
    {
      LastEmaStep(raw, alpha, i);
      if Changed(raw, i) {
        if lastEma.None? {
          lastEma := Some(raw[i]);
        } else {
          lastEma := Some(EmaUpdate(lastEma.value, raw[i], alpha));
        }
      }
      assert lastEma == LastEmaAt(raw, alpha, i);
      ema[i] := lastEma;
    }
    emaValues := ema[..];
    assert forall k :: 0 <= k < n ==> emaValues[k] == ConditionalEma(raw, alpha)[k];
  }

  lemma LastEmaStep(raw: seq<real>, alpha: real, i: nat)
    requires i < |raw|
    ensures i == 0 ==> LastEmaAt(raw, alpha, i) == Some(raw[0])
    ensures i > 0 && !Changed(raw, i) ==> LastEmaAt(raw, alpha, i) == LastEmaAt(raw, alpha, i - 1)
    ensures i > 0 && Changed(raw, i) ==>
      LastEmaAt(raw, alpha, i) == Some(EmaUpdate(LastEmaAt(raw, alpha, i - 1).value, raw[i], alpha))
  {
  }

  /** The averaged filter is defined everywhere, starts at the raw filter, stays put where
      the raw filter did not move, and takes one EMA step where it did. */
  lemma ConditionalEmaSteps(raw: seq<real>, alpha: real)
    ensures |ConditionalEma(raw, alpha)| == |raw|
    ensures forall i :: 0 <= i < |raw| ==> ConditionalEma(raw, alpha)[i].Some?
    ensures |raw| > 0 ==> ConditionalEma(raw, alpha)[0] == Some(raw[0])
    ensures forall i :: 1 <= i < |raw| && raw[i] == raw[i - 1] ==>
      ConditionalEma(raw, alpha)[i] == ConditionalEma(raw, alpha)[i - 1]
    ensures forall i :: 1 <= i < |raw| && raw[i] != raw[i - 1] ==>
      ConditionalEma(raw, alpha)[i].value
        == EmaUpdate(ConditionalEma(raw, alpha)[i - 1].value, raw[i], alpha)
  {
    var e := ConditionalEma(raw, alpha);
    assert forall i :: 0 <= i < |raw| ==> e[i] == LastEmaAt(raw, alpha, i);
  }

  /** The last defined value at or before i (pandas `ffill`). */
  function FfillAt(xs: seq<Option<real>>, i: nat): Option<real>
    requires i < |xs|
    decreases i
  {
    if xs[i].Some? || i == 0 then xs[i] else FfillAt(xs, i - 1)
  }

  /** Forward fill: defined entries are kept, so a series with no NaN is left as it is. */
  function Ffill(xs: seq<Option<real>>): (r: seq<Option<real>>)
    ensures |r| == |xs|
    ensures forall i :: 0 <= i < |xs| && xs[i].Some? ==> r[i] == xs[i]
    ensures (forall i :: 0 <= i < |xs| ==> xs[i].Some?) ==> r == xs
  {
    seq(|xs|, i requires 0 <= i < |xs| => FfillAt(xs, i))
  }

  function Values(xs: seq<Option<real>>): seq<real>
    requires forall i :: 0 <= i < |xs| ==> xs[i].Some?
  {
    seq(|xs|, i requires 0 <= i < |xs| => xs[i].value)
  }

  // ---------------------------------------------------------------- direction

  /** +1 where the filter rose, -1 where it fell, otherwise the last non-zero direction
      (0 while there has been none). */
  function DirAt(filter: seq<real>, i: nat): (d: int)
    requires i < |filter|
    ensures -1 <= d <= 1
    decreases i
  {
    var moved :=
      if i > 0 && filter[i] > filter[i - 1] then 1
      else if i > 0 && filter[i] < filter[i - 1] then -1
      else 0;
    if moved != 0 || i == 0 then moved else DirAt(filter, i - 1)
  }

  /** The `fdir` column. */
  function Direction(filter: seq<real>): (fdir: seq<int>)
    ensures |fdir| == |filter|
    ensures |filter| > 0 ==> fdir[0] == 0
    ensures forall i :: 0 <= i < |filter| ==> -1 <= fdir[i] <= 1
    ensures forall i :: 1 <= i < |filter| ==>
      fdir[i] == if filter[i] > filter[i - 1] then 1
                 else if filter[i] < filter[i - 1] then -1
                 else fdir[i - 1]
  {
    seq(|filter|, i requires 0 <= i < |filter| => DirAt(filter, i))
  }

  /** `long_cond` and `short_cond`: price above a rising filter, or below a falling one. */
  function Conditions(closes: seq<real>, filter: seq<real>, fdir: seq<int>): (c: (seq<bool>, seq<bool>))
    requires |closes| == |filter| == |fdir|
    ensures |c.0| == |c.1| == |closes|
    ensures forall i :: 0 <= i < |closes| ==> !(c.0[i] && c.1[i])
  {
    (seq(|closes|, i requires 0 <= i < |closes| => closes[i] > filter[i] && fdir[i] == 1),
     seq(|closes|, i requires 0 <= i < |closes| => closes[i] < filter[i] && fdir[i] == -1))
  }

  // ---------------------------------------------------------------- trend register

  /** `cond_ini` at candle i: 0 at index 0; 1 on a long candle, -1 on a short one, otherwise
      the previous value. */
  function TrendAt(longc: seq<bool>, shortc: seq<bool>, i: nat): (t: int)
    requires |longc| == |shortc| && i < |longc|
    ensures -1 <= t <= 1
    decreases i
  {
    if i == 0 then 0
    else if longc[i] then 1
    else if shortc[i] then -1
    else TrendAt(longc, shortc, i - 1)
  }

  function Trend(longc: seq<bool>, shortc: seq<bool>): seq<int>
    requires |longc| == |shortc|
  {
    seq(|longc|, i requires 0 <= i < |longc| => TrendAt(longc, shortc, i))
  }

  /** Fills `cond_ini` candle by candle, carrying the register forward. */
  method ComputeCondIni(longc: seq<bool>, shortc: seq<bool>) returns (condIni: seq<int>)
    requires |longc| == |shortc|
    ensures condIni == Trend(longc, shortc)
  {
    var n := |longc|;
    var c := new int[n](_ => 0);
    if n > 0 {
      for i := 1 to n
        invariant forall k {:trigger c[k]} :: 0 <= k < i ==> c[k] == TrendAt(longc, shortc, k)
      {
        var next;
        if longc[i] {
          next := 1;
        } else if shortc[i] {
          next := -1;
        } else {
          next := c[i - 1];
        }
        assert next == TrendAt(longc, shortc, i);
        c[i] := next;
      }
    }
    condIni := c[..];
    assert forall k :: 0 <= k < n ==> condIni[k] == Trend(longc, shortc)[k];
  }

  /** The trend starts undetermined, stays within -1..1, and at each later candle becomes 1
      on a long candle, -1 on a short one, and otherwise keeps its previous value. */
  lemma TrendSteps(longc: seq<bool>, shortc: seq<bool>)
    requires |longc| == |shortc|
    ensures |Trend(longc, shortc)| == |longc|
    ensures |longc| > 0 ==> Trend(longc, shortc)[0] == 0
    ensures forall i :: 0 <= i < |longc| ==> -1 <= Trend(longc, shortc)[i] <= 1
    ensures forall i :: 1 <= i < |longc| ==>
      Trend(longc, shortc)[i]
        == if longc[i] then 1 else if shortc[i] then -1 else Trend(longc, shortc)[i - 1]
  {
    var t := Trend(longc, shortc);
    assert forall i :: 0 <= i < |longc| ==> t[i] == TrendAt(longc, shortc, i);
  }

  // ---------------------------------------------------------------- signals

  /** BUY on a long candle whose previous trend was short, SELL on a short candle whose
      previous trend was long. At index 0 the shifted trend is NaN and nothing fires. SELL is
      written last, so it would win a tie; the conditions never both hold. */
  function SignalAt(longc: seq<bool>, shortc: seq<bool>, trend: seq<int>, i: nat): Signal
    requires |longc| == |shortc| == |trend| && i < |longc|
  {
    if i == 0 then NoSignal
    else if shortc[i] && trend[i - 1] == 1 then Sell
    else if longc[i] && trend[i - 1] == -1 then Buy
    else NoSignal
  }

  function Signals(longc: seq<bool>, shortc: seq<bool>, trend: seq<int>): seq<Signal>
    requires |longc| == |shortc| == |trend|
  {
    seq(|longc|, i requires 0 <= i < |longc| => SignalAt(longc, shortc, trend, i))
  }

  // ---------------------------------------------------------------- the whole computation

  /** The filter column: the conditional average of the raw filter, forward filled, when
      `avVals` is set; the raw filter itself otherwise. */
  function FilterColumn(raw: seq<real>, s: Settings): (filter: seq<real>)
    ensures |filter| == |raw|
  {
    if s.avVals then
      var ema := Ffill(ConditionalEma(raw, Ewm.Alpha(s.avSamples)));
      Values(ema)
    else raw
  }

  /** The analysis of a non-empty series. */
  function Analyze(candles: seq<Candle>, s: Settings): (a: Analysis)
    requires |candles| > 0
    ensures |a.filter| == |a.fdir| == |a.signal| == |candles|
    ensures a.fdir[0] == 0 && a.signal[0] == NoSignal
  {
    var hs := Highs(candles, s.movSrc);
    var ls := Lows(candles, s.movSrc);
    var raw := FilterRaw(hs, ls, RangeSeries(hs, ls, s));
    var filter := FilterColumn(raw, s);
    var fdir := Direction(filter);
    var conds := Conditions(Closes(candles), filter, fdir);
    Analysis(filter, fdir, Signals(conds.0, conds.1, Trend(conds.0, conds.1)))
  }

  /** `calculate_range_filter`: fails where pandas raises, otherwise the analysis. */
  function RangeFilter(candles: seq<Candle>, s: Settings): (r: Result<Analysis, Error>)
    ensures r.Failure? <==> s.rngPer < 1 || |candles| == 0
    ensures r.Failure? ==> r.error == if s.rngPer < 1 then InvalidSpan else EmptySeries
  {
    if s.rngPer < 1 then Failure(InvalidSpan)
    else if |candles| == 0 then Failure(EmptySeries)
    else Success(Analyze(candles, s))
  }

  /** The computation as the source performs it: column expressions, then the three loops. */
  method CalculateRangeFilter(candles: seq<Candle>, s: Settings) returns (r: Result<Analysis, Error>)
    ensures r == RangeFilter(candles, s)
  {
    if s.rngPer < 1 {
      return Failure(InvalidSpan);
    }
    if |candles| == 0 {
      return Failure(EmptySeries);
    }
    var hs := Highs(candles, s.movSrc);
    var ls := Lows(candles, s.movSrc);
    var rng := RangeSeries(hs, ls, s);
    var raw := ComputeFilterRaw(hs, ls, rng);
    var filter := raw;
    if s.avVals {
      var emaValues := ComputeConditionalEma(raw, Ewm.Alpha(s.avSamples));
      ConditionalEmaSteps(raw, Ewm.Alpha(s.avSamples));
      filter := Values(Ffill(emaValues));
    }
    var fdir := Direction(filter);
    var conds := Conditions(Closes(candles), filter, fdir);
    var condIni := ComputeCondIni(conds.0, conds.1);
    r := Success(Analysis(filter, fdir, Signals(conds.0, conds.1, condIni)));
  }
}
