# Range filter bot: indicator and latest-signal reduction

This project models the deterministic core of a trading bot in Dafny. The bot
polls candles from an exchange, runs a "range filter" indicator over them and
stores the resulting BUY/SELL signals. A small web route then serves the latest
signal for each symbol.

The model covers three pieces:

- **`calculate_range_filter`** (module `Indicator`, with the EMA primitive in
  `Ewm` and the proofs in `IndicatorProperties`). It takes an ordered candle
  series and builds these columns:
  - the smoothed range: the absolute change of the average price, smoothed by
    pandas' non-adjusted EMA, scaled by `rng_qty`, and smoothed again over
    `rng_per` when `smooth_range` is set;
  - the raw filter: a three-way ratchet;
  - the optional conditional EMA of the raw filter: it moves only where the raw
    filter changed;
  - the forward-filled direction `fdir`;
  - the long and short conditions;
  - the trend register `cond_ini`;
  - the BUY/SELL edges.

  The three element-by-element loops of `calculate_range_filter` are methods
  over a local array. Each is proved equal to a specification function. The
  vectorised column expressions are functions. Prices are `real`. A pandas NaN
  is `Option.None`, and it appears only where it decides a seeding rule: the
  absolute change at index 0 and the unset EMA register. The NaN that
  `shift(1)` yields at index 0 is the case `i == 0` in `Changed` and
  `SignalAt`.
- **`convert_resolution_to_period`** (module `Resolution`): a candle width in
  minutes becomes the exchange's period name. The model also has a parser for
  period names, so the lossy round trip can be stated.
- **The latest-per-symbol loop of the `/signals` route** (module
  `LatestSignals`). The route reads a list of signal records and writes each
  one into a dictionary under its symbol. It returns the dictionary's values
  in insertion order. The dictionary is modelled as an insertion-ordered map
  (`order` plus `bySymbol`).

Some details of `calculate_range_filter` that the model keeps:

- A BUY needs the previous trend to be exactly short (`cond_ini.shift(1) == -1`).
  A long candle right after an undetermined trend (0) does not fire.
- Only an empty candle frame fails (`iloc[0]` raises), and so does a span below 1
  (pandas `ewm` raises). A single candle is analysed normally.
- The second range smoothing uses `rng_per`. `smooth_per` is never read.

## Model

| member | source | states |
|---|---|---|
| Ewm.Alpha | engin-rf.py:112 | The factor 2/(span+1) lies in (0, 2]. It lies in (0, 1] for every span pandas accepts (span ≥ 1). |
| Ewm.MeanDefined | engin-rf.py:112 | The `adjust=False` mean is defined at i exactly when some sample at or before i is defined. |
| Ewm.MeanSeed | engin-rf.py:112 | The first defined sample is the mean at its own index, with no warm-up window. |
| Ewm.MeanAtLeast | engin-rf.py:112-114 | The mean never falls below a lower bound that every defined sample respects, because it is a convex combination. |
| Ewm.MeanAtMost | engin-rf.py:112-114 | The mean never rises above an upper bound that every defined sample respects. |
| IndicatorProperties.RangeNonNegative | engin-rf.py:109-114 | With `rng_per ≥ 1` and `rng_qty ≥ 0`, the range is NaN at the first candle only. From the second candle on it is a non-negative real. |
| IndicatorProperties.ConstantRangeZero | engin-rf.py:109-114 | On a flat price series, every range value from the second candle on is exactly 0. |
| Indicator.ComputeFilterRaw | engin-rf.py:115-122 | The in-place loop over the `filt_raw` array yields exactly the raw-filter series `FilterRaw`. |
| Indicator.FilterRawSteps | engin-rf.py:115-122 | `filt_raw[0]` is the first average price. For i ≥ 1 it moves up to `h-r` if that lies above the previous value, else down to `l+r` if that lies below it, else it holds. |
| IndicatorProperties.FilterRawWithinBand | engin-rf.py:117-122 | Where the range is defined, the raw filter lies between `h-r` and `l+r`. |
| IndicatorProperties.FilterTracksClose | engin-rf.py:109-122 | With the close as price source, the raw filter stays within one range of the close on every candle after the first. |
| Indicator.ComputeConditionalEma | engin-rf.py:123-132 | The loop with its `last_ema` register fills `ema_values` with exactly the series `ConditionalEma`. |
| Indicator.ConditionalEmaSteps | engin-rf.py:123-132 | The averaged series is defined everywhere. Index 0 always counts as a change, so the series starts at `filt_raw[0]`. It holds where the raw filter did not change. Elsewhere it moves to `(raw - last) * alpha + last`. |
| Indicator.Ffill | engin-rf.py:133 | Forward fill keeps every defined entry, so it leaves a fully defined series unchanged. |
| IndicatorProperties.AveragedFilterSteps | engin-rf.py:123-135 | With `av_vals`, the filter column starts at the raw filter and holds where the raw filter held. Elsewhere it moves 2/(av_samples+1) of the way to the raw filter. |
| IndicatorProperties.ConstantFilterRaw | engin-rf.py:115-122 | A flat series with a zero range leaves the raw filter at its starting price. |
| IndicatorProperties.ConstantConditionalEma | engin-rf.py:123-132 | A raw filter that never changes is reproduced exactly by the conditional EMA. |
| Indicator.Direction | engin-rf.py:136-139 | `fdir` has one entry per candle, in {-1, 0, 1}, with `fdir[0] = 0`. It is 1 where the filter strictly rose, -1 where it strictly fell, and the previous direction otherwise. |
| IndicatorProperties.RawMonotone | engin-rf.py:115-122 | With the close as price source and a non-negative range, a non-decreasing close makes the raw filter non-decreasing and never above the close. |
| IndicatorProperties.EmaMonotone | engin-rf.py:123-132 | With a factor in [0, 1], the conditional EMA of a non-decreasing raw filter is non-decreasing and never above the raw filter. |
| IndicatorProperties.RawSeriesMonotone | engin-rf.py:115-122 | Under a range that is non-negative from the second candle on, the raw filter of a non-decreasing close series never falls. |
| IndicatorProperties.AveragedMonotone | engin-rf.py:123-135 | With `av_vals` and `av_samples ≥ 1`, the averaged filter column of a non-decreasing raw filter never falls. |
| IndicatorProperties.FilterColumnMonotone | engin-rf.py:109-135 | On a non-decreasing close series, with `rng_per ≥ 1`, `rng_qty ≥ 0` and `av_samples ≥ 1`, the filter column is non-decreasing, with or without `av_vals`. |
| IndicatorProperties.DirNeverDown | engin-rf.py:136-139 | A filter that never falls never gets the direction -1. |
| IndicatorProperties.RisingCloseNoSell | engin-rf.py:108-153 | On a non-empty, non-decreasing close series with those settings, the analysis succeeds, the filter never falls, `fdir` is never -1 and no SELL fires. |
| IndicatorProperties.RawStepUp | engin-rf.py:115-122 | On a non-decreasing close series under a non-negative range, a candle whose close rises by more than its range moves the raw filter strictly up: the ratchet takes its up branch. |
| IndicatorProperties.EmaStepUp | engin-rf.py:123-132 | With a factor in (0, 1], where a non-decreasing raw filter strictly rises, the conditional EMA strictly rises too. |
| IndicatorProperties.AveragedStepUp | engin-rf.py:123-135 | With `av_vals` and `av_samples ≥ 1`, the averaged filter column of a non-decreasing raw filter rises strictly wherever the raw filter does. |
| IndicatorProperties.ColumnStepUp | engin-rf.py:115-135 | Under a non-negative range, a candle of a non-decreasing close series whose close rises by more than its range moves the filter column strictly up, with or without `av_vals`. |
| IndicatorProperties.FilterColumnStepUp | engin-rf.py:109-135 | The same for the range the indicator computes, with `rng_per ≥ 1`, `rng_qty ≥ 0` and `av_samples ≥ 1`. |
| IndicatorProperties.RisingCloseUp | engin-rf.py:108-153 | On a non-decreasing close series, at a candle j ≥ 1 whose close rises by more than the range at j, the analysis succeeds, `filter[j-1] < filter[j]` and `fdir[j] = 1`. |
| IndicatorProperties.RisingCloseUpExample | engin-rf.py:45-49 | Under the bot's own settings the closes 0, 0, 100 meet that premise at the third candle, which gets `fdir = 1`. |
| IndicatorProperties.DirectionZeroIffFlat | engin-rf.py:136-139 | The direction is 0 at i exactly when the filter has not moved from its first value up to i. |
| IndicatorProperties.DirectionSticky | engin-rf.py:136-139 | Once non-zero, the direction never returns to 0. |
| Indicator.Conditions | engin-rf.py:140-143 | The long and short conditions have one entry per candle and never hold on the same candle. |
| Indicator.ComputeCondIni | engin-rf.py:144-148 | The loop over the `cond_ini` array yields exactly the trend series `Trend`. |
| Indicator.TrendSteps | engin-rf.py:144-148 | `cond_ini[0] = 0` and every value is in {-1, 0, 1}. For i ≥ 1 it is 1 on a long candle, else -1 on a short candle, else the previous value. |
| IndicatorProperties.TrendSticky | engin-rf.py:144-148 | Once long or short, the trend never returns to undetermined. |
| IndicatorProperties.SignalEdges | engin-rf.py:149-153 | No signal at index 0. BUY at i exactly when i is long and the previous trend is -1. SELL at i exactly when i is short and the previous trend is 1. Every signal flips the trend. |
| IndicatorProperties.FlipFires | engin-rf.py:144-153 | If the trend is v at i and -v at a later m, a signal fired in (i, m]: SELL when v is long, BUY when v is short. |
| IndicatorProperties.SignalsAlternate | engin-rf.py:144-153 | Between two BUYs there is a SELL, and between two SELLs there is a BUY. |
| Indicator.Analyze | engin-rf.py:108-153 | The filter, `fdir` and signal columns have one entry per candle. `fdir[0] = 0` and the first candle never signals. |
| Indicator.RangeFilter | engin-rf.py:108-154 | The computation fails exactly when the span is below 1 (checked first) or the frame is empty, with the matching error. |
| Indicator.CalculateRangeFilter | engin-rf.py:108-154 | The step-by-step computation, with its three loops, returns exactly `RangeFilter`. |
| IndicatorProperties.DefaultSettingsValid | engin-rf.py:45-49 | With the bot's own settings, the computation fails only on an empty series. |
| IndicatorProperties.AnalysisSignalsAlternate | engin-rf.py:108-153 | With a valid span the analysis succeeds, and its BUY and SELL signals strictly alternate: two equal signals have the opposite one between them. |
| IndicatorProperties.ConstantSeriesNoSignal | engin-rf.py:108-153 | On a flat close series the range is 0, the filter equals the price throughout, every `fdir` is 0 and no candle signals. |
| Resolution.ConvertResolutionToPeriod | engin-rf.py:81-84 | A period name is always produced, so the trailing `return None` cannot be reached. |
| Resolution.IntRoundTrip | engin-rf.py:82-83 | Python's decimal rendering of an integer reads back as that integer. |
| Resolution.PeriodRoundTrip | engin-rf.py:81-84 | The name reads back as the minutes (unit min) below 60. From 60 on it reads back as the whole hours rounded down (unit hour). |
| Resolution.HoursRoundDown | engin-rf.py:83 | From an hour on, the minutes past the hour are dropped: 90 and 60 both give "1hour". |
| LatestSignals.Fold | webapp.py:25-30 | The dictionary built by the loop is well formed: its keys are distinct and are exactly the stored keys. |
| LatestSignals.GetLatestSignals | webapp.py:25-33 | The loop, which updates the dictionary record by record, returns exactly `LatestSignals`. |
| LatestSignals.FoldKeys | webapp.py:26-30 | The dictionary's keys are exactly the non-empty symbols of the input. |
| LatestSignals.FoldLast | webapp.py:26-30 | Each key maps to the last input record carrying that symbol. |
| LatestSignals.FoldOrder | webapp.py:26-30 | Keys are ordered by the first appearance of their symbol in the input. |
| LatestSignals.LatestIsLastWrite | webapp.py:25-33 | Every output record is an unchanged input record: the last one carrying its symbol. |
| LatestSignals.LatestOnePerSymbol | webapp.py:25-33 | The output has one record per distinct non-empty symbol: as many records as symbols, no symbol twice. An empty input gives an empty output. |
| LatestSignals.LatestCoversSymbols | webapp.py:25-33 | A symbol has an output record exactly when it is a non-empty symbol of the input. |
| LatestSignals.LatestFirstAppearanceOrder | webapp.py:30-33 | The output lists symbols in the order of their first appearance in the input. |
| LatestSignals.LatestSkipsUnsymboled | webapp.py:28-29 | Records with a missing or empty symbol contribute nothing: dropping them leaves the output unchanged. |

## Left out

- `fetch_coinex_data` (engin-rf.py:86-106): an HTTP client and parsing of the exchange's reply. Candles are a parameter here.
- `store_in_db` and `save_signal_to_json`: SQLite and filesystem I/O, including the atomic rename.
- `generate_custom_id`: driven by `random`, so it has no deterministic behaviour to state.
- The main loop of `engin-rf.py`. This covers sleep scheduling, configuration loading, logging, retries and the choice of the second-to-last candle.
- The Flask route around the reduction in `webapp.py`: the file-existence check, JSON loading, the HTTP 500 path and `jsonify`. A record is a symbol plus the rest of its fields, carried untouched. A non-string symbol value is not modelled.
- Floating point: prices are exact reals. IEEE rounding, infinities and NaN propagation are not modelled. NaN appears only as `None` where it decides a seeding rule.
- Ewm.Step: does not model how pandas decays the weights across a NaN *inside* a series. In this model NaN occurs only at index 0, before the seed, where it has no effect.
- Price source: any `mov_src` other than `"Wicks"` selects the close. The unused `f_type` and `rng_scale` settings, and the candles' open, volume and timestamp, are not modelled.
- Initial contents: `ema_values` starts as an all-NaN series. The model's array starts unspecified, and every cell is written before it is read.
- The textual `"NO_SIGNAL"`/`"BUY"`/`"SELL"` labels are the `Signal` datatype.
- Indicator.Analyze: `calculate_range_filter` adds the `filter`, `fdir` and `signal` columns to the caller's frame in place and returns that same frame. The model returns the three columns as a new value; the mutation of the caller's frame and the aliasing are not modelled.
- Settings: `rng_per` and `av_samples` are whole numbers (`nat`). pandas also accepts non-integer spans of at least 1, and `av_samples = -1` raises a division by zero in `calculate_range_filter`. The bot itself uses 14 and 2.
