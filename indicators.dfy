/**
 * The indicator engine: the five indicators of the `TechnicalIndicators`
 * class as functions of the price column, and the class itself, whose
 * `GetAllIndicators` writes the derived columns into the shared frame.
 */
module Indicators {
  import opened Wrappers
  import opened Series
  import opened Frames

  // ---------------------------------------------------------------------------
  // The indicators as column functions

  /** `moving_average`: the trailing mean of `window` prices. */
  function SimpleMovingAverage(prices: Column, window: nat): (r: Column)
    requires 1 <= window
    ensures |r| == |prices|
  {
    RollingMean(prices, window)
  }

  /** `exponential_moving_average`: `ewm(span=window, adjust=False).mean()`. */
  function ExponentialMovingAverage(prices: Column, window: nat): (r: Column)
    requires 1 <= window
    ensures |r| == |prices|
  {
    Ewm(Alpha(window), prices)
  }

  /** A change that is a number and positive (resp. negative); NaN is neither. */
  predicate Rise(d: Option<real>) { d.Some? && d.value > 0.0 }
  predicate Fall(d: Option<real>) { d.Some? && d.value < 0.0 }

  /** `delta.where(delta > 0, 0)`: positive changes are kept, everything else
      (a fall, no change, or the NaN of row 0) becomes 0. */
  function Gains(delta: Column): (r: Column)
    ensures |r| == |delta|
    ensures forall i :: 0 <= i < |delta| ==>
              r[i].Some? && 0.0 <= r[i].value
              && (r[i].value == 0.0 <==> !Rise(delta[i]))
              && (Rise(delta[i]) ==> r[i] == delta[i])
  {
    seq(|delta|, i requires 0 <= i < |delta| =>
      if Rise(delta[i]) then delta[i] else Some(0.0))
  }

  /** `-delta.where(delta < 0, 0)`: the size of each fall, everything else 0. */
  function Losses(delta: Column): (r: Column)
    ensures |r| == |delta|
    ensures forall i :: 0 <= i < |delta| ==>
              r[i].Some? && 0.0 <= r[i].value
              && (r[i].value == 0.0 <==> !Fall(delta[i]))
              && (Fall(delta[i]) ==> r[i].value == -delta[i].value)
  {
    seq(|delta|, i requires 0 <= i < |delta| =>
      if Fall(delta[i]) then Some(-delta[i].value) else Some(0.0))
  }

  /** The rolling mean of the gains: a number from row window - 1 on, never negative. */
  function AverageGain(prices: Column, window: nat): (r: Column)
    requires 1 <= window
    ensures |r| == |prices|
    ensures forall i :: 0 <= i < |prices| ==>
              (r[i].Some? <==> window - 1 <= i) && (r[i].Some? ==> 0.0 <= r[i].value)
  {
    RollingMeanNonNegative(Gains(Diff(prices)), window);
    RollingMean(Gains(Diff(prices)), window)
  }

  /** The rolling mean of the losses: a number from row window - 1 on, never negative. */
  function AverageLoss(prices: Column, window: nat): (r: Column)
    requires 1 <= window
    ensures |r| == |prices|
    ensures forall i :: 0 <= i < |prices| ==>
              (r[i].Some? <==> window - 1 <= i) && (r[i].Some? ==> 0.0 <= r[i].value)
  {
    RollingMeanNonNegative(Losses(Diff(prices)), window);
    RollingMean(Losses(Diff(prices)), window)
  }

  /** `100 - (100 / (1 + gain / loss))` in floating point: with no loss the
      ratio is +inf and the result 100; with neither gain nor loss it is 0/0, NaN. */
  function RsiCell(gain: Option<real>, loss: Option<real>): (r: Option<real>)
    requires gain.Some? ==> 0.0 <= gain.value
    requires loss.Some? ==> 0.0 <= loss.value
    ensures r.Some? <==> gain.Some? && loss.Some? && 0.0 < gain.value + loss.value
    ensures r.Some? ==> gain.Some? && loss.Some? && 0.0 < gain.value + loss.value
                        && r.value == 100.0 * gain.value / (gain.value + loss.value)
                        && 0.0 <= r.value <= 100.0
  {
    if gain.None? || loss.None? then None
    else if loss.value == 0.0 then
      if gain.value == 0.0 then None
      else
        RsiShare(gain.value, loss.value);
        Some(100.0)
    else
      RsiShare(gain.value, loss.value);
      Some(100.0 - 100.0 / (1.0 + gain.value / loss.value))
  }

  /** `relative_strength_index`. */
  function RelativeStrengthIndex(prices: Column, window: nat): (r: Column)
    requires 1 <= window
    ensures |r| == |prices|
  {
    var gain := AverageGain(prices, window);
    var loss := AverageLoss(prices, window);
    seq(|prices|, i requires 0 <= i < |prices| => RsiCell(gain[i], loss[i]))
  }

  /** The two columns `macd` returns. */
  datatype MacdLines = MacdLines(macd: Column, signal: Column)

  /** `macd`: the short EMA minus the long EMA, and the EMA of that difference. */
  function Macd(prices: Column, shortWindow: nat, longWindow: nat, signalWindow: nat): (r: MacdLines)
    requires 1 <= shortWindow && 1 <= longWindow && 1 <= signalWindow
    ensures |r.macd| == |prices| && |r.signal| == |prices|
  {
    var macd := ColumnSub(ExponentialMovingAverage(prices, shortWindow),
                          ExponentialMovingAverage(prices, longWindow));
    MacdLines(macd, ExponentialMovingAverage(macd, signalWindow))
  }

  /** The three columns `bollinger_bands` returns. */
  datatype Bands = Bands(upper: Column, lower: Column, mid: Column)

  /** `bollinger_bands`: the rolling mean plus and minus `numStd` rolling sample
      standard deviations. */
  function BollingerBands(prices: Column, window: nat, numStd: real, sqrt: real -> real): (r: Bands)
    requires 1 <= window
    ensures |r.upper| == |prices| && |r.lower| == |prices| && |r.mid| == |prices|
  {
    var mean := RollingMean(prices, window);
    var width := ColumnScale(RollingStd(prices, window, sqrt), numStd);
    Bands(ColumnAdd(mean, width), ColumnSub(mean, width), mean)
  }

  // ---------------------------------------------------------------------------
  // Between the frame's cells and numeric columns

  /** A float column of the frame as numbers, or the error a rolling or ewm
      aggregation raises on a column that is not numeric. */
  function NumericColumn(cells: seq<Value>, name: string): (r: Result<Column, Error>)
    ensures r.Success? <==> forall i :: 0 <= i < |cells| ==> cells[i].Num? || cells[i].NaN?
    ensures r.Success? ==> |r.value| == |cells|
                           && forall i :: 0 <= i < |cells| ==> Cells(r.value)[i] == cells[i]
  {
    if forall i :: 0 <= i < |cells| ==> cells[i].Num? || cells[i].NaN? then
      Success(seq(|cells|, i requires 0 <= i < |cells| =>
        if cells[i].Num? then Some(cells[i].num) else None))
    else Failure(NonNumeric(name))
  }

  /** A numeric column as frame cells. */
  function Cells(xs: Column): (r: seq<Value>)
    ensures |r| == |xs|
  {
    seq(|xs|, i requires 0 <= i < |xs| => if xs[i].Some? then Num(xs[i].value) else NaN)
  }

  /** The columns `get_all_indicators` writes, each with its default parameters:
      eight names, every column as long as the prices, the Bollinger middle band
      equal to the moving average, and the price column itself never among them. */
  function IndicatorColumns(prices: Column, sqrt: real -> real): (r: Columns)
    ensures r.Keys == INDICATOR_NAMES && "Price" !in r
    ensures forall name :: name in r ==> |r[name]| == |prices|
    ensures r["Bollinger Moving Average"] == r["Moving Average"]
  {
    var macd := Macd(prices, 12, 26, 9);
    var bands := BollingerBands(prices, 20, 2.0, sqrt);
    map[
      "Moving Average" := Cells(SimpleMovingAverage(prices, 20)),
      "Exponential Moving Average" := Cells(ExponentialMovingAverage(prices, 20)),
      "RSI" := Cells(RelativeStrengthIndex(prices, 14)),
      "MACD" := Cells(macd.macd),
      "MACD Signal" := Cells(macd.signal),
      "Upper Band" := Cells(bands.upper),
      "Lower Band" := Cells(bands.lower),
      "Bollinger Moving Average" := Cells(bands.mid)
    ]
  }

  const INDICATOR_NAMES: set<string> := {
    "Moving Average", "Exponential Moving Average", "RSI", "MACD", "MACD Signal",
    "Upper Band", "Lower Band", "Bollinger Moving Average"
  }

  // ---------------------------------------------------------------------------
  // RSI

  /** From row window - 1 on, the average gain is zero exactly when the trailing
      window holds no rise; row 0's NaN change counts as none. */
  lemma AverageGainZero(prices: Column, window: nat, i: nat)
    requires 1 <= window && window - 1 <= i < |prices|
    ensures AverageGain(prices, window)[i].value == 0.0
            <==> forall k :: i + 1 - window <= k <= i ==> !Rise(Diff(prices)[k])
  {
    var gains := Gains(Diff(prices));
    var lo := i + 1 - window;
    SumRangeNonNegative(gains, lo, i + 1);
    DivZero(SumRange(gains, lo, i + 1), window as real);
    assert AverageGain(prices, window)[i].value == SumRange(gains, lo, i + 1) / window as real;
    assert (forall k :: lo <= k < i + 1 ==> Val(gains[k]) == 0.0)
           <==> (forall k :: lo <= k <= i ==> !Rise(Diff(prices)[k]));
  }

  /** From row window - 1 on, the average loss is zero exactly when the trailing
      window holds no fall. */
  lemma AverageLossZero(prices: Column, window: nat, i: nat)
    requires 1 <= window && window - 1 <= i < |prices|
    ensures AverageLoss(prices, window)[i].value == 0.0
            <==> forall k :: i + 1 - window <= k <= i ==> !Fall(Diff(prices)[k])
  {
    var losses := Losses(Diff(prices));
    var lo := i + 1 - window;
    SumRangeNonNegative(losses, lo, i + 1);
    DivZero(SumRange(losses, lo, i + 1), window as real);
    assert AverageLoss(prices, window)[i].value == SumRange(losses, lo, i + 1) / window as real;
    assert (forall k :: lo <= k < i + 1 ==> Val(losses[k]) == 0.0)
           <==> (forall k :: lo <= k <= i ==> !Fall(Diff(prices)[k]));
  }

  /** A non-negative quotient by a positive number is zero exactly when the dividend is. */
  lemma DivZero(s: real, n: real)
    requires 0.0 <= s && 0.0 < n
    ensures 0.0 <= s / n
    ensures s / n == 0.0 <==> s == 0.0
  {
  }

  /** Over the reals, 100 - 100 / (1 + g / l) is the gain's share 100 g / (g + l). */
  lemma RsiAlgebra(g: real, l: real)
    requires 0.0 <= g && 0.0 < l
    ensures 100.0 - 100.0 / (1.0 + g / l) == 100.0 * g / (g + l)
    ensures 0.0 <= 100.0 * g / (g + l) < 100.0
  {
    var q := g / l;
    assert q * l == g;
    var s := 1.0 + q;
    assert s * l == g + l;
    var t := g + l;
    assert 100.0 / s == 100.0 * l / t;
    assert 100.0 * l / t + 100.0 * g / t == (100.0 * l + 100.0 * g) / t;
    assert 100.0 * l + 100.0 * g == 100.0 * t;
    assert 100.0 * t / t == 100.0;
    assert 100.0 - 100.0 * l / t == 100.0 * g / t;
    assert 100.0 * g / t < 100.0 * t / t;
  }

  /** Both division paths of line 38 give the gain's share of the movement. */
  lemma RsiShare(g: real, l: real)
    requires 0.0 <= g && 0.0 <= l && 0.0 < g + l
    ensures l == 0.0 ==> 100.0 * g / (g + l) == 100.0
    ensures 0.0 < l ==> 100.0 - 100.0 / (1.0 + g / l) == 100.0 * g / (g + l)
    ensures 0.0 <= 100.0 * g / (g + l) <= 100.0
  {
    if 0.0 < l {
      RsiAlgebra(g, l);
    } else {
      assert g + l == g;
      assert 100.0 * g / g == 100.0;
    }
  }

  /** No RSI value before row window - 1. From there on it is a number exactly
      when the window moved at all, and then it is the gain's share
      100 g / (g + l) of the total movement, within [0, 100]. */
  lemma RsiValue(prices: Column, window: nat, i: nat)
    requires 1 <= window && i < |prices|
    ensures i < window - 1 ==> RelativeStrengthIndex(prices, window)[i].None?
    ensures window - 1 <= i ==>
              var g := AverageGain(prices, window)[i].value;
              var l := AverageLoss(prices, window)[i].value;
              (RelativeStrengthIndex(prices, window)[i].Some? <==> 0.0 < g + l)
              && (0.0 < g + l ==>
                    RelativeStrengthIndex(prices, window)[i].value == 100.0 * g / (g + l)
                    && 0.0 <= RelativeStrengthIndex(prices, window)[i].value <= 100.0)
  {
    if window - 1 <= i {
      var g := AverageGain(prices, window)[i].value;
      var l := AverageLoss(prices, window)[i].value;
      if 0.0 < l {
        RsiAlgebra(g, l);
      } else if 0.0 < g {
        assert 100.0 * g / (g + l) == 100.0;
      }
    }
  }

  /** RSI is exactly 100 when the trailing window holds at least one rise and no
      fall (the `gain / 0 = inf` path). */
  lemma RsiHundred(prices: Column, window: nat, i: nat)
    requires 1 <= window && window - 1 <= i < |prices|
    ensures RelativeStrengthIndex(prices, window)[i] == Some(100.0)
            <==> (exists k :: i + 1 - window <= k <= i && Rise(Diff(prices)[k]))
                 && (forall k :: i + 1 - window <= k <= i ==> !Fall(Diff(prices)[k]))
  {
    AverageGainZero(prices, window, i);
    AverageLossZero(prices, window, i);
    RsiValue(prices, window, i);
    var g := AverageGain(prices, window)[i].value;
    var l := AverageLoss(prices, window)[i].value;
    if 0.0 < l {
      RsiAlgebra(g, l);
    }
  }

  /** On a constant price series nothing moves, and RSI is NaN everywhere. */
  lemma RsiConstant(prices: Column, window: nat, v: real)
    requires 1 <= window
    requires forall k :: 0 <= k < |prices| ==> prices[k] == Some(v)
    ensures forall i :: 0 <= i < |prices| ==> RelativeStrengthIndex(prices, window)[i].None?
  {
    forall i | 0 <= i < |prices|
      ensures RelativeStrengthIndex(prices, window)[i].None?
    {
      if window - 1 <= i {
        forall k | i + 1 - window <= k <= i
          ensures !Rise(Diff(prices)[k]) && !Fall(Diff(prices)[k])
        {
          assert k == 0 || Diff(prices)[k] == Some(0.0);
        }
        AverageGainZero(prices, window, i);
        AverageLossZero(prices, window, i);
      }
    }
  }

  // ---------------------------------------------------------------------------
  // EMA and MACD

  /** The EMA is the textbook recursion from the first price on, on prices
      without NaN. */
  lemma EmaRecurrence(prices: Column, window: nat, t: nat)
    requires 1 <= window && t < |prices| && AllDefined(prices)
    ensures ExponentialMovingAverage(prices, window)[t].Some?
    ensures t == 0 ==> ExponentialMovingAverage(prices, window)[0] == prices[0]
    ensures 0 < t ==>
              ExponentialMovingAverage(prices, window)[t].value
              == Smooth(Alpha(window), prices[t].value, ExponentialMovingAverage(prices, window)[t - 1].value)
  {
    assert DefinedOn(prices, 0, t + 1);
    EwmRecurrence(Alpha(window), prices, t);
  }

  /** MACD and its signal line hold a number at row t exactly when some price at
      or before t does: with a first price that is a number, at every row. */
  lemma MacdDefined(prices: Column, shortWindow: nat, longWindow: nat, signalWindow: nat, t: nat)
    requires 1 <= shortWindow && 1 <= longWindow && 1 <= signalWindow && t < |prices|
    ensures Macd(prices, shortWindow, longWindow, signalWindow).macd[t].Some?
            <==> exists k :: 0 <= k <= t && prices[k].Some?
    ensures Macd(prices, shortWindow, longWindow, signalWindow).signal[t].Some?
            <==> exists k :: 0 <= k <= t && prices[k].Some?
  {
    var lines := Macd(prices, shortWindow, longWindow, signalWindow);
    forall j | 0 <= j <= t
      ensures lines.macd[j].Some? <==> exists k :: 0 <= k <= j && prices[k].Some?
    {
      EwmDefinedIff(Alpha(shortWindow), prices, j);
      EwmDefinedIff(Alpha(longWindow), prices, j);
    }
    EwmDefinedIff(Alpha(signalWindow), lines.macd, t);
    if exists k :: 0 <= k <= t && prices[k].Some? {
      var k :| 0 <= k <= t && prices[k].Some?;
      assert lines.macd[t].Some?;
    }
    if exists j :: 0 <= j <= t && lines.macd[j].Some? {
      var j :| 0 <= j <= t && lines.macd[j].Some?;
      var k :| 0 <= k <= j && prices[k].Some?;
      assert 0 <= k <= t && prices[k].Some?;
    }
  }

  /** On a constant price series both EMAs are that constant, so MACD and its
      signal line are 0 at every row. */
  lemma MacdConstant(prices: Column, shortWindow: nat, longWindow: nat, signalWindow: nat, v: real)
    requires 1 <= shortWindow && 1 <= longWindow && 1 <= signalWindow
    requires forall k :: 0 <= k < |prices| ==> prices[k] == Some(v)
    ensures forall t :: 0 <= t < |prices| ==>
              Macd(prices, shortWindow, longWindow, signalWindow).macd[t] == Some(0.0)
              && Macd(prices, shortWindow, longWindow, signalWindow).signal[t] == Some(0.0)
  {
    var macd := Macd(prices, shortWindow, longWindow, signalWindow).macd;
    EmaConstant(prices, shortWindow, v);
    EmaConstant(prices, longWindow, v);
    assert forall t :: 0 <= t < |prices| ==> macd[t] == Some(0.0);
    EmaConstant(macd, signalWindow, 0.0);
  }

  /** The EMA of a constant series is that constant at every row. */
  lemma EmaConstant(prices: Column, window: nat, v: real)
    requires 1 <= window
    requires forall k :: 0 <= k < |prices| ==> prices[k] == Some(v)
    ensures forall t :: 0 <= t < |prices| ==> ExponentialMovingAverage(prices, window)[t] == Some(v)
  {
    EwmConstant(Alpha(window), prices, v);
    forall t | 0 <= t < |prices|
      ensures ExponentialMovingAverage(prices, window)[t].Some?
    {
      EwmDefinedIff(Alpha(window), prices, t);
      assert 0 <= 0 <= t && prices[0].Some?;
    }
  }

  // ---------------------------------------------------------------------------
  // Bollinger bands

  /** The bands hold numbers exactly where the moving average does, for a window
      of at least 2 (sample std is NaN for a window of 1); they sit
      `numStd` standard deviations either side of the middle band, so upper and
      lower are symmetric about it and, for numStd >= 0, ordered around it. */
  lemma BollingerShape(prices: Column, window: nat, numStd: real, sqrt: real -> real, i: nat)
    requires 1 <= window && i < |prices| && SqrtLike(sqrt)
    ensures BollingerBands(prices, window, numStd, sqrt).mid[i] == SimpleMovingAverage(prices, window)[i]
    ensures BollingerBands(prices, window, numStd, sqrt).upper[i].Some?
            <==> 2 <= window && SimpleMovingAverage(prices, window)[i].Some?
    ensures BollingerBands(prices, window, numStd, sqrt).lower[i].Some?
            <==> BollingerBands(prices, window, numStd, sqrt).upper[i].Some?
    ensures BollingerBands(prices, window, numStd, sqrt).upper[i].Some? ==>
              var b := BollingerBands(prices, window, numStd, sqrt);
              b.mid[i].Some?
              && b.upper[i].value - b.mid[i].value == b.mid[i].value - b.lower[i].value
              && b.upper[i].value - b.mid[i].value == numStd * RollingStd(prices, window, sqrt)[i].value
              && (0.0 <= numStd ==> b.lower[i].value <= b.mid[i].value <= b.upper[i].value)
  {
    RollingStdDefined(prices, window, i, sqrt);
    var b := BollingerBands(prices, window, numStd, sqrt);
    if b.upper[i].Some? {
      var sd := RollingStd(prices, window, sqrt)[i].value;
      if 0.0 <= numStd {
        assert 0.0 <= sd * numStd;
      }
    }
  }

  /** Over a window of one repeated price the bands collapse onto it. */
  lemma BollingerConstant(prices: Column, window: nat, numStd: real, sqrt: real -> real, i: nat, v: real)
    requires 2 <= window <= i + 1 <= |prices| && SqrtLike(sqrt)
    requires forall k :: i + 1 - window <= k <= i ==> prices[k] == Some(v)
    ensures BollingerBands(prices, window, numStd, sqrt).upper[i] == Some(v)
    ensures BollingerBands(prices, window, numStd, sqrt).lower[i] == Some(v)
    ensures BollingerBands(prices, window, numStd, sqrt).mid[i] == Some(v)
  {
    RollingStdConstant(prices, window, i, v, sqrt);
    RollingMeanBounds(prices, window, i, v, v);
  }

  /** Writing the eight columns one after another is a union with the new columns winning. */
  lemma WrittenInTurn(m: Columns, ma: seq<Value>, ema: seq<Value>, rsi: seq<Value>, line: seq<Value>,
                      signal: seq<Value>, upper: seq<Value>, lower: seq<Value>, mid: seq<Value>)
    ensures m["Moving Average" := ma]["Exponential Moving Average" := ema]["RSI" := rsi]
             ["MACD" := line]["MACD Signal" := signal]["Upper Band" := upper]
             ["Lower Band" := lower]["Bollinger Moving Average" := mid]
            == m + map["Moving Average" := ma, "Exponential Moving Average" := ema,
                       "RSI" := rsi, "MACD" := line, "MACD Signal" := signal,
                       "Upper Band" := upper, "Lower Band" := lower,
                       "Bollinger Moving Average" := mid]
  {
  }

  // ---------------------------------------------------------------------------
  // The class

  class TechnicalIndicators {
    const data: Frame
    const priceColumn: string

    constructor (data: Frame)
      ensures this.data == data && priceColumn == "Price"
    {
      this.data := data;
      priceColumn := "Price";
    }

    /** `self.data[self.price_column]` as numbers: KeyError when it is absent. */
    function Prices(): (r: Result<Column, Error>)
      reads data
      requires data.Valid()
      ensures r.Failure? <==> priceColumn !in data.columns
                              || exists i :: 0 <= i < |data.columns[priceColumn]|
                                               && !(data.columns[priceColumn][i].Num?
                                                    || data.columns[priceColumn][i].NaN?)
      ensures r.Success? ==> |r.value| == |data.index|
    {
      if priceColumn !in data.columns then Failure(MissingColumn(priceColumn))
      else NumericColumn(data.columns[priceColumn], priceColumn)
    }

    /** `get_all_indicators`: either the price column cannot be read and the
        frame is left as it was, or the eight indicator columns are written into
        it, replacing same-named columns and keeping every other column and the
        index. The price column is not among those written, so every indicator
        reads the same prices. */
    method GetAllIndicators(sqrt: real -> real) returns (r: Result<Frame, Error>)
      requires data.Valid()
      modifies data
      ensures data.Valid()
      ensures old(Prices()).Failure? ==>
                r == Failure(old(Prices()).error) && unchanged(data)
      ensures old(Prices()).Success? ==>
                r == Success(data) && data.index == old(data.index)
                && data.columns == old(data.columns) + IndicatorColumns(old(Prices()).value, sqrt)
    {
      var read := Prices();
      if read.Failure? {
        return Failure(read.error);
      }
      var prices := read.value;
      var ma := Cells(SimpleMovingAverage(prices, 20));
      var ema := Cells(ExponentialMovingAverage(prices, 20));
      var rsi := Cells(RelativeStrengthIndex(prices, 14));
      var macd := Macd(prices, 12, 26, 9);
      var bands := BollingerBands(prices, 20, 2.0, sqrt);
      var line, signal := Cells(macd.macd), Cells(macd.signal);
      var upper, lower, mid := Cells(bands.upper), Cells(bands.lower), Cells(bands.mid);
      ghost var added := map["Moving Average" := ma, "Exponential Moving Average" := ema,
                             "RSI" := rsi, "MACD" := line, "MACD Signal" := signal,
                             "Upper Band" := upper, "Lower Band" := lower,
                             "Bollinger Moving Average" := mid];
      data.Assign("Moving Average", ma);
      data.Assign("Exponential Moving Average", ema);
      data.Assign("RSI", rsi);
      data.Assign("MACD", line);
      data.Assign("MACD Signal", signal);
      data.Assign("Upper Band", upper);
      data.Assign("Lower Band", lower);
      data.Assign("Bollinger Moving Average", mid);
      ghost var before := old(data.columns);
      assert data.columns == before["Moving Average" := ma]["Exponential Moving Average" := ema]
                                   ["RSI" := rsi]["MACD" := line]["MACD Signal" := signal]
                                   ["Upper Band" := upper]["Lower Band" := lower]
                                   ["Bollinger Moving Average" := mid];
      WrittenInTurn(before, ma, ema, rsi, line, signal, upper, lower, mid);
      assert added == IndicatorColumns(prices, sqrt);
      r := Success(data);
    }
  }
}
