/** Indicator columns derived from a candle series.

    The TA-Lib and qtpylib indicators (RSI, MACD, EMA, ATR, Bollinger bands)
    are foreign floating-point code and enter as given `Oscillators`. What the
    strategy computes itself is modelled here: the previous close, pivot point
    and first resistance/support, the rolling swing high, the trend trigger
    factor (TTF) and the resistance-breakout signal. Data frames carry the
    default index 0..n-1, so row `i` of a column is element `i` of a sequence. */
module Indicators {
  import opened Values
  import opened Settings

  /** One OHLCV candle of the host's series (the open price is not read). */
  datatype Candle = Candle(high: real, low: real, close: real, volume: real)

  /** The close lies within the candle's range. */
  predicate Consistent(c: Candle) {
    c.low <= c.close <= c.high
  }

  /** The foreign indicator outputs for one row. */
  datatype Oscillators = Oscillators(
    macd: Option<real>,
    macdSignal: Option<real>,
    emaShort: Option<real>,
    emaLong: Option<real>)

  /** One row of the populated data frame, with the columns the signal and
      position-adjustment logic read. */
  datatype Row = Row(
    close: real,
    volume: real,
    macd: Option<real>,
    macdSignal: Option<real>,
    emaShort: Option<real>,
    emaLong: Option<real>,
    ttf: Float,
    swingHigh: Option<real>,
    resistance1: Option<real>,
    previousClose: Option<real>)

  function Highs(cs: seq<Candle>): seq<real> {
    seq(|cs|, i requires 0 <= i < |cs| => cs[i].high)
  }

  function Lows(cs: seq<Candle>): seq<real> {
    seq(|cs|, i requires 0 <= i < |cs| => cs[i].low)
  }

  function Closes(cs: seq<Candle>): seq<real> {
    seq(|cs|, i requires 0 <= i < |cs| => cs[i].close)
  }

  /** Row `i` of `column.shift(k)`: NaN on the first `k` rows. */
  function Lag(column: seq<real>, k: nat, i: nat): Option<real>
    requires i < |column|
  {
    if i < k then None else Some(column[i - k])
  }

  // ---------------------------------------------------------------- pivots

  /** Pivot point, first resistance and first support of one row. */
  datatype Pivot = Pivot(pp: Option<real>, r1: Option<real>, s1: Option<real>)

  /** Row `i` of `calculate_pivots`: cell arithmetic on the previous bar. */
  function PivotAt(cs: seq<Candle>, i: nat): Pivot
    requires i < |cs|
  {
    var h := Lag(Highs(cs), 1, i);
    var l := Lag(Lows(cs), 1, i);
    var c := Lag(Closes(cs), 1, i);
    var pp := Scale(1.0 / 3.0, Add(Add(h, l), c));
    Pivot(pp, Sub(Scale(2.0, pp), l), Sub(Scale(2.0, pp), h))
  }

  /** `calculate_pivots` over a whole series. The levels of a row depend only
      on the previous bar; on the first row they are NaN. The band between
      support and resistance is as wide as the previous bar's range, and the
      pivot lies inside it whenever the previous close lies inside that range. */
  function CalculatePivots(cs: seq<Candle>): (ps: seq<Pivot>)
    ensures |ps| == |cs|
    ensures |cs| > 0 ==> ps[0] == Pivot(None, None, None)
    ensures forall i | 0 < i < |cs| ::
      && ps[i].pp == Some((cs[i - 1].high + cs[i - 1].low + cs[i - 1].close) / 3.0)
      && ps[i].r1.Some? && ps[i].s1.Some?
      && ps[i].r1.value == 2.0 * ps[i].pp.value - cs[i - 1].low
      && ps[i].r1.value - ps[i].s1.value == cs[i - 1].high - cs[i - 1].low
    ensures forall i | 0 < i < |cs| && Consistent(cs[i - 1]) ::
      ps[i].s1.value <= ps[i].pp.value <= ps[i].r1.value
  {
    seq(|cs|, i requires 0 <= i < |cs| => PivotAt(cs, i))
  }

  // ------------------------------------------------------- rolling windows

  /** The largest element of a non-empty sequence. */
  function Max(xs: seq<real>): (m: real)
    requires |xs| > 0
    ensures forall k | 0 <= k < |xs| :: xs[k] <= m
    ensures exists k | 0 <= k < |xs| :: xs[k] == m
  {
    if |xs| == 1 then xs[0]
    else
      var rest := Max(xs[1..]);
      assert forall k | 1 <= k < |xs| :: xs[k] == xs[1..][k - 1];
      if xs[0] >= rest then xs[0] else rest
  }

  /** The smallest element of a non-empty sequence. */
  function Min(xs: seq<real>): (m: real)
    requires |xs| > 0
    ensures forall k | 0 <= k < |xs| :: m <= xs[k]
    ensures exists k | 0 <= k < |xs| :: xs[k] == m
  {
    if |xs| == 1 then xs[0]
    else
      var rest := Min(xs[1..]);
      assert forall k | 1 <= k < |xs| :: xs[k] == xs[1..][k - 1];
      if xs[0] <= rest then xs[0] else rest
  }

  /** First row of the window of `window` rows that ends at row `i`. */
  function WindowStart(window: nat, i: nat): nat {
    if i + 1 >= window then i + 1 - window else 0
  }

  /** Row `i` of `column.rolling(window, min_periods).max()` for a column
      without NaN: NaN until the window holds `minPeriods` rows, then the
      largest value of the window. */
  function RollingMax(column: seq<real>, window: nat, minPeriods: nat, i: nat): (r: Option<real>)
    requires 1 <= window && i < |column|
    ensures r.Some? <==> i + 1 - WindowStart(window, i) >= minPeriods
    ensures r.Some? ==> forall k | WindowStart(window, i) <= k <= i :: column[k] <= r.value
    ensures r.Some? ==> exists k | WindowStart(window, i) <= k <= i :: column[k] == r.value
  {
    var lo := WindowStart(window, i);
    if i + 1 - lo >= minPeriods then
      var w := column[lo..i + 1];
      var m := Max(w);
      assert forall k | lo <= k <= i :: column[k] == w[k - lo];
      Some(m)
    else None
  }

  /** Row `i` of `column.rolling(window, min_periods).min()`. */
  function RollingMin(column: seq<real>, window: nat, minPeriods: nat, i: nat): (r: Option<real>)
    requires 1 <= window && i < |column|
    ensures r.Some? <==> i + 1 - WindowStart(window, i) >= minPeriods
    ensures r.Some? ==> forall k | WindowStart(window, i) <= k <= i :: r.value <= column[k]
    ensures r.Some? ==> exists k | WindowStart(window, i) <= k <= i :: column[k] == r.value
  {
    var lo := WindowStart(window, i);
    if i + 1 - lo >= minPeriods then
      var w := column[lo..i + 1];
      var m := Min(w);
      assert forall k | lo <= k <= i :: column[k] == w[k - lo];
      Some(m)
    else None
  }

  /** Row `i` of the swing high: the rolling maximum of the highs. It is NaN
      until the window holds `swing_min_periods` rows; then it is the high of
      some candle of the window ending at row `i`, and no lower than the high
      of any candle of that window, this row's own included. */
  function SwingHigh(cs: seq<Candle>, p: Params, i: nat): (r: Option<real>)
    requires Valid(p) && i < |cs|
    ensures r.Some? <==> i + 1 - WindowStart(p.swingWindow, i) >= p.swingMinPeriods
    ensures r.Some? ==> forall k | WindowStart(p.swingWindow, i) <= k <= i :: cs[k].high <= r.value
    ensures r.Some? ==> exists k | WindowStart(p.swingWindow, i) <= k <= i :: cs[k].high == r.value
  {
    assert forall k | 0 <= k < |cs| :: Highs(cs)[k] == cs[k].high;
    RollingMax(Highs(cs), p.swingWindow, p.swingMinPeriods, i)
  }

  // ----------------------------------------------------------------- TTF

  /** Row `i` of `hh`, the rolling maximum of the closes over `n` rows. */
  function HighestHigh(cs: seq<Candle>, n: nat, i: nat): Option<real>
    requires 1 <= n && i < |cs|
  {
    RollingMax(Closes(cs), n, n, i)
  }

  /** Row `i` of `ll`, the rolling minimum of the closes over `n` rows. */
  function LowestLow(cs: seq<Candle>, n: nat, i: nat): Option<real>
    requires 1 <= n && i < |cs|
  {
    RollingMin(Closes(cs), n, n, i)
  }

  /** Row `i` of `buyPower = hh - ll.shift(n)`. */
  function BuyPower(cs: seq<Candle>, n: nat, i: nat): Option<real>
    requires 1 <= n && i < |cs|
  {
    Sub(HighestHigh(cs, n, i), if i < n then None else LowestLow(cs, n, i - n))
  }

  /** Row `i` of `sellPower = hh.shift(n) - ll`. */
  function SellPower(cs: seq<Candle>, n: nat, i: nat): Option<real>
    requires 1 <= n && i < |cs|
  {
    Sub(if i < n then None else HighestHigh(cs, n, i - n), LowestLow(cs, n, i))
  }

  /** `200 * (buyPower - sellPower) / (buyPower + sellPower)` on float cells.
      The result is a number exactly when both powers are and their sum is
      not zero; a zero sum gives an infinity, negative when the sell power is
      the larger, or NaN when the powers are equal. */
  function TtfOf(buy: Option<real>, sell: Option<real>): (r: Float)
    ensures r.Finite? <==> buy.Some? && sell.Some? && buy.value + sell.value != 0.0
    ensures r.Infinity? <==> buy.Some? && sell.Some? && buy.value + sell.value == 0.0 && buy.value != sell.value
    ensures r.Infinity? ==> (r.negative <==> buy.value < sell.value)
  {
    if buy.Some? && sell.Some? then Divide(200.0 * (buy.value - sell.value), buy.value + sell.value)
    else NaN
  }

  /** Row `i` of the TTF column. It is NaN on the first `2n - 1` rows, where
      a shifted rolling window is not yet full. */
  function Ttf(cs: seq<Candle>, n: nat, i: nat): (r: Float)
    requires 1 <= n && i < |cs|
    ensures i + 1 < 2 * n ==> r == NaN
  {
    TtfOf(BuyPower(cs, n, i), SellPower(cs, n, i))
  }

  /** Both powers exist exactly from row `2n - 1` on, and their sum is never
      negative: each is a window's maximum minus a window's minimum, paired so
      that the sum covers two whole windows. */
  lemma PowersDefinedAndSumNonNegative(cs: seq<Candle>, n: nat, i: nat)
    requires 1 <= n && i < |cs|
    ensures BuyPower(cs, n, i).Some? <==> i + 1 >= 2 * n
    ensures SellPower(cs, n, i).Some? <==> i + 1 >= 2 * n
    ensures BuyPower(cs, n, i).Some? ==>
      BuyPower(cs, n, i).value + SellPower(cs, n, i).value >= 0.0
  {
    if i + 1 >= 2 * n {
      var closes := Closes(cs);
      var hh, ll := HighestHigh(cs, n, i), LowestLow(cs, n, i);
      var hhn, lln := HighestHigh(cs, n, i - n), LowestLow(cs, n, i - n);
      assert closes[i] <= hh.value && ll.value <= closes[i];
      assert closes[i - n] <= hhn.value && lln.value <= closes[i - n];
    }
  }

  /** When the powers' sum is positive, TTF lies in [-200, 200] exactly when
      neither power is negative; so the oscillator is not bounded in general. */
  lemma TtfBoundedIff(buy: real, sell: real)
    requires buy + sell > 0.0
    ensures (TtfOf(Some(buy), Some(sell)).Finite? && -200.0 <= TtfOf(Some(buy), Some(sell)).v <= 200.0)
            <==> buy >= 0.0 && sell >= 0.0
  {
    var d := buy + sell;
    var q := (buy - sell) / d;
    assert q * d == buy - sell;
    assert TtfOf(Some(buy), Some(sell)).v == 200.0 * q;
    assert (1.0 - q) * d == 2.0 * sell;
    assert (q + 1.0) * d == 2.0 * buy;
    ProductSign(1.0 - q, d);
    ProductSign(q + 1.0, d);
  }

  /** The sign of a product with a positive factor is the other factor's sign. */
  lemma ProductSign(a: real, d: real)
    requires d > 0.0
    ensures a * d >= 0.0 <==> a >= 0.0
  {
    if a < 0.0 {
      assert a * d < 0.0;
    }
  }

  /** With powers of zero sum the division by zero yields an infinity whose
      sign is that of `buyPower - sellPower`, or NaN when both are zero; a rise
      between two flat windows therefore reads as `+inf`. */
  lemma TtfZeroSum(buy: real, sell: real)
    requires buy + sell == 0.0
    ensures buy > sell ==> TtfOf(Some(buy), Some(sell)) == Infinity(false)
    ensures buy < sell ==> TtfOf(Some(buy), Some(sell)) == Infinity(true)
    ensures buy == sell ==> TtfOf(Some(buy), Some(sell)) == NaN
  {
  }

  /** With a lookback of one row every window is a single close, the powers
      always sum to zero, and TTF is never a finite number. */
  lemma TtfNeverFiniteForLookbackOne(cs: seq<Candle>, i: nat)
    requires i < |cs|
    ensures !Ttf(cs, 1, i).Finite?
  {
    if i >= 1 {
      var closes := Closes(cs);
      assert WindowStart(1, i) == i && WindowStart(1, i - 1) == i - 1;
      assert HighestHigh(cs, 1, i) == Some(closes[i]);
      assert LowestLow(cs, 1, i) == Some(closes[i]);
      assert HighestHigh(cs, 1, i - 1) == Some(closes[i - 1]);
      assert LowestLow(cs, 1, i - 1) == Some(closes[i - 1]);
    }
  }

  /** A falling series drives TTF below -200: closes 10, 10, 1, 2 with a
      lookback of two rows give TTF = -3400 on the last row. */
  lemma TtfCanLeaveRange()
    ensures Ttf([Candle(10.0, 10.0, 10.0, 1.0), Candle(10.0, 10.0, 10.0, 1.0),
                 Candle(1.0, 1.0, 1.0, 1.0), Candle(2.0, 2.0, 2.0, 1.0)], 2, 3) == Finite(-3400.0)
  {
    var cs := [Candle(10.0, 10.0, 10.0, 1.0), Candle(10.0, 10.0, 10.0, 1.0),
               Candle(1.0, 1.0, 1.0, 1.0), Candle(2.0, 2.0, 2.0, 1.0)];
    var closes := Closes(cs);
    assert closes[0] == 10.0 && closes[1] == 10.0 && closes[2] == 1.0 && closes[3] == 2.0;
    var hh3, ll3, hh1, ll1 := HighestHigh(cs, 2, 3), LowestLow(cs, 2, 3), HighestHigh(cs, 2, 1), LowestLow(cs, 2, 1);
    assert hh3 == Some(2.0) by { assert WindowStart(2, 3) == 2; }
    assert ll3 == Some(1.0) by { assert WindowStart(2, 3) == 2; }
    assert hh1 == Some(10.0) by { assert WindowStart(2, 1) == 0; }
    assert ll1 == Some(10.0) by { assert WindowStart(2, 1) == 0; }
    assert BuyPower(cs, 2, 3) == Some(-8.0);
    assert SellPower(cs, 2, 3) == Some(9.0);
  }

  // ------------------------------------------------------------ the rows

  /** `close > resistance_1 and close > previous_close` on one row; NaN in
      either level makes it false. */
  predicate ResistanceSignal(row: Row)
    ensures ResistanceSignal(row) ==>
      && row.resistance1.Some? && row.previousClose.Some?
      && row.close > row.resistance1.value && row.close > row.previousClose.value
  {
    Gt(Some(row.close), row.resistance1) && Gt(Some(row.close), row.previousClose)
  }

  /** Row `i` of `populate_indicators`. */
  function RowAt(cs: seq<Candle>, osc: seq<Oscillators>, p: Params, i: nat): Row
    requires |osc| == |cs| && Valid(p) && i < |cs|
  {
    Row(
      cs[i].close, cs[i].volume,
      osc[i].macd, osc[i].macdSignal, osc[i].emaShort, osc[i].emaLong,
      Ttf(cs, p.lookbackLength, i),
      SwingHigh(cs, p, i),
      PivotAt(cs, i).r1,
      Lag(Closes(cs), 1, i))
  }

  /** `populate_indicators`: one row per candle, carrying the candle's close
      and volume, the given oscillators, and that row's TTF, swing high, first
      resistance and previous close. The resistance signal of a row
      holds exactly when its close breaks both the previous bar's first
      resistance and the previous close, so never on the first row. */
  function PopulateIndicators(cs: seq<Candle>, osc: seq<Oscillators>, p: Params): (rows: seq<Row>)
    requires |osc| == |cs| && Valid(p)
    ensures |rows| == |cs|
    ensures forall i | 0 <= i < |cs| ::
      && rows[i].close == cs[i].close && rows[i].volume == cs[i].volume
      && rows[i].macd == osc[i].macd && rows[i].macdSignal == osc[i].macdSignal
      && rows[i].emaShort == osc[i].emaShort && rows[i].emaLong == osc[i].emaLong
    ensures forall i | 0 <= i < |cs| ::
      && rows[i].ttf == Ttf(cs, p.lookbackLength, i)
      && rows[i].swingHigh == SwingHigh(cs, p, i)
      && rows[i].resistance1 == CalculatePivots(cs)[i].r1
      && rows[i].previousClose == (if i == 0 then None else Some(cs[i - 1].close))
    ensures |cs| > 0 ==> !ResistanceSignal(rows[0])
    ensures forall i | 0 < i < |cs| ::
      ResistanceSignal(rows[i]) <==>
        && cs[i].close > 2.0 * (cs[i - 1].high + cs[i - 1].low + cs[i - 1].close) / 3.0 - cs[i - 1].low
        && cs[i].close > cs[i - 1].close
  {
    var rows := seq(|cs|, i requires 0 <= i < |cs| => RowAt(cs, osc, p, i));
    assert forall i | 0 < i < |cs| ::
      ResistanceSignal(rows[i]) <==>
        && cs[i].close > 2.0 * (cs[i - 1].high + cs[i - 1].low + cs[i - 1].close) / 3.0 - cs[i - 1].low
        && cs[i].close > cs[i - 1].close
    by {
      forall i | 0 < i < |cs| {
        SignalAt(cs, osc, p, i);
      }
    }
    rows
  }

  /** The resistance signal of one row past the first, in the previous bar's terms. */
  lemma SignalAt(cs: seq<Candle>, osc: seq<Oscillators>, p: Params, i: nat)
    requires |osc| == |cs| && Valid(p) && 0 < i < |cs|
    ensures ResistanceSignal(RowAt(cs, osc, p, i)) <==>
      && cs[i].close > 2.0 * (cs[i - 1].high + cs[i - 1].low + cs[i - 1].close) / 3.0 - cs[i - 1].low
      && cs[i].close > cs[i - 1].close
  {
    assert RowAt(cs, osc, p, i).resistance1 == CalculatePivots(cs)[i].r1;
  }

  /** On consistent candles a close never exceeds its own row's swing high,
      because the rolling window that yields the swing high ends at that row. */
  lemma CloseNeverAboveSwingHigh(cs: seq<Candle>, osc: seq<Oscillators>, p: Params, i: nat)
    requires |osc| == |cs| && Valid(p) && i < |cs|
    requires Consistent(cs[i])
    ensures !Gt(Some(PopulateIndicators(cs, osc, p)[i].close), PopulateIndicators(cs, osc, p)[i].swingHigh)
  {
    var row := PopulateIndicators(cs, osc, p)[i];
    assert row == RowAt(cs, osc, p, i);
    var sh := SwingHigh(cs, p, i);
    if sh.Some? {
      assert Highs(cs)[i] <= sh.value;
    }
  }
}
