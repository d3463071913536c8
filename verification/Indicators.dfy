/** The causal indicators of the opportunity detector. Each has a defining recursion on the
    bar index (what the value at bar i is) and the source's loop, proved to fill exactly that list. */
module Indicators {
  import opened Wrappers
  import opened RealMath

  /** Completed candles in chronological order. */
  datatype Bars = Bars(times: seq<real>, high: seq<real>, low: seq<real>, close: seq<real>) {
    function Count(): nat {
      |close|
    }

    ghost predicate Shaped() {
      |times| == |high| == |low| == |close|
    }

    /** The series as it stood when bar t was the newest. */
    function Cut(t: nat): Bars
      requires Shaped() && t < Count()
    {
      Bars(times[..t + 1], high[..t + 1], low[..t + 1], close[..t + 1])
    }

    /** Every price p becomes k - p; highs and lows trade places. */
    function Reflect(k: real): Bars
      requires Shaped()
    {
      Bars(times,
           seq(Count(), i requires 0 <= i < Count() => k - low[i]),
           seq(Count(), i requires 0 <= i < Count() => k - high[i]),
           seq(Count(), i requires 0 <= i < Count() => k - close[i]))
    }
  }

  type Period = p: nat | 1 <= p witness 1

  // ----- Exponential moving average -----

  function EmaAt(values: seq<real>, period: Period, i: nat): real
    requires i < |values|
  {
    if i == 0 then values[0]
    else
      var alpha := 2.0 / (period + 1) as real;
      alpha * values[i] + (1.0 - alpha) * EmaAt(values, period, i - 1)
  }

  function EmaOf(values: seq<real>, period: Period): seq<real> {
    seq(|values|, i requires 0 <= i < |values| => EmaAt(values, period, i))
  }

  method Ema(values: seq<real>, period: Period) returns (out: seq<real>)
    requires |values| > 0
    ensures out == EmaOf(values, period)
  {
    var alpha := 2.0 / (period + 1) as real;
    out := [values[0]];
    for i := 1 to |values|
      invariant |out| == i
      invariant forall j | 0 <= j < i :: out[j] == EmaAt(values, period, j)
    {
      out := out + [alpha * values[i] + (1.0 - alpha) * out[i - 1]];
    }
  }

  // ----- True range and Wilder's average true range -----

  function TrueRangeAt(b: Bars, i: nat): real
    requires b.Shaped() && i < b.Count()
  {
    if i == 0 then b.high[0] - b.low[0]
    else Max(b.high[i] - b.low[i], Max(Abs(b.high[i] - b.close[i - 1]), Abs(b.low[i] - b.close[i - 1])))
  }

  function TrueRangeOf(b: Bars): seq<real>
    requires b.Shaped()
  {
    seq(b.Count(), i requires 0 <= i < b.Count() => TrueRangeAt(b, i))
  }

  method TrueRange(b: Bars) returns (tr: seq<real>)
    requires b.Shaped() && b.Count() > 0
    ensures tr == TrueRangeOf(b)
  {
    tr := [b.high[0] - b.low[0]];
    for i := 1 to b.Count()
      invariant |tr| == i
      invariant forall j | 0 <= j < i :: tr[j] == TrueRangeAt(b, j)
    {
      tr := tr + [Max(b.high[i] - b.low[i],
                      Max(Abs(b.high[i] - b.close[i - 1]), Abs(b.low[i] - b.close[i - 1])))];
    }
  }

  function WilderNext(before: real, x: real, period: Period): real {
    (before * (period - 1) as real + x) / period as real
  }

  /** Wilder's average of s, seeded at index first with the mean of the period values ending there. */
  function WilderAt(s: seq<real>, period: Period, first: nat, i: nat): real
    requires period <= first + 1 && first <= i < |s|
  {
    if i == first then Sum(s, first + 1 - period, first + 1) / period as real
    else WilderNext(WilderAt(s, period, first, i - 1), s[i], period)
  }

  lemma WilderNextBounds(before: real, x: real, period: Period, low: real, high: real)
    requires low <= before <= high && low <= x <= high
    ensures low <= WilderNext(before, x, period) <= high
  {
    MixBounds(before, x, (period - 1) as real, low, high);
    assert (period - 1) as real + 1.0 == period as real;
  }

  lemma MeanBounds(s: seq<real>, lo: nat, hi: nat, low: real, high: real)
    requires lo < hi <= |s|
    requires forall j | lo <= j < hi :: low <= s[j] <= high
    ensures low <= Sum(s, lo, hi) / (hi - lo) as real <= high
  {
    SumBounds(s, lo, hi, low, high);
    DivideBounds(Sum(s, lo, hi), low, high, (hi - lo) as real);
  }

  /** A Wilder average stays within the bounds of the values it averages. */
  lemma {:induction false} WilderBounds(s: seq<real>, period: Period, first: nat, i: nat, low: real, high: Option<real>)
    requires period <= first + 1 && first <= i < |s|
    requires forall j | first + 1 - period <= j <= i :: low <= s[j] && (high.Some? ==> s[j] <= high.value)
    ensures low <= WilderAt(s, period, first, i)
    ensures high.Some? ==> WilderAt(s, period, first, i) <= high.value
  {
    hide WilderNext;
    if i == first {
      var top := if high.Some? then high.value else Ceiling(s, first + 1 - period, first + 1);
      MeanBounds(s, first + 1 - period, first + 1, low, top);
    } else {
      WilderBounds(s, period, first, i - 1, low, high);
      var before := WilderAt(s, period, first, i - 1);
      WilderNextBounds(before, s[i], period, low, if high.Some? then high.value else Max(before, s[i]));
    }
  }

  function AtrAt(tr: seq<real>, period: Period, i: nat): Option<real>
    requires i < |tr|
  {
    if i + 1 < period then None else Some(WilderAt(tr, period, period - 1, i))
  }

  function AtrOf(tr: seq<real>, period: Period): seq<Option<real>> {
    seq(|tr|, i requires 0 <= i < |tr| => AtrAt(tr, period, i))
  }

  method SumRange(s: seq<real>, lo: nat, hi: nat) returns (total: real)
    requires lo <= hi <= |s|
    ensures total == Sum(s, lo, hi)
  {
    total := 0.0;
    for i := lo to hi
      invariant total == Sum(s, lo, i)
    {
      total := total + s[i];
    }
  }

  method Atr(tr: seq<real>, period: Period) returns (out: seq<Option<real>>)
    ensures out == AtrOf(tr, period)
  {
    hide WilderNext;
    out := seq(|tr|, _ => None);
    if |tr| < period {
      return;
    }
    var value := SumRange(tr, 0, period);
    value := value / period as real;
    out := out[period - 1 := Some(value)];
    for i := period to |tr|
      invariant |out| == |tr|
      invariant value == WilderAt(tr, period, period - 1, i - 1)
      invariant forall j | 0 <= j < i :: out[j] == AtrAt(tr, period, j)
      invariant forall j | i <= j < |tr| :: out[j] == None
    {
      value := WilderNext(value, tr[i], period);
      out := out[i := Some(value)];
    }
  }

  // ----- Relative strength index -----

  function RsiFrom(gain: real, loss: real): (rsi: real)
    requires 0.0 <= gain && 0.0 <= loss
  {
    if loss == 0.0 then (if gain > 0.0 then 100.0 else 50.0)
    else
      assert 0.0 <= gain / loss;
      100.0 - 100.0 / (1.0 + gain / loss)
  }

  function GainAt(close: seq<real>, i: nat): real
    requires i < |close|
  {
    if i == 0 then 0.0 else Max(close[i] - close[i - 1], 0.0)
  }

  function LossAt(close: seq<real>, i: nat): real
    requires i < |close|
  {
    if i == 0 then 0.0 else Max(-(close[i] - close[i - 1]), 0.0)
  }

  function GainsOf(close: seq<real>): (gains: seq<real>)
    ensures |gains| == |close| && forall i | 0 <= i < |gains| :: 0.0 <= gains[i]
  {
    seq(|close|, i requires 0 <= i < |close| => GainAt(close, i))
  }

  function LossesOf(close: seq<real>): (losses: seq<real>)
    ensures |losses| == |close| && forall i | 0 <= i < |losses| :: 0.0 <= losses[i]
  {
    seq(|close|, i requires 0 <= i < |close| => LossAt(close, i))
  }

  function RsiAt(close: seq<real>, period: Period, i: nat): Option<real>
    requires i < |close|
  {
    if i < period then None
    else
      var gains, losses := GainsOf(close), LossesOf(close);
      WilderBounds(gains, period, period, i, 0.0, None);
      WilderBounds(losses, period, period, i, 0.0, None);
      Some(RsiFrom(WilderAt(gains, period, period, i), WilderAt(losses, period, period, i)))
  }

  function RsiOf(close: seq<real>, period: Period): seq<Option<real>> {
    seq(|close|, i requires 0 <= i < |close| => RsiAt(close, period, i))
  }

  method Rsi(close: seq<real>, period: Period) returns (out: seq<Option<real>>)
    ensures out == RsiOf(close, period)
  {
    hide WilderNext, RsiFrom;
    ghost var gs, ls := GainsOf(close), LossesOf(close);
    out := seq(|close|, _ => None);
    if |close| <= period {
      return;
    }
    var gains, losses := 0.0, 0.0;
    for i := 1 to period + 1
      invariant gains == Sum(gs, 1, i) && losses == Sum(ls, 1, i)
    {
      var change := close[i] - close[i - 1];
      gains := gains + Max(change, 0.0);
      losses := losses + Max(-change, 0.0);
    }
    var avgGain, avgLoss := gains / period as real, losses / period as real;
    WilderBounds(gs, period, period, period, 0.0, None);
    WilderBounds(ls, period, period, period, 0.0, None);
    out := out[period := Some(RsiFrom(avgGain, avgLoss))];
    for i := period + 1 to |close|
      invariant |out| == |close|
      invariant avgGain == WilderAt(gs, period, period, i - 1)
      invariant avgLoss == WilderAt(ls, period, period, i - 1)
      invariant forall j | 0 <= j < i :: out[j] == RsiAt(close, period, j)
      invariant forall j | i <= j < |close| :: out[j] == None
    {
      var change := close[i] - close[i - 1];
      assert gs[i] == Max(change, 0.0) && ls[i] == Max(-change, 0.0);
      WilderBounds(gs, period, period, i, 0.0, None);
      WilderBounds(ls, period, period, i, 0.0, None);
      avgGain := WilderNext(avgGain, Max(change, 0.0), period);
      avgLoss := WilderNext(avgLoss, Max(-change, 0.0), period);
      out := out[i := Some(RsiFrom(avgGain, avgLoss))];
    }
  }

  // ----- Average directional index -----

  function PlusDmAt(b: Bars, i: nat): real
    requires b.Shaped() && i < b.Count()
  {
    if i == 0 then 0.0
    else
      var up, down := b.high[i] - b.high[i - 1], b.low[i - 1] - b.low[i];
      if up > down && up > 0.0 then up else 0.0
  }

  function MinusDmAt(b: Bars, i: nat): real
    requires b.Shaped() && i < b.Count()
  {
    if i == 0 then 0.0
    else
      var up, down := b.high[i] - b.high[i - 1], b.low[i - 1] - b.low[i];
      if down > up && down > 0.0 then down else 0.0
  }

  function PlusDmOf(b: Bars): seq<real>
    requires b.Shaped()
  {
    seq(b.Count(), i requires 0 <= i < b.Count() => PlusDmAt(b, i))
  }

  function MinusDmOf(b: Bars): seq<real>
    requires b.Shaped()
  {
    seq(b.Count(), i requires 0 <= i < b.Count() => MinusDmAt(b, i))
  }

  function SmoothNext(before: real, x: real, period: Period): real {
    before + (x - before / period as real)
  }

  /** Wilder's running sum: s[1..period] at index period, then decayed and extended bar by bar. */
  function SmoothAt(s: seq<real>, period: Period, i: nat): real
    requires period <= i < |s|
  {
    if i == period then Sum(s, 1, period + 1)
    else SmoothNext(SmoothAt(s, period, i - 1), s[i], period)
  }

  function DxFrom(tr: real, plus: real, minus: real): real {
    if tr <= 0.0 then 0.0
    else
      var plusDi, minusDi := 100.0 * plus / tr, 100.0 * minus / tr;
      var total := plusDi + minusDi;
      if total > 0.0 then 100.0 * Abs(plusDi - minusDi) / total else 0.0
  }

  function DxAt(b: Bars, period: Period, i: nat): real
    requires b.Shaped() && i < b.Count()
  {
    if i < period then 0.0
    else DxFrom(SmoothAt(TrueRangeOf(b), period, i), SmoothAt(PlusDmOf(b), period, i), SmoothAt(MinusDmOf(b), period, i))
  }

  function DxOf(b: Bars, period: Period): seq<real>
    requires b.Shaped()
  {
    seq(b.Count(), i requires 0 <= i < b.Count() => DxAt(b, period, i))
  }

  /** The whole list stays undefined until 2 * period + 1 bars exist, although the first
      value it then shows is that of bar 2 * period - 1. */
  function AdxAt(b: Bars, period: Period, i: nat): Option<real>
    requires b.Shaped() && i < b.Count()
  {
    if b.Count() < 2 * period + 1 || i < 2 * period - 1 then None
    else Some(WilderAt(DxOf(b, period), period, 2 * period - 1, i))
  }

  function AdxOf(b: Bars, period: Period): seq<Option<real>>
    requires b.Shaped()
  {
    seq(b.Count(), i requires 0 <= i < b.Count() => AdxAt(b, period, i))
  }

  method DirectionalMovement(b: Bars) returns (plus: seq<real>, minus: seq<real>)
    requires b.Shaped()
    ensures plus == PlusDmOf(b) && minus == MinusDmOf(b)
    ensures forall j | 0 <= j < b.Count() ::
              0.0 <= plus[j] && 0.0 <= minus[j] && (plus[j] == 0.0 || minus[j] == 0.0)
  {
    var n := b.Count();
    plus, minus := seq(n, _ => 0.0), seq(n, _ => 0.0);
    var i := 1;
    while i < n
      invariant 1 <= i && (i <= n || i == 1)
      invariant |plus| == |minus| == n
      invariant forall j | 0 <= j < i && j < n :: plus[j] == PlusDmAt(b, j) && minus[j] == MinusDmAt(b, j)
    {
      var up, down := b.high[i] - b.high[i - 1], b.low[i - 1] - b.low[i];
      plus := plus[i := if up > down && up > 0.0 then up else 0.0];
      minus := minus[i := if down > up && down > 0.0 then down else 0.0];
      i := i + 1;
    }
  }

  method Dx(b: Bars, period: Period) returns (dx: seq<real>)
    requires b.Shaped() && 2 * period + 1 <= b.Count()
    ensures dx == DxOf(b, period)
  {
    hide SmoothNext, DxFrom;
    var n := b.Count();
    var tr := TrueRange(b);
    var plusDm, minusDm := DirectionalMovement(b);
    var trSum := SumRange(tr, 1, period + 1);
    var plusSum := SumRange(plusDm, 1, period + 1);
    var minusSum := SumRange(minusDm, 1, period + 1);
    dx := seq(n, _ => 0.0);
    for i := period to n
      invariant |dx| == n
      invariant trSum == SmoothAt(tr, period, if i == period then i else i - 1)
      invariant plusSum == SmoothAt(plusDm, period, if i == period then i else i - 1)
      invariant minusSum == SmoothAt(minusDm, period, if i == period then i else i - 1)
      invariant forall j | 0 <= j < i :: dx[j] == DxAt(b, period, j)
    {
      if i > period {
        trSum := SmoothNext(trSum, tr[i], period);
        plusSum := SmoothNext(plusSum, plusDm[i], period);
        minusSum := SmoothNext(minusSum, minusDm[i], period);
      }
      dx := dx[i := DxFrom(trSum, plusSum, minusSum)];
    }
  }

  method Adx(b: Bars, period: Period) returns (out: seq<Option<real>>)
    requires b.Shaped()
    ensures out == AdxOf(b, period)
  {
    out := seq(b.Count(), _ => None);
    if b.Count() < 2 * period + 1 {
      return;
    }
    var dx := Dx(b, period);
    assert |dx| == b.Count();
    hide DxOf, WilderAt;
    out := AverageDx(dx, period);
  }

  /** The second half of the same function: the average of the directional index. */
  method AverageDx(dx: seq<real>, period: Period) returns (out: seq<Option<real>>)
    requires 2 * period + 1 <= |dx|
    ensures |out| == |dx|
    ensures forall j | 0 <= j < |dx| ::
              out[j] == if j < 2 * period - 1 then None else Some(WilderAt(dx, period, 2 * period - 1, j))
  {
    hide WilderNext;
    out := seq(|dx|, _ => None);
    var first := 2 * period - 1;
    var value := SumRange(dx, period, first + 1);
    value := value / period as real;
    out := out[first := Some(value)];
    for i := first + 1 to |dx|
      invariant |out| == |dx|
      invariant value == WilderAt(dx, period, first, i - 1)
      invariant forall j | 0 <= j < i :: out[j] == if j < first then None else Some(WilderAt(dx, period, first, j))
    {
      value := WilderNext(value, dx[i], period);
      out := out[i := Some(value)];
    }
  }

  // ----- Confirmed fractal pivots -----

  predicate IsSwingHigh(high: seq<real>, window: Period, i: nat) {
    && window <= i < |high| - window
    && (forall j | i - window <= j < i :: high[j] < high[i])
    && (forall j | i < j <= i + window :: high[j] <= high[i])
  }

  predicate IsSwingLow(low: seq<real>, window: Period, i: nat) {
    && window <= i < |low| - window
    && (forall j | i - window <= j < i :: low[i] < low[j])
    && (forall j | i < j <= i + window :: low[i] <= low[j])
  }

  function SwingHighs(high: seq<real>, window: Period, upTo: nat): (pivots: seq<nat>) {
    if upTo == 0 then []
    else
      var earlier := SwingHighs(high, window, upTo - 1);
      if IsSwingHigh(high, window, upTo - 1) then earlier + [upTo - 1] else earlier
  }

  function SwingLows(low: seq<real>, window: Period, upTo: nat): (pivots: seq<nat>) {
    if upTo == 0 then []
    else
      var earlier := SwingLows(low, window, upTo - 1);
      if IsSwingLow(low, window, upTo - 1) then earlier + [upTo - 1] else earlier
  }

  /** The pivot list holds every swing high below upTo exactly once, in time order. */
  lemma {:induction false} SwingHighsExact(high: seq<real>, window: Period, upTo: nat)
    ensures forall i | 0 <= i < |SwingHighs(high, window, upTo)| ::
              SwingHighs(high, window, upTo)[i] < upTo && IsSwingHigh(high, window, SwingHighs(high, window, upTo)[i])
    ensures forall i, j | 0 <= i < j < |SwingHighs(high, window, upTo)| :: SwingHighs(high, window, upTo)[i] < SwingHighs(high, window, upTo)[j]
    ensures forall i: nat | i < upTo && IsSwingHigh(high, window, i) :: i in SwingHighs(high, window, upTo)
  {
    hide IsSwingHigh;
    if upTo > 0 {
      SwingHighsExact(high, window, upTo - 1);
      var earlier, pivots := SwingHighs(high, window, upTo - 1), SwingHighs(high, window, upTo);
      assert pivots == earlier || pivots == earlier + [upTo - 1];
    }
  }

  /** The pivot list holds every swing low below upTo exactly once, in time order. */
  lemma {:induction false} SwingLowsExact(low: seq<real>, window: Period, upTo: nat)
    ensures forall i | 0 <= i < |SwingLows(low, window, upTo)| ::
              SwingLows(low, window, upTo)[i] < upTo && IsSwingLow(low, window, SwingLows(low, window, upTo)[i])
    ensures forall i, j | 0 <= i < j < |SwingLows(low, window, upTo)| :: SwingLows(low, window, upTo)[i] < SwingLows(low, window, upTo)[j]
    ensures forall i: nat | i < upTo && IsSwingLow(low, window, i) :: i in SwingLows(low, window, upTo)
  {
    hide IsSwingLow;
    if upTo > 0 {
      SwingLowsExact(low, window, upTo - 1);
      var earlier, pivots := SwingLows(low, window, upTo - 1), SwingLows(low, window, upTo);
      assert pivots == earlier || pivots == earlier + [upTo - 1];
    }
  }

  method MaxOf(s: seq<real>, lo: nat, hi: nat) returns (m: real)
    requires lo < hi <= |s|
    ensures forall j | lo <= j < hi :: s[j] <= m
    ensures exists j :: lo <= j < hi && s[j] == m
  {
    m := s[lo];
    for i := lo + 1 to hi
      invariant forall j | lo <= j < i :: s[j] <= m
      invariant exists j :: lo <= j < i && s[j] == m
    {
      if m < s[i] {
        m := s[i];
      }
    }
  }

  method MinOf(s: seq<real>, lo: nat, hi: nat) returns (m: real)
    requires lo < hi <= |s|
    ensures forall j | lo <= j < hi :: m <= s[j]
    ensures exists j :: lo <= j < hi && s[j] == m
  {
    m := s[lo];
    for i := lo + 1 to hi
      invariant forall j | lo <= j < i :: m <= s[j]
      invariant exists j :: lo <= j < i && s[j] == m
    {
      if s[i] < m {
        m := s[i];
      }
    }
  }

  /** The first window bars and the newest window bars are never pivots. */
  lemma {:induction false} NoEdgePivots(s: seq<real>, window: Period, a: nat, c: nat)
    requires a <= c && (c <= window || |s| - window <= a)
    ensures SwingHighs(s, window, c) == SwingHighs(s, window, a)
    ensures SwingLows(s, window, c) == SwingLows(s, window, a)
    decreases c
  {
    if a < c {
      NoEdgePivots(s, window, a, c - 1);
    }
  }

  method ExceedsNeighbours(high: seq<real>, window: Period, i: nat) returns (pivot: bool)
    requires window <= i < |high| - window
    ensures pivot == IsSwingHigh(high, window, i)
  {
    var left := MaxOf(high, i - window, i);
    var right := MaxOf(high, i + 1, i + window + 1);
    pivot := high[i] > left && high[i] >= right;
  }

  method UndercutsNeighbours(low: seq<real>, window: Period, i: nat) returns (pivot: bool)
    requires window <= i < |low| - window
    ensures pivot == IsSwingLow(low, window, i)
  {
    var left := MinOf(low, i - window, i);
    var right := MinOf(low, i + 1, i + window + 1);
    pivot := low[i] < left && low[i] <= right;
  }

  method Pivots(high: seq<real>, low: seq<real>, window: Period) returns (highs: seq<nat>, lows: seq<nat>)
    requires |high| == |low|
    ensures highs == SwingHighs(high, window, |high|)
    ensures lows == SwingLows(low, window, |low|)
  {
    highs, lows := [], [];
    var i: nat := window;
    NoEdgePivots(high, window, 0, window);
    NoEdgePivots(low, window, 0, window);
    while i < |high| - window
      invariant window <= i && (i <= |high| - window || i == window)
      invariant highs == SwingHighs(high, window, i)
      invariant lows == SwingLows(low, window, i)
    {
      var isHigh := ExceedsNeighbours(high, window, i);
      if isHigh {
        highs := highs + [i];
      }
      var isLow := UndercutsNeighbours(low, window, i);
      if isLow {
        lows := lows + [i];
      }
      i := i + 1;
    }
    if i <= |high| {
      NoEdgePivots(high, window, i, |high|);
      NoEdgePivots(low, window, i, |low|);
    } else {
      NoEdgePivots(high, window, |high|, i);
      NoEdgePivots(low, window, |low|, i);
    }
  }
}
