/** What holds of every indicator on every series: no look-ahead, the long/short mirror, ranges. */
module IndicatorLaws {
  import opened Wrappers
  import opened RealMath
  import opened Indicators

  // ----- Two series that agree on their first n bars -----

  ghost predicate Agree<T>(a: seq<T>, c: seq<T>, n: nat) {
    n <= |a| && n <= |c| && forall j | 0 <= j < n :: a[j] == c[j]
  }

  lemma {:induction false} EmaAgree(a: seq<real>, c: seq<real>, period: Period, i: nat)
    requires Agree(a, c, i + 1)
    ensures EmaAt(a, period, i) == EmaAt(c, period, i)
  {
    if i > 0 {
      EmaAgree(a, c, period, i - 1);
    }
  }

  lemma {:induction false} WilderAgree(a: seq<real>, c: seq<real>, period: Period, first: nat, i: nat)
    requires period <= first + 1 && first <= i && Agree(a, c, i + 1)
    ensures WilderAt(a, period, first, i) == WilderAt(c, period, first, i)
  {
    hide WilderNext;
    if i == first {
      SumAgree(a, c, first + 1 - period, first + 1);
    } else {
      WilderAgree(a, c, period, first, i - 1);
    }
  }

  lemma {:induction false} SmoothAgree(a: seq<real>, c: seq<real>, period: Period, i: nat)
    requires period <= i && Agree(a, c, i + 1)
    ensures SmoothAt(a, period, i) == SmoothAt(c, period, i)
  {
    hide SmoothNext;
    if i == period {
      SumAgree(a, c, 1, period + 1);
    } else {
      SmoothAgree(a, c, period, i - 1);
    }
  }

  // ----- No look-ahead -----

  lemma CutAgrees(b: Bars, t: nat)
    requires b.Shaped() && t < b.Count()
    ensures b.Cut(t).Shaped() && b.Cut(t).Count() == t + 1
    ensures Agree(TrueRangeOf(b.Cut(t)), TrueRangeOf(b), t + 1)
    ensures Agree(PlusDmOf(b.Cut(t)), PlusDmOf(b), t + 1)
    ensures Agree(MinusDmOf(b.Cut(t)), MinusDmOf(b), t + 1)
    ensures Agree(GainsOf(b.Cut(t).close), GainsOf(b.close), t + 1)
    ensures Agree(LossesOf(b.Cut(t).close), LossesOf(b.close), t + 1)
  {
  }

  lemma EmaCausal(values: seq<real>, period: Period, t: nat)
    requires t < |values|
    ensures EmaOf(values[..t + 1], period) == EmaOf(values, period)[..t + 1]
  {
    forall i | 0 <= i <= t
      ensures EmaAt(values[..t + 1], period, i) == EmaAt(values, period, i)
    {
      EmaAgree(values[..t + 1], values, period, i);
    }
  }

  lemma AtrCausal(b: Bars, period: Period, t: nat)
    requires b.Shaped() && t < b.Count()
    ensures AtrOf(TrueRangeOf(b.Cut(t)), period) == AtrOf(TrueRangeOf(b), period)[..t + 1]
  {
    CutAgrees(b, t);
    var short, long := TrueRangeOf(b.Cut(t)), TrueRangeOf(b);
    forall i | period - 1 <= i <= t
      ensures AtrAt(short, period, i) == AtrAt(long, period, i)
    {
      WilderAgree(short, long, period, period - 1, i);
    }
  }

  lemma RsiCausal(b: Bars, period: Period, t: nat)
    requires b.Shaped() && t < b.Count()
    ensures RsiOf(b.Cut(t).close, period) == RsiOf(b.close, period)[..t + 1]
  {
    CutAgrees(b, t);
    var short, long := b.Cut(t).close, b.close;
    forall i | period <= i <= t
      ensures RsiAt(short, period, i) == RsiAt(long, period, i)
    {
      WilderAgree(GainsOf(short), GainsOf(long), period, period, i);
      WilderAgree(LossesOf(short), LossesOf(long), period, period, i);
    }
  }

  lemma DxAgree(b: Bars, period: Period, t: nat)
    requires b.Shaped() && t < b.Count()
    ensures Agree(DxOf(b.Cut(t), period), DxOf(b, period), t + 1)
  {
    CutAgrees(b, t);
    hide DxFrom;
    forall i | period <= i <= t
      ensures DxAt(b.Cut(t), period, i) == DxAt(b, period, i)
    {
      SmoothAgree(TrueRangeOf(b.Cut(t)), TrueRangeOf(b), period, i);
      SmoothAgree(PlusDmOf(b.Cut(t)), PlusDmOf(b), period, i);
      SmoothAgree(MinusDmOf(b.Cut(t)), MinusDmOf(b), period, i);
    }
  }

  lemma AdxCausalAfter(b: Bars, period: Period, t: nat)
    requires b.Shaped() && 2 * period <= t < b.Count()
    ensures AdxOf(b.Cut(t), period) == AdxOf(b, period)[..t + 1]
  {
    DxAgree(b, period, t);
    CutAgrees(b, t);
    hide DxAt;
    var short, long := DxOf(b.Cut(t), period), DxOf(b, period);
    forall i | 2 * period - 1 <= i <= t
      ensures AdxAt(b.Cut(t), period, i) == AdxAt(b, period, i)
    {
      WilderAgree(short, long, period, 2 * period - 1, i);
    }
  }

  /** The average directional index looks ahead at one bar only: the newest bar 2 * period - 1
      shows no value until two further bars exist, then one appears in the past. */
  lemma AdxCausalExactly(b: Bars, period: Period, t: nat)
    requires b.Shaped() && t < b.Count()
    ensures AdxOf(b.Cut(t), period) == AdxOf(b, period)[..t + 1]
            <==> !(t == 2 * period - 1 && 2 * period + 1 <= b.Count())
  {
    if t >= 2 * period {
      AdxCausalAfter(b, period, t);
    } else if t == 2 * period - 1 && 2 * period + 1 <= b.Count() {
      assert AdxOf(b.Cut(t), period)[t] == AdxAt(b.Cut(t), period, t) == None;
      assert AdxOf(b, period)[..t + 1][t] == AdxAt(b, period, t);
      assert AdxAt(b, period, t).Some?;
    } else {
      assert forall i | 0 <= i <= t :: AdxAt(b.Cut(t), period, i) == None && AdxAt(b, period, i) == None;
    }
  }

  /** The pivots already confirmed when bar t closed. */
  function KnownAt(pivots: seq<nat>, window: Period, t: int): seq<nat> {
    if pivots == [] then []
    else
      var n := |pivots| - 1;
      var earlier := KnownAt(pivots[..n], window, t);
      if pivots[n] + window <= t then earlier + [pivots[n]] else earlier
  }

  lemma KnownAtSnoc(pivots: seq<nat>, p: nat, window: Period, t: int)
    ensures KnownAt(pivots + [p], window, t)
            == (if p + window <= t then KnownAt(pivots, window, t) + [p] else KnownAt(pivots, window, t))
  {
  }

  lemma SwingHighCut(high: seq<real>, window: Period, t: nat, p: nat)
    requires t < |high|
    ensures IsSwingHigh(high[..t + 1], window, p) <==> IsSwingHigh(high, window, p) && p + window <= t
  {
  }

  lemma {:induction false} SwingHighsCausal(high: seq<real>, window: Period, t: nat, upTo: nat)
    requires t < |high|
    ensures KnownAt(SwingHighs(high, window, upTo), window, t)
            == SwingHighs(high[..t + 1], window, if upTo <= t then upTo else t + 1)
  {
    if upTo > 0 {
      var p := upTo - 1;
      SwingHighsCausal(high, window, t, p);
      KnownAtSnoc(SwingHighs(high, window, p), p, window, t);
      SwingHighCut(high, window, t, p);
      hide KnownAt, IsSwingHigh;
    }
  }

  lemma SwingLowCut(low: seq<real>, window: Period, t: nat, p: nat)
    requires t < |low|
    ensures IsSwingLow(low[..t + 1], window, p) <==> IsSwingLow(low, window, p) && p + window <= t
  {
  }

  lemma {:induction false} SwingLowsCausal(low: seq<real>, window: Period, t: nat, upTo: nat)
    requires t < |low|
    ensures KnownAt(SwingLows(low, window, upTo), window, t)
            == SwingLows(low[..t + 1], window, if upTo <= t then upTo else t + 1)
  {
    if upTo > 0 {
      var p := upTo - 1;
      SwingLowsCausal(low, window, t, p);
      KnownAtSnoc(SwingLows(low, window, p), p, window, t);
      SwingLowCut(low, window, t, p);
      hide KnownAt, IsSwingLow;
    }
  }

  // ----- The long/short mirror -----

  lemma {:induction false} EmaReflect(values: seq<real>, mirrored: seq<real>, k: real, period: Period, i: nat)
    requires i < |values| == |mirrored|
    requires forall j | 0 <= j <= i :: mirrored[j] == k - values[j]
    ensures EmaAt(mirrored, period, i) == k - EmaAt(values, period, i)
  {
    if i > 0 {
      EmaReflect(values, mirrored, k, period, i - 1);
      var alpha := 2.0 / (period + 1) as real;
      var e := EmaAt(values, period, i - 1);
      assert alpha * (k - values[i]) + (1.0 - alpha) * (k - e) == k - (alpha * values[i] + (1.0 - alpha) * e);
    }
  }

  lemma ReflectShape(b: Bars, k: real)
    requires b.Shaped()
    ensures b.Reflect(k).Shaped() && b.Reflect(k).Count() == b.Count()
    ensures TrueRangeOf(b.Reflect(k)) == TrueRangeOf(b)
    ensures PlusDmOf(b.Reflect(k)) == MinusDmOf(b)
    ensures MinusDmOf(b.Reflect(k)) == PlusDmOf(b)
    ensures GainsOf(b.Reflect(k).close) == LossesOf(b.close)
    ensures LossesOf(b.Reflect(k).close) == GainsOf(b.close)
  {
  }

  lemma EmaOfReflect(b: Bars, k: real, period: Period)
    requires b.Shaped()
    ensures |EmaOf(b.Reflect(k).close, period)| == b.Count()
    ensures forall i | 0 <= i < b.Count() ::
              EmaOf(b.Reflect(k).close, period)[i] == k - EmaOf(b.close, period)[i]
  {
    forall i | 0 <= i < b.Count()
      ensures EmaOf(b.Reflect(k).close, period)[i] == k - EmaOf(b.close, period)[i]
    {
      EmaReflect(b.close, b.Reflect(k).close, k, period, i);
    }
  }

  lemma RsiFromSwap(gain: real, loss: real)
    requires 0.0 <= gain && 0.0 <= loss
    ensures RsiFrom(loss, gain) == 100.0 - RsiFrom(gain, loss)
  {
    if gain != 0.0 && loss != 0.0 {
      var r := gain / loss;
      assert r * loss == gain;
      assert loss / gain * gain == loss;
      assert (loss / gain * r - 1.0) * loss == 0.0;
      assert loss / gain == 1.0 / r;
      assert 100.0 / (1.0 + r) + 100.0 / (1.0 + 1.0 / r) == 100.0 by {
        assert 1.0 + 1.0 / r == (r + 1.0) / r;
        assert 100.0 / ((r + 1.0) / r) == 100.0 * r / (r + 1.0);
      }
    }
  }

  lemma RsiReflect(b: Bars, k: real, period: Period)
    requires b.Shaped()
    ensures |RsiOf(b.Reflect(k).close, period)| == |RsiOf(b.close, period)| == b.Count()
    ensures forall i | 0 <= i < b.Count() ::
              RsiOf(b.Reflect(k).close, period)[i]
              == match RsiOf(b.close, period)[i] case None => None case Some(r) => Some(100.0 - r)
  {
    ReflectShape(b, k);
    hide RsiFrom;
    forall i | period <= i < b.Count()
      ensures RsiAt(b.Reflect(k).close, period, i) == Some(100.0 - RsiAt(b.close, period, i).value)
    {
      WilderBounds(GainsOf(b.close), period, period, i, 0.0, None);
      WilderBounds(LossesOf(b.close), period, period, i, 0.0, None);
      RsiFromSwap(WilderAt(GainsOf(b.close), period, period, i), WilderAt(LossesOf(b.close), period, period, i));
    }
  }

  lemma DxFromSwap(tr: real, plus: real, minus: real)
    ensures DxFrom(tr, minus, plus) == DxFrom(tr, plus, minus)
  {
  }

  lemma AdxReflect(b: Bars, k: real, period: Period)
    requires b.Shaped()
    ensures b.Reflect(k).Shaped() && AdxOf(b.Reflect(k), period) == AdxOf(b, period)
  {
    ReflectShape(b, k);
    assert DxOf(b.Reflect(k), period) == DxOf(b, period) by {
      hide DxFrom;
      forall i | period <= i < b.Count()
        ensures DxAt(b.Reflect(k), period, i) == DxAt(b, period, i)
      {
        DxFromSwap(SmoothAt(TrueRangeOf(b), period, i), SmoothAt(PlusDmOf(b), period, i), SmoothAt(MinusDmOf(b), period, i));
      }
    }
    hide DxOf, WilderAt;
    assert forall i | 0 <= i < b.Count() :: AdxAt(b.Reflect(k), period, i) == AdxAt(b, period, i);
  }

  lemma {:induction false} SwingsReflect(s: seq<real>, mirrored: seq<real>, k: real, window: Period, upTo: nat)
    requires |mirrored| == |s| && forall j | 0 <= j < |s| :: mirrored[j] == k - s[j]
    ensures SwingHighs(mirrored, window, upTo) == SwingLows(s, window, upTo)
    ensures SwingLows(mirrored, window, upTo) == SwingHighs(s, window, upTo)
  {
    if upTo > 0 {
      SwingsReflect(s, mirrored, k, window, upTo - 1);
      assert IsSwingHigh(mirrored, window, upTo - 1) == IsSwingLow(s, window, upTo - 1);
      assert IsSwingLow(mirrored, window, upTo - 1) == IsSwingHigh(s, window, upTo - 1);
    }
  }

  // ----- Ranges -----

  lemma RsiRange(close: seq<real>, period: Period, i: nat)
    requires period <= i < |close|
    ensures RsiAt(close, period, i).Some? && 0.0 <= RsiAt(close, period, i).value <= 100.0
  {
    var gains, losses := GainsOf(close), LossesOf(close);
    WilderBounds(gains, period, period, i, 0.0, None);
    WilderBounds(losses, period, period, i, 0.0, None);
    RsiFromRange(WilderAt(gains, period, period, i), WilderAt(losses, period, period, i));
  }

  lemma RsiFromRange(gain: real, loss: real)
    requires 0.0 <= gain && 0.0 <= loss
    ensures 0.0 <= RsiFrom(gain, loss) <= 100.0
  {
  }

  lemma {:induction false} SmoothNonNegative(s: seq<real>, period: Period, i: nat)
    requires period <= i < |s|
    requires forall j | 0 <= j <= i :: 0.0 <= s[j]
    ensures 0.0 <= SmoothAt(s, period, i)
  {
    if i == period {
      SumBounds(s, 1, period + 1, 0.0, Ceiling(s, 1, period + 1));
    } else {
      SmoothNonNegative(s, period, i - 1);
      var before := SmoothAt(s, period, i - 1);
      DivideBounds(before, 0.0, before, period as real);
    }
  }

  lemma DxFromRange(tr: real, plus: real, minus: real)
    requires 0.0 <= plus && 0.0 <= minus
    ensures 0.0 <= DxFrom(tr, plus, minus) <= 100.0
  {
    if tr > 0.0 {
      var p, m := 100.0 * plus / tr, 100.0 * minus / tr;
      assert 0.0 <= p && 0.0 <= m;
      if p + m > 0.0 {
        DivideBounds(100.0 * Abs(p - m), 0.0, 100.0, p + m);
      }
    }
  }

  lemma DxRange(b: Bars, period: Period, i: nat)
    requires b.Shaped() && i < b.Count()
    ensures 0.0 <= DxAt(b, period, i) <= 100.0
  {
    if period <= i {
      SmoothNonNegative(PlusDmOf(b), period, i);
      SmoothNonNegative(MinusDmOf(b), period, i);
      DxFromRange(SmoothAt(TrueRangeOf(b), period, i), SmoothAt(PlusDmOf(b), period, i), SmoothAt(MinusDmOf(b), period, i));
    }
  }

  lemma AdxRange(b: Bars, period: Period, i: nat)
    requires b.Shaped() && 2 * period + 1 <= b.Count() && 2 * period - 1 <= i < b.Count()
    ensures AdxAt(b, period, i).Some? && 0.0 <= AdxAt(b, period, i).value <= 100.0
  {
    var dx := DxOf(b, period);
    forall j | 0 <= j < |dx|
      ensures 0.0 <= dx[j] <= 100.0
    {
      DxRange(b, period, j);
    }
    WilderBounds(dx, period, 2 * period - 1, i, 0.0, Some(100.0));
  }

  // ----- What the bar readings mean -----

  /** The true range is the extent of the bar together with the previous close. */
  lemma TrueRangeIsExtent(b: Bars, i: nat)
    requires b.Shaped() && 0 < i < b.Count() && b.low[i] <= b.high[i]
    ensures TrueRangeAt(b, i) == Max(b.high[i], b.close[i - 1]) - Min(b.low[i], b.close[i - 1])
  {
  }

  /** Gain and loss split the change of the close: neither is negative and at most one is positive. */
  lemma GainAndLossSplit(close: seq<real>, i: nat)
    requires 0 < i < |close|
    ensures GainAt(close, i) - LossAt(close, i) == close[i] - close[i - 1]
    ensures 0.0 <= GainAt(close, i) && 0.0 <= LossAt(close, i) && (GainAt(close, i) == 0.0 || LossAt(close, i) == 0.0)
  {
  }

  /** Directional movement is the larger of the rise of the high and the fall of the low, if positive, and
      counts for that side alone; equal ones count for neither. */
  lemma MovementExactly(b: Bars, i: nat)
    requires b.Shaped() && 0 < i < b.Count()
    ensures var rise, fall := b.high[i] - b.high[i - 1], b.low[i - 1] - b.low[i];
            && PlusDmAt(b, i) + MinusDmAt(b, i) == (if rise == fall then 0.0 else Max(Max(rise, fall), 0.0))
            && (0.0 < PlusDmAt(b, i) ==> fall < rise) && (0.0 < MinusDmAt(b, i) ==> rise < fall)
            && (PlusDmAt(b, i) == 0.0 || MinusDmAt(b, i) == 0.0) && 0.0 <= PlusDmAt(b, i) && 0.0 <= MinusDmAt(b, i)
  {
  }

  /** The directional index is 100 times the imbalance of the two smoothed movements; their common range
      cancels, and nothing moving is no imbalance. */
  lemma DxIsImbalance(tr: real, plus: real, minus: real)
    requires 0.0 <= plus && 0.0 <= minus
    ensures tr <= 0.0 || plus + minus == 0.0 ==> DxFrom(tr, plus, minus) == 0.0
    ensures 0.0 < tr && 0.0 < plus + minus ==> DxFrom(tr, plus, minus) * (plus + minus) == 100.0 * Abs(plus - minus)
  {
    if 0.0 < tr {
      var p, m := 100.0 * plus / tr, 100.0 * minus / tr;
      assert p * tr == 100.0 * plus && m * tr == 100.0 * minus;
      assert (p + m) * tr == 100.0 * (plus + minus) && (p - m) * tr == 100.0 * (plus - minus);
      if 0.0 < plus + minus {
        SameSign(p + m, tr, 100.0 * (plus + minus));
        AbsTimes(p - m, tr);
        CancelRange(Abs(p - m), p + m, tr, 100.0 * Abs(plus - minus), 100.0 * (plus + minus));
      } else {
        assert p == 0.0 && m == 0.0;
      }
    }
  }

  lemma SameSign(x: real, tr: real, y: real)
    requires 0.0 < tr && x * tr == y && 0.0 < y
    ensures 0.0 < x
  {
  }

  lemma AbsTimes(x: real, tr: real)
    requires 0.0 < tr
    ensures Abs(x) * tr == Abs(x * tr)
  {
  }

  /** A ratio of two multiples of the range is the ratio of what they are multiples of. */
  lemma CancelRange(x: real, y: real, tr: real, a: real, c: real)
    requires 0.0 < y && 0.0 < tr && x * tr == a && y * tr == c
    ensures 100.0 * x / y * (c / 100.0) == a
  {
    var r := 100.0 * x / y;
    assert r * y == 100.0 * x;
    assert r * (y * tr) == 100.0 * (x * tr);
  }
}
