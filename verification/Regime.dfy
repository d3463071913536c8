/** Market regime as of one bar: EMA bias, confirmed swing structure, trend strength. */
module Regime {
  import opened Wrappers
  import opened Indicators
  import opened IndicatorLaws

  datatype Bias = Bull | Bear | Neutral
  datatype Structure = Rising | Falling | Mixed | Unknown
  datatype Trend = Bullish | Bearish | Ranging | Uncertain

  /** The detector's thresholds; distances are in multiples of the average true range. */
  datatype Config = Config(
    minBars: nat, maxBars: nat,
    fastEma: Period, slowEma: Period, atrPeriod: Period, adxPeriod: Period, rsiPeriod: Period,
    pivotWindow: Period, slopeLookback: nat,
    adxTrending: real, adxRanging: real, minEmaSeparationAtr: real, supportToleranceAtr: real, regimeLookback: nat,
    atrBaselineBars: nat, atrRatioMin: real, atrRatioMax: real,
    minImpulseAtr: real, minRetracement: real, maxRetracement: real, zoneToleranceAtr: real,
    maxBarsSincePullbackLow: int, rsiOverbought: real,
    breakoutLookback: nat, breakoutBufferAtr: real, breakoutRetestToleranceAtr: real, breakoutMaxRetestBars: nat,
    lowestSincePriorHigh: bool, trendPullbackEnabled: bool, breakoutRetestEnabled: bool)

  datatype Indication = Indication(
    emaFast: seq<real>, emaSlow: seq<real>,
    atr: seq<Option<real>>, adx: seq<Option<real>>, rsi: seq<Option<real>>,
    swingHighs: seq<nat>, swingLows: seq<nat>)

  function IndicationOf(b: Bars, cfg: Config): Indication
    requires b.Shaped()
  {
    Indication(EmaOf(b.close, cfg.fastEma), EmaOf(b.close, cfg.slowEma),
               AtrOf(TrueRangeOf(b), cfg.atrPeriod), AdxOf(b, cfg.adxPeriod), RsiOf(b.close, cfg.rsiPeriod),
               SwingHighs(b.high, cfg.pivotWindow, b.Count()), SwingLows(b.low, cfg.pivotWindow, b.Count()))
  }

  method ComputeIndicators(b: Bars, cfg: Config) returns (ind: Indication)
    requires b.Shaped() && b.Count() > 0
    ensures ind == IndicationOf(b, cfg)
  {
    var tr := TrueRange(b);
    var highs, lows := Pivots(b.high, b.low, cfg.pivotWindow);
    var fast := Ema(b.close, cfg.fastEma);
    var slow := Ema(b.close, cfg.slowEma);
    var atr := Atr(tr, cfg.atrPeriod);
    var adx := Adx(b, cfg.adxPeriod);
    var rsi := Rsi(b.close, cfg.rsiPeriod);
    ind := Indication(fast, slow, atr, adx, rsi, highs, lows);
  }

  /** A list read at index k: negative indices count from the end, others out of range raise. */
  function At<T>(s: seq<T>, k: int): Option<T> {
    if 0 <= k < |s| then Some(s[k])
    else if -|s| <= k < 0 then Some(s[|s| + k])
    else None
  }

  datatype Regime = Regime(trend: Trend, bias: Bias, structure: Structure, adx: Option<real>,
                           separation: Option<real>, slope: Option<real>)

  function StructureOf(b: Bars, highs: seq<nat>, lows: seq<nat>): Option<Structure> {
    if |highs| < 2 || |lows| < 2 then Some(Unknown)
    else
      var lastHigh :- At(b.high, highs[|highs| - 1]);
      var priorHigh :- At(b.high, highs[|highs| - 2]);
      var lastLow :- At(b.low, lows[|lows| - 1]);
      var priorLow :- At(b.low, lows[|lows| - 2]);
      Some(if lastHigh > priorHigh && lastLow > priorLow then Rising
           else if lastHigh < priorHigh && lastLow < priorLow then Falling
           else Mixed)
  }

  function BiasOf(separation: real, slope: real, close: real, slow: real, support: real, cfg: Config): Bias {
    if separation >= cfg.minEmaSeparationAtr && close > slow - support && slope > 0.0 then Bull
    else if separation <= -cfg.minEmaSeparationAtr && close < slow + support && slope < 0.0 then Bear
    else Neutral
  }

  /** Comparisons with an undefined ADX are false. */
  function TrendOf(bias: Bias, structure: Structure, adx: Option<real>, cfg: Config): Trend {
    var trending := adx.Some? && adx.value >= cfg.adxTrending;
    if bias == Bull && structure != Falling && trending then Bullish
    else if bias == Bear && structure != Rising && trending then Bearish
    else if (adx.Some? && adx.value < cfg.adxRanging)
         || (bias == Neutral && structure in {Mixed, Unknown} && !trending) then Ranging
    else Uncertain
  }

  /** None when the evaluation raises: an index out of range or a zero ATR. With an undefined ATR
      every comparison is false, so the bias is neutral. */
  function ClassifyRegime(b: Bars, ind: Indication, t: int, cfg: Config): Option<Regime> {
    var atr :- At(ind.atr, t);
    var close :- At(b.close, t);
    var fast :- At(ind.emaFast, t);
    var slow :- At(ind.emaSlow, t);
    var earlierSlow :- At(ind.emaSlow, t - cfg.slopeLookback);
    var adx :- At(ind.adx, t);
    var structure :- StructureOf(b, KnownAt(ind.swingHighs, cfg.pivotWindow, t), KnownAt(ind.swingLows, cfg.pivotWindow, t));
    RegimeOf(atr, close, fast, slow, earlierSlow, adx, structure, cfg)
  }

  /** A price difference in multiples of the average true range. */
  function Spread(a: real, b: real, atr: real): real
    requires atr != 0.0
  {
    (a - b) / atr
  }

  function Support(cfg: Config, atr: real): real {
    cfg.supportToleranceAtr * atr
  }

  /** The regime from the readings of one bar; a zero range divides by zero. */
  function RegimeOf(atr: Option<real>, close: real, fast: real, slow: real, earlierSlow: real, adx: Option<real>,
                    structure: Structure, cfg: Config): Option<Regime>
  {
    if atr == Some(0.0) then None
    else if atr.None? then Some(Regime(TrendOf(Neutral, structure, adx, cfg), Neutral, structure, adx, None, None))
    else
      var separation, slope := Spread(fast, slow, atr.value), Spread(slow, earlierSlow, atr.value);
      var bias := BiasOf(separation, slope, close, slow, Support(cfg, atr.value), cfg);
      Some(Regime(TrendOf(bias, structure, adx, cfg), bias, structure, adx, Some(separation), Some(slope)))
  }

  /** An unfinished reversal: the structure opposes the bias and the earlier regime agreed with the bias. */
  predicate PotentialReversal(current: Regime, previous: Regime) {
    || (current.bias == Bull && current.structure == Falling && previous.trend == Bullish)
    || (current.bias == Bear && current.structure == Rising && previous.trend == Bearish)
  }

  /** A directional label, said in prices: the averages are far enough apart, the close holds the slow
      average up to the tolerance, the slow average has moved that way, no confirmed structure opposes it,
      and the strength reaches the threshold. */
  ghost predicate Uptrend(close: real, fast: real, slow: real, earlierSlow: real, atr: real, adx: real,
                          structure: Structure, cfg: Config)
  {
    && fast - slow >= cfg.minEmaSeparationAtr * atr
    && close > slow - cfg.supportToleranceAtr * atr
    && slow > earlierSlow
    && structure != Falling && adx >= cfg.adxTrending
  }

  lemma DirectionalLabelExactly(atr: real, close: real, fast: real, slow: real, earlierSlow: real, adx: real,
                                structure: Structure, cfg: Config)
    requires 0.0 < atr && 0.0 <= cfg.minEmaSeparationAtr
    ensures var r := RegimeOf(Some(atr), close, fast, slow, earlierSlow, Some(adx), structure, cfg);
            && r.Some?
            && (r.value.trend == Bullish <==> Uptrend(close, fast, slow, earlierSlow, atr, adx, structure, cfg))
            && (r.value.trend == Bearish <==>
                Uptrend(-close, -fast, -slow, -earlierSlow, atr, adx, MirrorStructure(structure), cfg))
  {
    SpreadAgainst(fast, slow, atr, cfg.minEmaSeparationAtr);
    SpreadAgainst(slow, fast, atr, cfg.minEmaSeparationAtr);
    SpreadAgainst(slow, earlierSlow, atr, 0.0);
    SpreadAgainst(earlierSlow, slow, atr, 0.0);
    SpreadNegated(fast, slow, atr);
    SpreadNegated(slow, earlierSlow, atr);
    hide Spread;
  }

  /** The averages lean upward: far enough apart, the close holds the slow one, and it has moved up. */
  ghost predicate LeansUp(close: real, fast: real, slow: real, earlierSlow: real, atr: real, cfg: Config) {
    && fast - slow >= cfg.minEmaSeparationAtr * atr
    && close > slow - cfg.supportToleranceAtr * atr
    && slow > earlierSlow
  }

  /** Every label of a regime: the bias is where the averages lean; a lean that no confirmed structure
      opposes, on a strong trend, is a direction; without a direction the market ranges when the trend is
      weak, or when the averages do not lean, the structure does not either and the trend is not strong. */
  lemma RegimeLabelsExactly(atr: Option<real>, close: real, fast: real, slow: real, earlierSlow: real, adx: Option<real>,
                            structure: Structure, cfg: Config)
    requires (atr.Some? ==> 0.0 < atr.value) && 0.0 < cfg.minEmaSeparationAtr
    ensures var r := RegimeOf(atr, close, fast, slow, earlierSlow, adx, structure, cfg);
            var up := atr.Some? && LeansUp(close, fast, slow, earlierSlow, atr.value, cfg);
            var down := atr.Some? && LeansUp(-close, -fast, -slow, -earlierSlow, atr.value, cfg);
            var strong, weak := adx.Some? && adx.value >= cfg.adxTrending, adx.Some? && adx.value < cfg.adxRanging;
            var level := !up && !down && structure in {Mixed, Unknown} && !strong;
            && r.Some? && r.value.structure == structure
            && (r.value.bias == Bull <==> up) && (r.value.bias == Bear <==> down)
            && (r.value.trend == Bullish <==> up && strong && structure != Falling)
            && (r.value.trend == Bearish <==> down && strong && structure != Rising)
            && (r.value.trend == Ranging <==> r.value.trend !in {Bullish, Bearish} && (weak || level))
            && (r.value.trend == Uncertain <==> r.value.trend !in {Bullish, Bearish} && !weak && !level)
            && (r.value.separation.Some? <==> atr.Some?) && (r.value.slope.Some? <==> atr.Some?)
            && (atr.Some? ==> r.value.separation.value * atr.value == fast - slow && r.value.slope.value * atr.value == slow - earlierSlow)
  {
    if atr.Some? {
      SpreadAgainst(fast, slow, atr.value, cfg.minEmaSeparationAtr);
      SpreadAgainst(slow, fast, atr.value, cfg.minEmaSeparationAtr);
      SpreadAgainst(slow, earlierSlow, atr.value, 0.0);
      SpreadAgainst(earlierSlow, slow, atr.value, 0.0);
      SpreadNegated(fast, slow, atr.value);
      SpreadNegated(slow, earlierSlow, atr.value);
      SpreadTimes(fast, slow, atr.value);
      SpreadTimes(slow, earlierSlow, atr.value);
      SeparationPositive(cfg.minEmaSeparationAtr, atr.value);
      hide Spread;
    }
  }

  lemma SpreadTimes(a: real, b: real, atr: real)
    requires 0.0 < atr
    ensures Spread(a, b, atr) * atr == a - b
  {
  }

  lemma SeparationPositive(separation: real, atr: real)
    requires 0.0 < separation && 0.0 < atr
    ensures 0.0 < separation * atr
  {
  }

  /** The structure rises when the last confirmed swing high and low both exceed the ones before them, falls
      when both are below, is mixed otherwise, and unknown before there are two of each. */
  lemma StructureExactly(b: Bars, highs: seq<nat>, lows: seq<nat>)
    requires b.Shaped()
    requires (forall i | 0 <= i < |highs| :: highs[i] < b.Count()) && forall i | 0 <= i < |lows| :: lows[i] < b.Count()
    ensures var structure := StructureOf(b, highs, lows);
            && structure.Some?
            && (structure.value == Unknown <==> |highs| < 2 || |lows| < 2)
            && (structure.value != Unknown ==>
                  var h, l := |highs| - 1, |lows| - 1;
                  && (structure.value == Rising <==> b.high[highs[h - 1]] < b.high[highs[h]] && b.low[lows[l - 1]] < b.low[lows[l]])
                  && (structure.value == Falling <==> b.high[highs[h]] < b.high[highs[h - 1]] && b.low[lows[l]] < b.low[lows[l - 1]]))
  {
  }

  /** Comparing a distance in multiples of the range is comparing it in prices. */
  lemma SpreadAgainst(a: real, b: real, atr: real, bound: real)
    requires 0.0 < atr
    ensures Spread(a, b, atr) >= bound <==> a - b >= bound * atr
    ensures Spread(a, b, atr) > bound <==> a - b > bound * atr
  {
    var x := Spread(a, b, atr);
    assert x * atr == a - b;
    assert (x - bound) * atr == a - b - bound * atr;
  }

  lemma SpreadNegated(a: real, b: real, atr: real)
    requires atr != 0.0
    ensures Spread(b, a, atr) == -Spread(a, b, atr)
  {
  }

  // ----- No look-ahead -----

  lemma IndicationCausal(b: Bars, cfg: Config, t: nat)
    requires b.Shaped() && 2 * cfg.adxPeriod <= t < b.Count()
    ensures b.Cut(t).Shaped()
    ensures var full, cut := IndicationOf(b, cfg), IndicationOf(b.Cut(t), cfg);
            && cut.emaFast == full.emaFast[..t + 1] && cut.emaSlow == full.emaSlow[..t + 1]
            && cut.atr == full.atr[..t + 1] && cut.adx == full.adx[..t + 1] && cut.rsi == full.rsi[..t + 1]
            && cut.swingHighs == KnownAt(full.swingHighs, cfg.pivotWindow, t)
            && cut.swingLows == KnownAt(full.swingLows, cfg.pivotWindow, t)
  {
    EmaCausal(b.close, cfg.fastEma, t);
    EmaCausal(b.close, cfg.slowEma, t);
    AtrCausal(b, cfg.atrPeriod, t);
    AdxCausalAfter(b, cfg.adxPeriod, t);
    RsiCausal(b, cfg.rsiPeriod, t);
    SwingHighsCausal(b.high, cfg.pivotWindow, t, b.Count());
    SwingLowsCausal(b.low, cfg.pivotWindow, t, b.Count());
  }

  lemma {:induction false} KnownAtAgain(pivots: seq<nat>, window: Period, t: int, s: int)
    requires s <= t
    ensures KnownAt(KnownAt(pivots, window, t), window, s) == KnownAt(pivots, window, s)
  {
    if pivots != [] {
      var n := |pivots| - 1;
      KnownAtAgain(pivots[..n], window, t, s);
      KnownAtSnoc(KnownAt(pivots[..n], window, t), pivots[n], window, s);
    }
  }

  lemma StructureCausal(b: Bars, t: nat, highs: seq<nat>, lows: seq<nat>)
    requires b.Shaped() && t < b.Count()
    requires forall i | 0 <= i < |highs| :: highs[i] <= t
    requires forall i | 0 <= i < |lows| :: lows[i] <= t
    ensures StructureOf(b.Cut(t), highs, lows) == StructureOf(b, highs, lows)
  {
  }

  lemma {:induction false} KnownAtBound(pivots: seq<nat>, window: Period, t: int)
    ensures forall i | 0 <= i < |KnownAt(pivots, window, t)| :: KnownAt(pivots, window, t)[i] <= t
  {
    if pivots != [] {
      KnownAtBound(pivots[..|pivots| - 1], window, t);
    }
  }

  /** The regime at bar s, seen from any later bar t, is the one the whole series gives: nothing after
      t was used, and with t == s nothing after s. */
  lemma RegimeCausal(b: Bars, cfg: Config, s: nat, t: nat)
    requires b.Shaped() && 2 * cfg.adxPeriod <= t < b.Count() && cfg.slopeLookback <= s <= t
    ensures b.Cut(t).Shaped()
    ensures ClassifyRegime(b, IndicationOf(b, cfg), s, cfg)
            == ClassifyRegime(b.Cut(t), IndicationOf(b.Cut(t), cfg), s, cfg)
  {
    IndicationCausal(b, cfg, t);
    var full, cut := IndicationOf(b, cfg), IndicationOf(b.Cut(t), cfg);
    assert |full.emaFast| == |full.emaSlow| == |full.atr| == |full.adx| == b.Count();
    hide IndicationOf;
    RegimeCausalStep(b, full, cut, cfg, s, t);
  }

  lemma RegimeCausalStep(b: Bars, full: Indication, cut: Indication, cfg: Config, s: nat, t: nat)
    requires b.Shaped() && cfg.slopeLookback <= s <= t < b.Count()
    requires |full.emaFast| == |full.emaSlow| == |full.atr| == |full.adx| == b.Count()
    requires cut.emaFast == full.emaFast[..t + 1] && cut.emaSlow == full.emaSlow[..t + 1]
    requires cut.atr == full.atr[..t + 1] && cut.adx == full.adx[..t + 1]
    requires cut.swingHighs == KnownAt(full.swingHighs, cfg.pivotWindow, t)
    requires cut.swingLows == KnownAt(full.swingLows, cfg.pivotWindow, t)
    ensures ClassifyRegime(b, full, s, cfg) == ClassifyRegime(b.Cut(t), cut, s, cfg)
  {
    KnownAtAgain(full.swingHighs, cfg.pivotWindow, t, s);
    KnownAtAgain(full.swingLows, cfg.pivotWindow, t, s);
    var highs, lows := KnownAt(full.swingHighs, cfg.pivotWindow, s), KnownAt(full.swingLows, cfg.pivotWindow, s);
    KnownAtBound(full.swingHighs, cfg.pivotWindow, s);
    KnownAtBound(full.swingLows, cfg.pivotWindow, s);
    StructureCausal(b, t, highs, lows);
    hide KnownAt, StructureOf, BiasOf, TrendOf;
  }

  // ----- The mirror -----

  function MirrorBias(bias: Bias): Bias {
    match bias case Bull => Bear case Bear => Bull case Neutral => Neutral
  }

  function MirrorStructure(s: Structure): Structure {
    match s case Rising => Falling case Falling => Rising case _ => s
  }

  function MirrorTrend(trend: Trend): Trend {
    match trend case Bullish => Bearish case Bearish => Bullish case _ => trend
  }

  function Negated(x: Option<real>): Option<real> {
    match x case None => None case Some(v) => Some(-v)
  }

  function MirrorRegime(r: Regime): Regime {
    Regime(MirrorTrend(r.trend), MirrorBias(r.bias), MirrorStructure(r.structure), r.adx, Negated(r.separation), Negated(r.slope))
  }

  ghost predicate Mirrored(ind: Indication, mirror: Indication, k: real, n: nat) {
    && |ind.emaFast| == |ind.emaSlow| == |ind.rsi| == |mirror.emaFast| == |mirror.emaSlow| == |mirror.rsi| == n
    && (forall i | 0 <= i < n :: mirror.emaFast[i] == k - ind.emaFast[i])
    && (forall i | 0 <= i < n :: mirror.emaSlow[i] == k - ind.emaSlow[i])
    && mirror.atr == ind.atr && mirror.adx == ind.adx
    && (forall i | 0 <= i < n :: mirror.rsi[i] == match ind.rsi[i] case None => None case Some(r) => Some(100.0 - r))
    && mirror.swingHighs == ind.swingLows && mirror.swingLows == ind.swingHighs
  }

  lemma IndicationMirror(b: Bars, cfg: Config, k: real)
    requires b.Shaped()
    ensures b.Reflect(k).Shaped()
    ensures Mirrored(IndicationOf(b, cfg), IndicationOf(b.Reflect(k), cfg), k, b.Count())
  {
    ReflectShape(b, k);
    EmaOfReflect(b, k, cfg.fastEma);
    EmaOfReflect(b, k, cfg.slowEma);
    RsiReflect(b, k, cfg.rsiPeriod);
    AdxReflect(b, k, cfg.adxPeriod);
    SwingsReflect(b.low, b.Reflect(k).high, k, cfg.pivotWindow, b.Count());
    SwingsReflect(b.high, b.Reflect(k).low, k, cfg.pivotWindow, b.Count());
  }

  lemma StructureMirror(b: Bars, k: real, highs: seq<nat>, lows: seq<nat>)
    requires b.Shaped()
    ensures StructureOf(b.Reflect(k), lows, highs)
            == match StructureOf(b, highs, lows) case None => None case Some(s) => Some(MirrorStructure(s))
  {
  }

  lemma TrendMirror(bias: Bias, structure: Structure, adx: Option<real>, cfg: Config)
    ensures TrendOf(MirrorBias(bias), MirrorStructure(structure), adx, cfg) == MirrorTrend(TrendOf(bias, structure, adx, cfg))
  {
  }

  /** Reflecting every price swaps the direction of the regime and changes nothing else. */
  lemma RegimeMirror(b: Bars, cfg: Config, k: real, t: int)
    requires b.Shaped()
    ensures b.Reflect(k).Shaped()
    ensures ClassifyRegime(b.Reflect(k), IndicationOf(b.Reflect(k), cfg), t, cfg)
            == match ClassifyRegime(b, IndicationOf(b, cfg), t, cfg) case None => None case Some(r) => Some(MirrorRegime(r))
  {
    IndicationMirror(b, cfg, k);
    var ind, mirror := IndicationOf(b, cfg), IndicationOf(b.Reflect(k), cfg);
    hide IndicationOf;
    RegimeMirrorStep(b, ind, mirror, cfg, k, t);
  }

  lemma RegimeMirrorStep(b: Bars, ind: Indication, mirror: Indication, cfg: Config, k: real, t: int)
    requires b.Shaped() && Mirrored(ind, mirror, k, b.Count())
    ensures ClassifyRegime(b.Reflect(k), mirror, t, cfg)
            == match ClassifyRegime(b, ind, t, cfg) case None => None case Some(r) => Some(MirrorRegime(r))
  {
    StructureMirror(b, k, KnownAt(ind.swingHighs, cfg.pivotWindow, t), KnownAt(ind.swingLows, cfg.pivotWindow, t));
    hide StructureOf, KnownAt, RegimeOf, MirrorRegime, MirrorStructure;
    var values := (At(ind.atr, t), At(b.close, t), At(ind.emaFast, t), At(ind.emaSlow, t),
                   At(ind.emaSlow, t - cfg.slopeLookback), At(ind.adx, t));
    match values {
      case (Some(atr), Some(close), Some(fast), Some(slow), Some(earlier), Some(adx)) =>
        forall structure
          ensures RegimeOf(atr, k - close, k - fast, k - slow, k - earlier, adx, MirrorStructure(structure), cfg)
                  == match RegimeOf(atr, close, fast, slow, earlier, adx, structure, cfg)
                     case None => None case Some(r) => Some(MirrorRegime(r))
        {
          RegimeOfMirror(atr, close, fast, slow, earlier, adx, structure, cfg, k);
        }
      case _ =>
    }
  }

  lemma RegimeOfMirror(atr: Option<real>, close: real, fast: real, slow: real, earlier: real, adx: Option<real>,
                       structure: Structure, cfg: Config, k: real)
    ensures RegimeOf(atr, k - close, k - fast, k - slow, k - earlier, adx, MirrorStructure(structure), cfg)
            == match RegimeOf(atr, close, fast, slow, earlier, adx, structure, cfg)
               case None => None case Some(r) => Some(MirrorRegime(r))
  {
    hide BiasOf, TrendOf;
    if atr == None {
      TrendMirror(Neutral, structure, adx, cfg);
    } else if atr.value != 0.0 {
      var support := Support(cfg, atr.value);
      var separation, slope := Spread(fast, slow, atr.value), Spread(slow, earlier, atr.value);
      SpreadMirror(k, fast, slow, atr.value);
      SpreadMirror(k, slow, earlier, atr.value);
      hide Spread, Support;
      BiasMirror(separation, slope, close, slow, support, cfg, k);
      TrendMirror(BiasOf(separation, slope, close, slow, support, cfg), structure, adx, cfg);
    }
  }

  lemma SpreadMirror(k: real, a: real, b: real, atr: real)
    requires atr != 0.0
    ensures Spread(k - a, k - b, atr) == -Spread(a, b, atr)
  {
  }

  lemma BiasMirror(separation: real, slope: real, close: real, slow: real, support: real, cfg: Config, k: real)
    ensures BiasOf(-separation, -slope, k - close, k - slow, support, cfg)
            == MirrorBias(BiasOf(separation, slope, close, slow, support, cfg))
  {
  }
}
