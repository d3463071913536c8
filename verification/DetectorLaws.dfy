/** What every verdict guarantees: scores in range, setups with a protective invalidation level,
    and exactly when the evaluation raises. */
module DetectorLaws {
  import opened Wrappers
  import opened RealMath
  import opened Indicators
  import opened IndicatorLaws
  import opened Regime
  import opened Detector

  // ----- Scores -----

  ghost predicate Unit(x: real) {
    0.0 <= x <= 1.0
  }

  ghost predicate InUnit(parts: Components) {
    Unit(parts.trend) && Unit(parts.strength) && Unit(parts.pullback) && Unit(parts.momentum) && Unit(parts.volatility)
  }

  lemma ScoreInUnit(parts: Components)
    requires InUnit(parts)
    ensures Unit(parts.Score())
  {
  }

  lemma TrendInUnit(side: Side, r: Regime)
    ensures Unit(TrendComponent(side, r))
  {
  }

  lemma MomentumInUnit(rsi: real, bounce: real)
    ensures Unit(MomentumComponent(rsi, bounce))
  {
  }

  ghost predicate ComponentInUnit(p: Pullback) {
    match p
    case NotReady(_, _, component) => Unit(component)
    case Ready(_, _, component, _) => Unit(component)
    case Failed => true
  }

  lemma GeometryInUnit(v: View, cfg: Config, atr: real, t: nat)
    requires Fits(v, t + 1) && 0.0 < atr
    ensures ComponentInUnit(PullbackGeometry(v, cfg, atr, t))
  {
    hide ArgMin, LastBefore;
  }

  ghost predicate ScoreOk(v: Verdict) {
    match v
    case Refused(_, _, _, score) => Unit(score)
    case Found(_, score) => Unit(score)
    case Raised => true
  }

  lemma JudgeInUnit(setup: Setup, parts: Components, rsi: real, cfg: Config, minimumScore: real)
    requires InUnit(parts)
    ensures ScoreOk(Judge(setup, parts, rsi, cfg, minimumScore))
  {
  }

  lemma JudgeSetupsInUnit(b: Bars, ind: Indication, c: Context, cfg: Config, side: Side, minimumScore: real)
    requires Wired(b, ind, cfg) && 0.0 < c.atr && cfg.breakoutRetestToleranceAtr != 0.0
    requires Unit(c.strength) && Unit(c.volatility)
    ensures ScoreOk(JudgeSetups(b, ind, c, cfg, side, minimumScore))
  {
    hide SearchBreakout, PullbackGeometry, TrendComponent, MomentumComponent, Judge, Confirmed, BreakoutLevel;
    var t, v := b.Count() - 1, Orient(b, ind, side);
    var parts := Components(TrendComponent(side, c.regime), c.strength, 0.0, 0.0, c.volatility);
    TrendInUnit(side, c.regime);
    ScoreInUnit(parts);
    match SearchBreakout(v, ind.atr, cfg, c.atr, t) {
      case Some(f) =>
        SearchBreakoutInRange(v, ind.atr, cfg, c.atr, t);
        forall setup, scored: Components, rsi | InUnit(scored)
          ensures ScoreOk(Judge(setup, scored, rsi, cfg, minimumScore))
        {
          JudgeInUnit(setup, scored, rsi, cfg, minimumScore);
        }
        MomentumInUnit(DirectionalRsi(side, c.rsi), (v.close[t] - f.level) / c.atr);
      case None =>
        GeometryInUnit(v, cfg, c.atr, t);
        match PullbackGeometry(v, cfg, c.atr, t) {
          case Failed =>
          case NotReady(_, _, component) => ScoreInUnit(parts.(pullback := component));
          case Ready(anchor, extreme, component, bounce) =>
            var rsi := DirectionalRsi(side, c.rsi);
            MomentumInUnit(rsi, bounce);
            if anchor < b.Count() {
              var setup := Setup(TrendPullback, side, b.times[anchor], b.close[t], Price(side, extreme), c.atr, c.rsi, c.atrRatio);
              JudgeInUnit(setup, parts.(pullback := component, momentum := MomentumComponent(rsi, bounce)), rsi, cfg, minimumScore);
            }
        }
    }
  }

  /** Every score the detector reports lies in [0, 1]. */
  lemma ScoresInUnit(b: Bars, cfg: Config, minimumScore: real)
    requires b.Shaped() && b.Count() > 0 && 0 < cfg.breakoutLookback && cfg.breakoutRetestToleranceAtr != 0.0
    ensures ScoreOk(Technical(b, cfg, minimumScore))
  {
    IndicationWired(b, cfg);
    hide IndicationOf, Judged, Wired, ScoreOk;
    JudgedInUnit(b, IndicationOf(b, cfg), cfg, minimumScore);
  }

  lemma JudgedInUnit(b: Bars, ind: Indication, cfg: Config, minimumScore: real)
    requires Wired(b, ind, cfg) && cfg.breakoutRetestToleranceAtr != 0.0
    ensures ScoreOk(Judged(b, ind, cfg, minimumScore))
  {
    var t := b.Count() - 1;
    hide ContextOf, JudgeRegime;
    match (ind.atr[t], ind.adx[t], ind.rsi[t]) {
      case (Some(atr), Some(adx), Some(rsi)) =>
        ContextInUnit(b, ind, cfg, t, atr, adx, rsi);
        match ContextOf(b, ind, cfg, t, atr, adx, rsi) {
          case None =>
          case Some(c) => if 0.0 < atr { JudgeRegimeInUnit(b, ind, c, cfg, minimumScore); }
        }
      case _ =>
    }
  }

  lemma ContextInUnit(b: Bars, ind: Indication, cfg: Config, t: nat, atr: real, adx: real, rsi: real)
    ensures var c := ContextOf(b, ind, cfg, t, atr, adx, rsi);
            c.Some? ==> c.value.atr == atr && Unit(c.value.strength) && Unit(c.value.volatility)
  {
  }

  lemma JudgeRegimeInUnit(b: Bars, ind: Indication, c: Context, cfg: Config, minimumScore: real)
    requires Wired(b, ind, cfg) && 0.0 < c.atr && cfg.breakoutRetestToleranceAtr != 0.0
    requires Unit(c.strength) && Unit(c.volatility)
    ensures ScoreOk(JudgeRegime(b, ind, c, cfg, minimumScore))
  {
    hide JudgeSetups, TrendComponent;
    var side := if c.regime.trend == Bullish then Buy else Sell;
    TrendInUnit(side, c.regime);
    JudgeSetupsInUnit(b, ind, c, cfg, side, minimumScore);
    ScoreInUnit(Components(0.0, c.strength, 0.0, 0.0, c.volatility));
    ScoreInUnit(Components(TrendComponent(side, c.regime), c.strength, 0.0, 0.0, c.volatility));
  }

  /** More trend strength raises the score for every pair of readings exactly when the ranging
      threshold is below 35; the editable range of that threshold reaches 45. */
  lemma StrengthMonotoneExactly(cfg: Config)
    requires cfg.adxRanging != 35.0
    ensures cfg.adxRanging < 35.0 <==>
            forall x: real, y: real | x <= y :: StrengthComponent(x, cfg).value <= StrengthComponent(y, cfg).value
  {
    var r := cfg.adxRanging;
    if r < 35.0 {
      forall x: real, y: real | x <= y
        ensures StrengthComponent(x, cfg).value <= StrengthComponent(y, cfg).value
      {
        DivideMonotone(x - r, y - r, 35.0 - r);
      }
    } else {
      DivideSelf(35.0 - r);
      assert StrengthComponent(35.0, cfg).value == 1.0;
      assert StrengthComponent(r, cfg).value == 0.0;
    }
  }

  lemma DivideSelf(n: real)
    requires n != 0.0
    ensures n / n == 1.0 && 0.0 / n == 0.0
  {
  }

  // ----- Setups -----

  /** What the decision endpoint checks of every candle before the detector sees it. */
  ghost predicate ClosesInRange(b: Bars) {
    b.Shaped() && forall i | 0 <= i < b.Count() :: 0.0 < b.low[i] <= b.close[i] <= b.high[i]
  }

  /** The invalidation level lies strictly on the losing side of the reference price. */
  ghost predicate Protective(s: Setup) {
    && 0.0 < s.atr && 0.0 < s.reference && 0.0 < s.invalidation
    && (s.side == Buy ==> s.invalidation < s.reference)
    && (s.side == Sell ==> s.reference < s.invalidation)
  }

  lemma ReadyIsProtective(v: View, cfg: Config, atr: real, t: nat)
    requires Fits(v, t + 1) && 0.0 < atr && 0 < t
    requires forall i | 0 <= i <= t :: v.low[i] <= v.close[i]
    ensures var p := PullbackGeometry(v, cfg, atr, t);
            p.Ready? ==> p.anchor <= t && p.extreme < v.close[t] && exists i :: 0 <= i <= t && p.extreme == v.low[i]
  {
  }

  lemma JudgeSetupsProtective(b: Bars, ind: Indication, c: Context, cfg: Config, side: Side, minimumScore: real)
    requires Wired(b, ind, cfg) && ClosesInRange(b) && 0.0 < c.atr && cfg.breakoutRetestToleranceAtr != 0.0
    ensures var verdict := JudgeSetups(b, ind, c, cfg, side, minimumScore);
            verdict.Found? ==> verdict.setup.side == side && Protective(verdict.setup)
  {
    hide SearchBreakout, PullbackGeometry, TrendComponent, MomentumComponent, BreakoutLevel, IsBreakout;
    var t, v := b.Count() - 1, Orient(b, ind, side);
    match SearchBreakout(v, ind.atr, cfg, c.atr, t) {
      case Some(f) =>
        SearchBreakoutInRange(v, ind.atr, cfg, c.atr, t);
        assert v.close[t] > v.high[f.retestIndex] >= v.low[f.retestIndex];
      case None =>
        if 0 < t {
          ReadyIsProtective(v, cfg, c.atr, t);
        } else {
          SingleBarNotReady(v, cfg, c.atr);
        }
    }
  }

  lemma SingleBarNotReady(v: View, cfg: Config, atr: real)
    requires Fits(v, 1) && 0.0 < atr
    ensures !PullbackGeometry(v, cfg, atr, 0).Ready?
  {
  }

  /** Every setup found on candles that close within their range is protective: its invalidation
      level is strictly below (BUY) or above (SELL) the signal's close, and all prices are positive. */
  lemma FoundIsProtective(b: Bars, cfg: Config, minimumScore: real)
    requires ClosesInRange(b) && b.Count() > 0 && 0 < cfg.breakoutLookback && cfg.breakoutRetestToleranceAtr != 0.0
    ensures var verdict := Technical(b, cfg, minimumScore);
            verdict.Found? ==> Protective(verdict.setup) && verdict.setup.reference == b.close[b.Count() - 1]
  {
    IndicationWired(b, cfg);
    hide IndicationOf, Judged;
    JudgedProtective(b, IndicationOf(b, cfg), cfg, minimumScore);
  }

  lemma JudgedProtective(b: Bars, ind: Indication, cfg: Config, minimumScore: real)
    requires Wired(b, ind, cfg) && ClosesInRange(b) && cfg.breakoutRetestToleranceAtr != 0.0
    ensures var verdict := Judged(b, ind, cfg, minimumScore);
            verdict.Found? ==> Protective(verdict.setup) && verdict.setup.reference == b.close[b.Count() - 1]
  {
    hide ContextOf, JudgeRegime, Protective;
    var t := b.Count() - 1;
    if ind.atr[t].Some? && ind.adx[t].Some? && ind.rsi[t].Some? && 0.0 < ind.atr[t].value {
      ContextKeepsAtr(b, ind, cfg, t, ind.atr[t].value, ind.adx[t].value, ind.rsi[t].value);
      match ContextOf(b, ind, cfg, t, ind.atr[t].value, ind.adx[t].value, ind.rsi[t].value) {
        case None =>
        case Some(c) => JudgeRegimeProtective(b, ind, c, cfg, minimumScore);
      }
    }
  }

  lemma JudgeRegimeProtective(b: Bars, ind: Indication, c: Context, cfg: Config, minimumScore: real)
    requires Wired(b, ind, cfg) && ClosesInRange(b) && 0.0 < c.atr && cfg.breakoutRetestToleranceAtr != 0.0
    ensures var verdict := JudgeRegime(b, ind, c, cfg, minimumScore);
            verdict.Found? ==> Protective(verdict.setup) && verdict.setup.reference == b.close[b.Count() - 1]
  {
    hide JudgeSetups, TrendComponent, Protective;
    var side := if c.regime.trend == Bullish then Buy else Sell;
    JudgeSetupsProtective(b, ind, c, cfg, side, minimumScore);
    JudgeSetupsReference(b, ind, c, cfg, side, minimumScore);
  }

  lemma JudgeSetupsReference(b: Bars, ind: Indication, c: Context, cfg: Config, side: Side, minimumScore: real)
    requires Wired(b, ind, cfg) && 0.0 < c.atr && cfg.breakoutRetestToleranceAtr != 0.0
    ensures var verdict := JudgeSetups(b, ind, c, cfg, side, minimumScore);
            verdict.Found? ==> verdict.setup.reference == b.close[b.Count() - 1] && minimumScore <= verdict.score
  {
    hide SearchBreakout, PullbackGeometry, TrendComponent, MomentumComponent, BreakoutLevel, Confirmed;
  }

  /** The invalidation level is a low (BUY) or a high (SELL) of the series. */
  ghost predicate AtAnExtreme(b: Bars, s: Setup)
    requires b.Shaped()
  {
    exists i :: 0 <= i < b.Count() && s.invalidation == if s.side == Buy then b.low[i] else b.high[i]
  }

  lemma JudgeSetupsAtExtreme(b: Bars, ind: Indication, c: Context, cfg: Config, side: Side, minimumScore: real)
    requires Wired(b, ind, cfg) && ClosesInRange(b) && 0.0 < c.atr && cfg.breakoutRetestToleranceAtr != 0.0
    ensures var verdict := JudgeSetups(b, ind, c, cfg, side, minimumScore);
            verdict.Found? ==> AtAnExtreme(b, verdict.setup)
  {
    hide SearchBreakout, PullbackGeometry, TrendComponent, MomentumComponent, BreakoutLevel, IsBreakout, Confirmed, Clip;
    var t, v := b.Count() - 1, Orient(b, ind, side);
    match SearchBreakout(v, ind.atr, cfg, c.atr, t) {
      case Some(f) =>
        SearchBreakoutInRange(v, ind.atr, cfg, c.atr, t);
        assert Price(side, v.low[f.retestIndex]) == if side == Buy then b.low[f.retestIndex] else b.high[f.retestIndex];
      case None =>
        if 0 < t {
          ReadyIsProtective(v, cfg, c.atr, t);
          assert forall i | 0 <= i <= t :: Price(side, v.low[i]) == if side == Buy then b.low[i] else b.high[i];
        } else {
          SingleBarNotReady(v, cfg, c.atr);
        }
    }
  }

  lemma FoundAtExtreme(b: Bars, cfg: Config, minimumScore: real)
    requires ClosesInRange(b) && b.Count() > 0 && 0 < cfg.breakoutLookback && cfg.breakoutRetestToleranceAtr != 0.0
    ensures var verdict := Technical(b, cfg, minimumScore); verdict.Found? ==> AtAnExtreme(b, verdict.setup)
  {
    IndicationWired(b, cfg);
    hide IndicationOf, Judged;
    JudgedAtExtreme(b, IndicationOf(b, cfg), cfg, minimumScore);
  }

  lemma JudgedAtExtreme(b: Bars, ind: Indication, cfg: Config, minimumScore: real)
    requires Wired(b, ind, cfg) && ClosesInRange(b) && cfg.breakoutRetestToleranceAtr != 0.0
    ensures var verdict := Judged(b, ind, cfg, minimumScore); verdict.Found? ==> AtAnExtreme(b, verdict.setup)
  {
    hide ContextOf, JudgeSetups, TrendComponent, AtAnExtreme;
    var t := b.Count() - 1;
    if ind.atr[t].Some? && ind.adx[t].Some? && ind.rsi[t].Some? && 0.0 < ind.atr[t].value {
      ContextKeepsAtr(b, ind, cfg, t, ind.atr[t].value, ind.adx[t].value, ind.rsi[t].value);
      match ContextOf(b, ind, cfg, t, ind.atr[t].value, ind.adx[t].value, ind.rsi[t].value) {
        case None =>
        case Some(c) => JudgeSetupsAtExtreme(b, ind, c, cfg, if c.regime.trend == Bullish then Buy else Sell, minimumScore);
      }
    }
  }

  // ----- What an approval rests on -----

  /** Every gate a found setup has passed, read at the newest bar t. */
  ghost predicate PassedGates(b: Bars, ind: Indication, cfg: Config, minimumScore: real, found: Setup, score: real)
    requires Wired(b, ind, cfg)
  {
    var t := b.Count() - 1;
    var now, before := ClassifyRegime(b, ind, t, cfg), ClassifyRegime(b, ind, t - cfg.regimeLookback, cfg);
    && ind.atr[t] == Some(found.atr) && 0.0 < found.atr && ind.rsi[t] == Some(found.rsi)
    && now.Some? && before.Some?
    && now.value.trend == (if found.side == Buy then Bullish else Bearish)
    && before.value.trend != (if found.side == Buy then Bearish else Bullish)
    && cfg.atrRatioMin <= found.atrRatio <= cfg.atrRatioMax
    && DirectionalRsi(found.side, found.rsi) <= cfg.rsiOverbought
    && minimumScore <= score
  }

  lemma JudgeSetupsKeeps(b: Bars, ind: Indication, c: Context, cfg: Config, side: Side, minimumScore: real)
    requires Wired(b, ind, cfg) && 0.0 < c.atr && cfg.breakoutRetestToleranceAtr != 0.0
    ensures var verdict := JudgeSetups(b, ind, c, cfg, side, minimumScore);
            verdict.Found? ==>
              var s := verdict.setup;
              s.side == side && s.atr == c.atr && s.rsi == c.rsi && s.atrRatio == c.atrRatio
              && DirectionalRsi(side, c.rsi) <= cfg.rsiOverbought && minimumScore <= verdict.score
  {
    hide SearchBreakout, PullbackGeometry, TrendComponent, MomentumComponent, Confirmed, BreakoutLevel, Clip;
    var t, v := b.Count() - 1, Orient(b, ind, side);
    if SearchBreakout(v, ind.atr, cfg, c.atr, t).Some? {
      SearchBreakoutInRange(v, ind.atr, cfg, c.atr, t);
    }
  }

  lemma JudgeRegimeKeeps(b: Bars, ind: Indication, c: Context, cfg: Config, minimumScore: real)
    requires Wired(b, ind, cfg) && 0.0 < c.atr && cfg.breakoutRetestToleranceAtr != 0.0
    ensures var verdict := JudgeRegime(b, ind, c, cfg, minimumScore);
            verdict.Found? ==>
              var s := verdict.setup;
              && s.atr == c.atr && s.rsi == c.rsi && s.atrRatio == c.atrRatio
              && c.regime.trend == (if s.side == Buy then Bullish else Bearish)
              && c.previous.trend != (if s.side == Buy then Bearish else Bullish)
              && cfg.atrRatioMin <= c.atrRatio <= cfg.atrRatioMax
              && DirectionalRsi(s.side, c.rsi) <= cfg.rsiOverbought && minimumScore <= verdict.score
  {
    hide JudgeSetups, TrendComponent, DirectionalRsi;
    JudgeSetupsKeeps(b, ind, c, cfg, if c.regime.trend == Bullish then Buy else Sell, minimumScore);
  }

  lemma ContextReads(b: Bars, ind: Indication, cfg: Config, t: nat, atr: real, adx: real, rsi: real)
    ensures var c := ContextOf(b, ind, cfg, t, atr, adx, rsi);
            c.Some? ==>
              && c.value.atr == atr && c.value.rsi == rsi
              && ClassifyRegime(b, ind, t, cfg) == Some(c.value.regime)
              && ClassifyRegime(b, ind, t - cfg.regimeLookback, cfg) == Some(c.value.previous)
  {
    hide ClassifyRegime, Median, StrengthComponent, VolatilityComponent;
  }

  lemma JudgedPassedGates(b: Bars, ind: Indication, cfg: Config, minimumScore: real)
    requires Wired(b, ind, cfg) && cfg.breakoutRetestToleranceAtr != 0.0
    ensures var verdict := Judged(b, ind, cfg, minimumScore);
            verdict.Found? ==> PassedGates(b, ind, cfg, minimumScore, verdict.setup, verdict.score)
  {
    hide ContextOf, JudgeRegime, ClassifyRegime, DirectionalRsi;
    var t := b.Count() - 1;
    if ind.atr[t].Some? && ind.adx[t].Some? && ind.rsi[t].Some? && 0.0 < ind.atr[t].value {
      ContextReads(b, ind, cfg, t, ind.atr[t].value, ind.adx[t].value, ind.rsi[t].value);
      match ContextOf(b, ind, cfg, t, ind.atr[t].value, ind.adx[t].value, ind.rsi[t].value) {
        case None =>
        case Some(c) => JudgeRegimeKeeps(b, ind, c, cfg, minimumScore);
      }
    }
  }

  /** A found setup is in the direction of the current regime, not against the earlier one, within the
      volatility limits, not overextended, and scored at least the minimum. */
  lemma FoundPassedGates(b: Bars, cfg: Config, minimumScore: real)
    requires b.Shaped() && b.Count() > 0 && 0 < cfg.breakoutLookback && cfg.breakoutRetestToleranceAtr != 0.0
    ensures Wired(b, IndicationOf(b, cfg), cfg)
    ensures var verdict := Technical(b, cfg, minimumScore);
            verdict.Found? ==> PassedGates(b, IndicationOf(b, cfg), cfg, minimumScore, verdict.setup, verdict.score)
  {
    IndicationWired(b, cfg);
    hide IndicationOf, Judged, Wired, PassedGates;
    JudgedPassedGates(b, IndicationOf(b, cfg), cfg, minimumScore);
  }

  // ----- Definedness -----

  /** The lookbacks reach no further than the first bar, and the thresholds the geometry divides by are not zero. */
  ghost predicate EnoughHistory(b: Bars, cfg: Config) {
    && b.Shaped() && cfg.regimeLookback + cfg.slopeLookback < b.Count()
    && 0 < cfg.breakoutLookback && cfg.breakoutRetestToleranceAtr != 0.0
    && 0.0 < cfg.minImpulseAtr && cfg.zoneToleranceAtr != 0.0
  }

  lemma {:induction false} KnownAtMembers(pivots: seq<nat>, window: Period, t: int, n: nat)
    requires forall i | 0 <= i < |pivots| :: pivots[i] < n
    ensures forall i | 0 <= i < |KnownAt(pivots, window, t)| :: KnownAt(pivots, window, t)[i] < n
  {
    if pivots != [] {
      KnownAtMembers(pivots[..|pivots| - 1], window, t, n);
    }
  }

  lemma RegimeDefinedExactly(b: Bars, ind: Indication, cfg: Config, t: nat)
    requires Wired(b, ind, cfg) && cfg.slopeLookback <= t < b.Count()
    ensures ClassifyRegime(b, ind, t, cfg) == None <==> ind.atr[t] == Some(0.0)
  {
    KnownAtMembers(ind.swingHighs, cfg.pivotWindow, t, b.Count());
    KnownAtMembers(ind.swingLows, cfg.pivotWindow, t, b.Count());
    var highs := KnownAt(ind.swingHighs, cfg.pivotWindow, t);
    var lows := KnownAt(ind.swingLows, cfg.pivotWindow, t);
    assert StructureOf(b, highs, lows).Some?;
    hide StructureOf, BiasOf, TrendOf, KnownAt;
  }

  /** The divisions by zero of the shared gates, as conditions on the configuration and the series. */
  ghost predicate DividesByZero(ind: Indication, cfg: Config, t: nat, atr: real)
    requires cfg.regimeLookback <= t < |ind.atr|
  {
    || ind.atr[t - cfg.regimeLookback] == Some(0.0)
    || cfg.adxRanging == 35.0
    || match Median(Defined(Newest(ind.atr, cfg.atrBaselineBars)))
       case None => true
       case Some(baseline) =>
         || baseline == 0.0
         || (atr / baseline < 0.8 && cfg.atrRatioMin == 0.8)
         || (atr / baseline > 1.6 && cfg.atrRatioMax == 1.6)
  }

  lemma ContextDefinedExactly(b: Bars, ind: Indication, cfg: Config, t: nat, atr: real, adx: real, rsi: real)
    requires Wired(b, ind, cfg) && cfg.regimeLookback + cfg.slopeLookback <= t < b.Count()
    requires ind.atr[t] == Some(atr) && 0.0 < atr
    ensures ContextOf(b, ind, cfg, t, atr, adx, rsi) == None <==> DividesByZero(ind, cfg, t, atr)
  {
    RegimeDefinedExactly(b, ind, cfg, t);
    RegimeDefinedExactly(b, ind, cfg, t - cfg.regimeLookback);
    hide ClassifyRegime, Median;
  }

  lemma {:induction false} LastBeforeIsPivot(pivots: seq<nat>, i: nat)
    ensures var p := LastBefore(pivots, i); p.Some? ==> p.value < i && p.value in pivots
  {
    if pivots != [] {
      LastBeforeIsPivot(pivots[..|pivots| - 1], i);
    }
  }

  lemma GeometryDefined(v: View, cfg: Config, atr: real, t: nat)
    requires Fits(v, t + 1) && 0.0 < atr && 0.0 < cfg.minImpulseAtr && cfg.zoneToleranceAtr != 0.0
    requires forall i | 0 <= i < |v.swingHighs| :: 0 < v.swingHighs[i] < t
    ensures var p := PullbackGeometry(v, cfg, atr, t); !p.Failed? && (p.Ready? ==> p.anchor < t)
  {
    if v.swingHighs != [] {
      var ih := v.swingHighs[|v.swingHighs| - 1];
      LastBeforeIsPivot(v.swingLows, ih);
      LastBeforeIsPivot(v.swingHighs, ih);
      hide ArgMin, LastBefore;
      match ImpulseStart(v, cfg, ih) {
        case Failure(_) =>
        case Success(il) =>
          assert il <= t;
          AfterImpulseDefined(v, cfg, atr, t, ih, il);
      }
    }
  }

  lemma AfterImpulseDefined(v: View, cfg: Config, atr: real, t: nat, ih: nat, il: nat)
    requires Fits(v, t + 1) && 0.0 < atr && 0.0 < cfg.minImpulseAtr && cfg.zoneToleranceAtr != 0.0
    requires ih < t && il <= t
    ensures var p := AfterImpulse(v, cfg, atr, t, ih, il); !p.Failed? && (p.Ready? ==> p.anchor == ih)
  {
  }

  lemma JudgeSetupsDefined(b: Bars, ind: Indication, c: Context, cfg: Config, side: Side, minimumScore: real)
    requires Wired(b, ind, cfg) && 0.0 < c.atr && EnoughHistory(b, cfg)
    requires forall i | 0 <= i < |ind.swingHighs| :: 0 < ind.swingHighs[i] < b.Count() - 1
    requires forall i | 0 <= i < |ind.swingLows| :: 0 < ind.swingLows[i] < b.Count() - 1
    ensures !JudgeSetups(b, ind, c, cfg, side, minimumScore).Raised?
  {
    hide SearchBreakout, PullbackGeometry, TrendComponent, MomentumComponent, BreakoutLevel, Confirmed;
    GeometryDefined(Orient(b, ind, side), cfg, c.atr, b.Count() - 1);
  }

  lemma IndicationPivotsInside(b: Bars, cfg: Config)
    requires b.Shaped()
    ensures forall i | 0 <= i < |IndicationOf(b, cfg).swingHighs| :: 0 < IndicationOf(b, cfg).swingHighs[i] < b.Count() - 1
    ensures forall i | 0 <= i < |IndicationOf(b, cfg).swingLows| :: 0 < IndicationOf(b, cfg).swingLows[i] < b.Count() - 1
  {
    SwingHighsExact(b.high, cfg.pivotWindow, b.Count());
    SwingLowsExact(b.low, cfg.pivotWindow, b.Count());
  }

  /** Exactly when an evaluation raises: only through one of the listed divisions by zero. */
  lemma RaisesExactly(b: Bars, cfg: Config, minimumScore: real)
    requires EnoughHistory(b, cfg)
    ensures Technical(b, cfg, minimumScore).Raised? <==>
            var ind, t := IndicationOf(b, cfg), b.Count() - 1;
            && ind.atr[t].Some? && ind.adx[t].Some? && ind.rsi[t].Some? && 0.0 < ind.atr[t].value
            && DividesByZero(ind, cfg, t, ind.atr[t].value)
  {
    IndicationWired(b, cfg);
    IndicationPivotsInside(b, cfg);
    hide IndicationOf, Judged, DividesByZero;
    JudgedRaisesExactly(b, IndicationOf(b, cfg), cfg, minimumScore);
  }

  lemma JudgedRaisesExactly(b: Bars, ind: Indication, cfg: Config, minimumScore: real)
    requires Wired(b, ind, cfg) && EnoughHistory(b, cfg)
    requires forall i | 0 <= i < |ind.swingHighs| :: 0 < ind.swingHighs[i] < b.Count() - 1
    requires forall i | 0 <= i < |ind.swingLows| :: 0 < ind.swingLows[i] < b.Count() - 1
    ensures Judged(b, ind, cfg, minimumScore).Raised? <==>
            var t := b.Count() - 1;
            && ind.atr[t].Some? && ind.adx[t].Some? && ind.rsi[t].Some? && 0.0 < ind.atr[t].value
            && DividesByZero(ind, cfg, t, ind.atr[t].value)
  {
    hide ContextOf, DividesByZero, JudgeRegime;
    var t := b.Count() - 1;
    if ind.atr[t].Some? && ind.adx[t].Some? && ind.rsi[t].Some? && 0.0 < ind.atr[t].value {
      var atr, adx, rsi := ind.atr[t].value, ind.adx[t].value, ind.rsi[t].value;
      ContextDefinedExactly(b, ind, cfg, t, atr, adx, rsi);
      ContextKeepsAtr(b, ind, cfg, t, atr, adx, rsi);
      match ContextOf(b, ind, cfg, t, atr, adx, rsi) {
        case None =>
        case Some(c) => JudgeRegimeDefined(b, ind, c, cfg, minimumScore);
      }
    }
  }

  lemma JudgeRegimeDefined(b: Bars, ind: Indication, c: Context, cfg: Config, minimumScore: real)
    requires Wired(b, ind, cfg) && 0.0 < c.atr && EnoughHistory(b, cfg)
    requires forall i | 0 <= i < |ind.swingHighs| :: 0 < ind.swingHighs[i] < b.Count() - 1
    requires forall i | 0 <= i < |ind.swingLows| :: 0 < ind.swingLows[i] < b.Count() - 1
    ensures !JudgeRegime(b, ind, c, cfg, minimumScore).Raised?
  {
    hide JudgeSetups, TrendComponent;
    JudgeSetupsDefined(b, ind, c, cfg, if c.regime.trend == Bullish then Buy else Sell, minimumScore);
  }
}
