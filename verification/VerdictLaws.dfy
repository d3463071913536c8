/** The detector's whole verdict in prices: when a setup is found, which one, and what is reported otherwise. */
module VerdictLaws {
  import opened Wrappers
  import opened RealMath
  import opened Indicators
  import opened Regime
  import opened Detector
  import opened DetectorLaws
  import opened PullbackLaws

  // ----- The breakout in prices -----

  /** level is the highest high of the bars before bi. */
  ghost predicate IsLevel(v: View, cfg: Config, bi: nat, level: real)
    requires cfg.breakoutLookback <= bi <= |v.high|
  {
    && (forall j | bi - cfg.breakoutLookback <= j < bi :: v.high[j] <= level)
    && exists j :: bi - cfg.breakoutLookback <= j < bi && v.high[j] == level
  }

  /** Bar bi closes beyond the bars before it by more than the buffer; within the allowed age bar ri comes
      back to that level within the tolerance; no close since is below it, and bar t closes beyond bar ri. */
  ghost predicate Confirms(v: View, atr: seq<Option<real>>, cfg: Config, atrNow: real, t: nat, f: Breakout)
    requires CanSearch(v, atr, cfg, t)
  {
    && cfg.breakoutLookback <= f.breakoutIndex < f.retestIndex < t
    && f.retestIndex - f.breakoutIndex <= cfg.breakoutMaxRetestBars
    && IsLevel(v, cfg, f.breakoutIndex, f.level)
    && atr[f.breakoutIndex].Some? && 0.0 < atr[f.breakoutIndex].value
    && f.level + Scaled(cfg.breakoutBufferAtr, atr[f.breakoutIndex].value) < v.close[f.breakoutIndex]
    && f.level - Scaled(cfg.breakoutRetestToleranceAtr, atrNow) <= v.low[f.retestIndex]
    && v.low[f.retestIndex] <= f.level + Scaled(cfg.breakoutRetestToleranceAtr, atrNow)
    && (forall j | f.retestIndex <= j <= t :: f.level <= v.close[j])
    && v.high[f.retestIndex] < v.close[t]
  }

  ghost predicate Recent(cfg: Config, t: nat, f: Breakout) {
    t - f.breakoutIndex <= cfg.breakoutMaxRetestBars + 1
  }

  /** The newest breakout that is confirmed, with its oldest retest. */
  ghost predicate IsChosen(v: View, atr: seq<Option<real>>, cfg: Config, atrNow: real, t: nat, f: Breakout)
    requires CanSearch(v, atr, cfg, t)
  {
    && cfg.breakoutRetestEnabled && Confirms(v, atr, cfg, atrNow, t, f) && Recent(cfg, t, f)
    && forall g | Confirms(v, atr, cfg, atrNow, t, g) ::
         g.breakoutIndex < f.breakoutIndex || (g.breakoutIndex == f.breakoutIndex && f.retestIndex <= g.retestIndex)
  }

  ghost predicate NoneChosen(v: View, atr: seq<Option<real>>, cfg: Config, atrNow: real, t: nat)
    requires CanSearch(v, atr, cfg, t)
  {
    cfg.breakoutRetestEnabled ==> forall f | Confirms(v, atr, cfg, atrNow, t, f) :: !Recent(cfg, t, f)
  }

  lemma LevelIsHighest(v: View, cfg: Config, bi: nat, level: real)
    requires 0 < cfg.breakoutLookback <= bi <= |v.high|
    ensures IsLevel(v, cfg, bi, level) <==> level == BreakoutLevel(v, cfg, bi)
  {
    hide Highest;
  }

  lemma ConfirmsExactly(v: View, atr: seq<Option<real>>, cfg: Config, atrNow: real, t: nat, f: Breakout)
    requires CanSearch(v, atr, cfg, t)
    ensures Confirms(v, atr, cfg, atrNow, t, f) <==>
            && cfg.breakoutLookback <= f.breakoutIndex < f.retestIndex < t && f.level == BreakoutLevel(v, cfg, f.breakoutIndex)
            && Confirmed(v, atr, cfg, Tolerance(cfg, atrNow), t, f.breakoutIndex, f.retestIndex)
  {
    if cfg.breakoutLookback <= f.breakoutIndex < f.retestIndex < t {
      LevelIsHighest(v, cfg, f.breakoutIndex, f.level);
    }
    hide IsLevel, BreakoutLevel;
  }

  /** The search finds exactly the chosen breakout, and none exactly when no recent one is confirmed. */
  lemma SearchExactly(v: View, atr: seq<Option<real>>, cfg: Config, atrNow: real, t: nat)
    requires CanSearch(v, atr, cfg, t)
    ensures match SearchBreakout(v, atr, cfg, atrNow, t)
            case None => NoneChosen(v, atr, cfg, atrNow, t)
            case Some(f) => IsChosen(v, atr, cfg, atrNow, t, f)
    ensures forall f | IsChosen(v, atr, cfg, atrNow, t, f) :: SearchBreakout(v, atr, cfg, atrNow, t) == Some(f)
  {
    hide Confirmed, Confirms, BreakoutLevel, LatestBreakout, Tolerance;
    var tolerance := Tolerance(cfg, atrNow);
    BreakoutSearchExact(v, atr, cfg, tolerance, t, FirstBreakout(cfg, t), t - 2);
    forall g
      ensures Confirms(v, atr, cfg, atrNow, t, g) <==>
              && cfg.breakoutLookback <= g.breakoutIndex < g.retestIndex < t && g.level == BreakoutLevel(v, cfg, g.breakoutIndex)
              && Confirmed(v, atr, cfg, tolerance, t, g.breakoutIndex, g.retestIndex)
    {
      ConfirmsExactly(v, atr, cfg, atrNow, t, g);
    }
  }

  // ----- The setups -----

  /** A verdict on one evaluation reads these: the newest bar, its readings and the shared context. */
  ghost predicate Reads(b: Bars, ind: Indication, c: Context, cfg: Config) {
    && Wired(b, ind, cfg) && EnoughHistory(b, cfg) && 0.0 < c.atr
    && (forall i | 0 <= i < |ind.swingHighs| :: 0 < ind.swingHighs[i] < b.Count() - 1)
    && (forall i | 0 <= i < |ind.swingLows| :: 0 < ind.swingLows[i] < b.Count() - 1)
  }

  /** The chosen breakout as a setup, anchored at the bar that broke out and invalidated beyond its retest. */
  function BreakoutSetup(b: Bars, ind: Indication, c: Context, side: Side, f: Breakout): Setup
    requires b.Shaped() && b.Count() > 0 && f.breakoutIndex < b.Count() && f.retestIndex < b.Count()
  {
    Setup(BreakoutRetest, side, b.times[f.breakoutIndex], b.close[b.Count() - 1],
          Price(side, Orient(b, ind, side).low[f.retestIndex]), c.atr, c.rsi, c.atrRatio)
  }

  function BreakoutParts(b: Bars, ind: Indication, c: Context, cfg: Config, side: Side, f: Breakout): Components
    requires b.Shaped() && b.Count() > 0 && f.retestIndex < b.Count() && c.atr != 0.0 && cfg.breakoutRetestToleranceAtr != 0.0
  {
    var v := Orient(b, ind, side);
    Components(TrendComponent(side, c.regime), c.strength,
               1.0 - 0.5 * Clip(Abs(v.low[f.retestIndex] - f.level) / c.atr / cfg.breakoutRetestToleranceAtr),
               MomentumComponent(DirectionalRsi(side, c.rsi), (v.close[b.Count() - 1] - f.level) / c.atr), c.volatility)
  }

  ghost predicate OffersBreakout(b: Bars, ind: Indication, c: Context, cfg: Config, side: Side, s: Setup, parts: Components)
    requires Reads(b, ind, c, cfg)
  {
    exists f :: IsChosen(Orient(b, ind, side), ind.atr, cfg, c.atr, b.Count() - 1, f)
                && s == BreakoutSetup(b, ind, c, side, f) && parts == BreakoutParts(b, ind, c, cfg, side, f)
  }

  /** The pullback as a setup, anchored at the high of its leg and invalidated beyond its low. */
  function PullbackSetup(b: Bars, ind: Indication, c: Context, side: Side, ih: nat, ip: nat): Setup
    requires b.Shaped() && b.Count() > 0 && ih < b.Count() && ip < b.Count()
  {
    Setup(TrendPullback, side, b.times[ih], b.close[b.Count() - 1], Price(side, Orient(b, ind, side).low[ip]),
          c.atr, c.rsi, c.atrRatio)
  }

  function PullbackParts(b: Bars, ind: Indication, c: Context, side: Side, ip: nat, component: real): Components
    requires b.Shaped() && b.Count() > 0 && ip < b.Count() && c.atr != 0.0
  {
    var v := Orient(b, ind, side);
    Components(TrendComponent(side, c.regime), c.strength, component,
               MomentumComponent(DirectionalRsi(side, c.rsi), (v.close[b.Count() - 1] - v.low[ip]) / c.atr), c.volatility)
  }

  /** A leg of the pullback that resumes. */
  ghost predicate IsReady(v: View, cfg: Config, atr: real, t: nat, ih: nat, il: nat, ip: nat)
    requires PullbackLaws.Sound(v, t)
  {
    IsLeg(v, cfg, t, ih, il, ip) && ih < ip <= t && il <= t && Resumes(v, cfg, atr, t, ih, il, ip)
  }

  /** Only when no breakout is chosen. */
  ghost predicate OffersPullback(b: Bars, ind: Indication, c: Context, cfg: Config, side: Side, s: Setup, parts: Components)
    requires Reads(b, ind, c, cfg)
  {
    var v := Orient(b, ind, side);
    && NoneChosen(v, ind.atr, cfg, c.atr, b.Count() - 1) && cfg.trendPullbackEnabled
    && exists ih: nat, il: nat, ip: nat, component: real :: IsReady(v, cfg, c.atr, b.Count() - 1, ih, il, ip)
         && ScoreOf(v, cfg, c.atr, ih, il, ip) == Some(component)
         && s == PullbackSetup(b, ind, c, side, ih, ip) && parts == PullbackParts(b, ind, c, side, ip, component)
  }

  ghost predicate Offers(b: Bars, ind: Indication, c: Context, cfg: Config, side: Side, s: Setup, parts: Components)
    requires Reads(b, ind, c, cfg)
  {
    OffersBreakout(b, ind, c, cfg, side, s, parts) || OffersPullback(b, ind, c, cfg, side, s, parts)
  }

  /** What is reported when the setups of a side are tried. */
  ghost predicate Answers(verdict: Verdict, b: Bars, ind: Indication, c: Context, cfg: Config, side: Side, minimumScore: real)
    requires Reads(b, ind, c, cfg)
  {
    match verdict
    case Found(s, score) =>
      exists parts :: Offers(b, ind, c, cfg, side, s, parts) && parts.Score() == score
                      && DirectionalRsi(side, c.rsi) <= cfg.rsiOverbought && minimumScore <= score
    case Refused(status, reason, candidate, score) =>
      candidate == Some(side) && RefusedFor(b, ind, c, cfg, side, minimumScore, status, reason, score)
    case Raised => false
  }

  /** Why no setup of this side is found. */
  ghost predicate RefusedFor(b: Bars, ind: Indication, c: Context, cfg: Config, side: Side, minimumScore: real,
                             status: Status, reason: Reason, score: real)
    requires Reads(b, ind, c, cfg)
  {
    var t, v := b.Count() - 1, Orient(b, ind, side);
    || RefusedOffer(b, ind, c, cfg, side, minimumScore, status, reason, score)
    || (NoneChosen(v, ind.atr, cfg, c.atr, t) && !cfg.trendPullbackEnabled && status == Rejected && reason == NoEnabledSetup)
    || (NoneChosen(v, ind.atr, cfg, c.atr, t) && cfg.trendPullbackEnabled && PullbackRefuses(v, cfg, c.atr, t, status, reason))
  }

  /** The momentum and the score of an offered setup, looked at in this order. */
  ghost function FinalFaults(rsi: real, score: real, cfg: Config, minimumScore: real): seq<(bool, (Status, Reason))> {
    [ (cfg.rsiOverbought < rsi, (Deferred, MomentumOverextended)),
      (score < minimumScore, (Rejected, SetupScoreTooLow)) ]
  }

  /** The last two gates. */
  ghost predicate Judges(verdict: Verdict, setup: Setup, score: real, rsi: real, cfg: Config, minimumScore: real) {
    match verdict
    case Found(s, x) => s == setup && x == score && rsi <= cfg.rsiOverbought && minimumScore <= score
    case Refused(status, reason, candidate, x) =>
      candidate == Some(setup.side) && x == score && FirstCase(FinalFaults(rsi, score, cfg, minimumScore), (status, reason))
    case Raised => false
  }

  lemma JudgeExactly(setup: Setup, parts: Components, rsi: real, cfg: Config, minimumScore: real)
    ensures Judges(Judge(setup, parts, rsi, cfg, minimumScore), setup, parts.Score(), rsi, cfg, minimumScore)
  {
    hide Components.Score;
    var faults := FinalFaults(rsi, parts.Score(), cfg, minimumScore);
    if rsi > cfg.rsiOverbought {
      IsFirstCase(faults, 0);
    } else if parts.Score() < minimumScore {
      IsFirstCase(faults, 1);
    }
  }

  /** A judged offer is an answer. */
  lemma OfferAnswers(verdict: Verdict, b: Bars, ind: Indication, c: Context, cfg: Config, side: Side, minimumScore: real,
                     s: Setup, parts: Components)
    requires Reads(b, ind, c, cfg) && Offers(b, ind, c, cfg, side, s, parts) && s.side == side
    requires Judges(verdict, s, parts.Score(), DirectionalRsi(side, c.rsi), cfg, minimumScore)
    ensures Answers(verdict, b, ind, c, cfg, side, minimumScore)
  {
    hide Offers, FirstCase, Reads, NoneChosen, PullbackRefuses, DirectionalRsi;
  }

  lemma BreakoutUnfolds(b: Bars, ind: Indication, c: Context, cfg: Config, side: Side, minimumScore: real, f: Breakout)
    requires Reads(b, ind, c, cfg) && f.breakoutIndex < f.retestIndex < b.Count()
    ensures JudgeBreakout(b, c, cfg, side, minimumScore, Orient(b, ind, side), f,
                          Components(TrendComponent(side, c.regime), c.strength, 0.0, 0.0, c.volatility))
            == Judge(BreakoutSetup(b, ind, c, side, f), BreakoutParts(b, ind, c, cfg, side, f),
                     DirectionalRsi(side, c.rsi), cfg, minimumScore)
  {
    hide Judge, TrendComponent, MomentumComponent, Clip, Abs;
  }

  lemma PullbackUnfolds(b: Bars, ind: Indication, c: Context, cfg: Config, side: Side, minimumScore: real,
                        ih: nat, ip: nat, component: real)
    requires Reads(b, ind, c, cfg) && ih < b.Count() && ip < b.Count()
    ensures var v := Orient(b, ind, side);
            JudgePullback(b, c, cfg, side, minimumScore,
                          Ready(ih, v.low[ip], component, (v.close[b.Count() - 1] - v.low[ip]) / c.atr),
                          Components(TrendComponent(side, c.regime), c.strength, 0.0, 0.0, c.volatility))
            == Judge(PullbackSetup(b, ind, c, side, ih, ip), PullbackParts(b, ind, c, side, ip, component),
                     DirectionalRsi(side, c.rsi), cfg, minimumScore)
  {
    hide Judge, TrendComponent, MomentumComponent, Clip, Abs;
  }

  lemma BreakoutAnswers(b: Bars, ind: Indication, c: Context, cfg: Config, side: Side, minimumScore: real, f: Breakout)
    requires Reads(b, ind, c, cfg) && IsChosen(Orient(b, ind, side), ind.atr, cfg, c.atr, b.Count() - 1, f)
    ensures f.breakoutIndex < f.retestIndex < b.Count()
    ensures Answers(JudgeBreakout(b, c, cfg, side, minimumScore, Orient(b, ind, side), f,
                                  Components(TrendComponent(side, c.regime), c.strength, 0.0, 0.0, c.volatility)),
                    b, ind, c, cfg, side, minimumScore)
  {
    assert f.breakoutIndex < f.retestIndex < b.Count();
    BreakoutUnfolds(b, ind, c, cfg, side, minimumScore, f);
    var s, parts := BreakoutSetup(b, ind, c, side, f), BreakoutParts(b, ind, c, cfg, side, f);
    assert s.side == side;
    JudgeExactly(s, parts, DirectionalRsi(side, c.rsi), cfg, minimumScore);
    hide Judge, JudgeBreakout, Judges, BreakoutSetup, BreakoutParts, IsChosen, Answers, OffersPullback;
    assert OffersBreakout(b, ind, c, cfg, side, s, parts);
    hide OffersBreakout;
    OfferAnswers(Judge(s, parts, DirectionalRsi(side, c.rsi), cfg, minimumScore), b, ind, c, cfg, side, minimumScore, s, parts);
  }

  lemma ReadyAnswers(b: Bars, ind: Indication, c: Context, cfg: Config, side: Side, minimumScore: real,
                     ih: nat, il: nat, ip: nat, component: real)
    requires Reads(b, ind, c, cfg) && NoneChosen(Orient(b, ind, side), ind.atr, cfg, c.atr, b.Count() - 1) && cfg.trendPullbackEnabled
    requires IsReady(Orient(b, ind, side), cfg, c.atr, b.Count() - 1, ih, il, ip)
    requires ScoreOf(Orient(b, ind, side), cfg, c.atr, ih, il, ip) == Some(component)
    ensures var v := Orient(b, ind, side);
            Answers(JudgePullback(b, c, cfg, side, minimumScore,
                                  Ready(ih, v.low[ip], component, (v.close[b.Count() - 1] - v.low[ip]) / c.atr),
                                  Components(TrendComponent(side, c.regime), c.strength, 0.0, 0.0, c.volatility)),
                    b, ind, c, cfg, side, minimumScore)
  {
    PullbackUnfolds(b, ind, c, cfg, side, minimumScore, ih, ip, component);
    var s, parts := PullbackSetup(b, ind, c, side, ih, ip), PullbackParts(b, ind, c, side, ip, component);
    assert s.side == side;
    JudgeExactly(s, parts, DirectionalRsi(side, c.rsi), cfg, minimumScore);
    hide Judge, JudgePullback, Judges, PullbackSetup, PullbackParts, NoneChosen, IsReady, Answers, OffersBreakout, ScoreOf;
    assert OffersPullback(b, ind, c, cfg, side, s, parts);
    hide OffersPullback;
    OfferAnswers(Judge(s, parts, DirectionalRsi(side, c.rsi), cfg, minimumScore), b, ind, c, cfg, side, minimumScore, s, parts);
  }

  lemma ViewSound(b: Bars, ind: Indication, c: Context, cfg: Config, side: Side)
    requires Reads(b, ind, c, cfg)
    ensures PullbackLaws.Sound(Orient(b, ind, side), b.Count() - 1)
    ensures CanSearch(Orient(b, ind, side), ind.atr, cfg, b.Count() - 1)
  {
  }

  lemma UnreadyAnswers(b: Bars, ind: Indication, c: Context, cfg: Config, side: Side, minimumScore: real, p: Pullback)
    requires Reads(b, ind, c, cfg) && NoneChosen(Orient(b, ind, side), ind.atr, cfg, c.atr, b.Count() - 1)
    requires cfg.trendPullbackEnabled && p.NotReady?
    requires PullbackRefuses(Orient(b, ind, side), cfg, c.atr, b.Count() - 1, p.status, p.reason)
    ensures Answers(JudgePullback(b, c, cfg, side, minimumScore, p,
                                  Components(TrendComponent(side, c.regime), c.strength, 0.0, 0.0, c.volatility)),
                    b, ind, c, cfg, side, minimumScore)
  {
    hide NoneChosen, PullbackRefuses, Offers, TrendComponent;
  }

  lemma PullbackAnswers(b: Bars, ind: Indication, c: Context, cfg: Config, side: Side, minimumScore: real)
    requires Reads(b, ind, c, cfg) && NoneChosen(Orient(b, ind, side), ind.atr, cfg, c.atr, b.Count() - 1)
    requires cfg.trendPullbackEnabled && PullbackLaws.Sound(Orient(b, ind, side), b.Count() - 1)
    ensures Answers(JudgePullback(b, c, cfg, side, minimumScore, PullbackGeometry(Orient(b, ind, side), cfg, c.atr, b.Count() - 1),
                                  Components(TrendComponent(side, c.regime), c.strength, 0.0, 0.0, c.volatility)),
                    b, ind, c, cfg, side, minimumScore)
  {
    hide PullbackGeometry, Answers, PullbackRefuses, NoneChosen, IsLeg, Faults, Resumes, JudgePullback, Orient, ScoreOf, FirstCase, NoLeg;
    var t, v := b.Count() - 1, Orient(b, ind, side);
    var ih, il, ip := GeometryExactly(v, cfg, c.atr, t);
    PullbackRefusedExactly(v, cfg, c.atr, t);
    var p := PullbackGeometry(v, cfg, c.atr, t);
    if p.Ready? {
      ReadyAnswers(b, ind, c, cfg, side, minimumScore, ih, il, ip, p.component);
    } else {
      UnreadyAnswers(b, ind, c, cfg, side, minimumScore, p);
    }
  }

  /** Trying the setups of a side gives one of the answers. */
  lemma SetupsAnswer(b: Bars, ind: Indication, c: Context, cfg: Config, side: Side, minimumScore: real)
    requires Reads(b, ind, c, cfg)
    ensures Answers(JudgeSetups(b, ind, c, cfg, side, minimumScore), b, ind, c, cfg, side, minimumScore)
  {
    var t, v := b.Count() - 1, Orient(b, ind, side);
    ViewSound(b, ind, c, cfg, side);
    hide SearchBreakout, PullbackGeometry, JudgeBreakout, JudgePullback, IsChosen, NoneChosen, PullbackRefuses, Offers, Orient,
         TrendComponent;
    SearchExactly(v, ind.atr, cfg, c.atr, t);
    match SearchBreakout(v, ind.atr, cfg, c.atr, t) {
      case Some(f) =>
        BreakoutAnswers(b, ind, c, cfg, side, minimumScore, f);
        hide Answers;
      case None =>
        if cfg.trendPullbackEnabled {
          PullbackAnswers(b, ind, c, cfg, side, minimumScore);
          hide Answers;
        }
    }
  }

  // ----- The shared gates -----

  /** The averages point one way, the confirmed swings the other, and the earlier regime agreed with the averages. */
  ghost predicate Reverses(now: Regime, before: Regime) {
    || (now.bias == Bull && now.structure == Falling && before.trend == Bullish)
    || (now.bias == Bear && now.structure == Rising && before.trend == Bearish)
  }

  ghost function GateFaults(c: Context, cfg: Config): seq<(bool, (Status, Reason))> {
    [ (c.regime.trend == Ranging, (Rejected, MarketRanging)),
      (c.regime.trend == Uncertain && Reverses(c.regime, c.previous), (Deferred, RegimeTransitionUnconfirmed)),
      (c.regime.trend == Uncertain, (Deferred, MarketUncertain)),
      ((c.regime.trend == Bullish && c.previous.trend == Bearish) || (c.regime.trend == Bearish && c.previous.trend == Bullish),
       (Deferred, RegimeReversalUnconfirmed)),
      (c.atrRatio < cfg.atrRatioMin, (Rejected, VolatilityTooLow)),
      (cfg.atrRatioMax < c.atrRatio, (Deferred, VolatilitySpike)) ]
  }

  /** A clear direction that does not contradict the earlier one, in normal volatility. */
  ghost predicate GatesPass(c: Context, cfg: Config) {
    && ((c.regime.trend == Bullish && c.previous.trend != Bearish) || (c.regime.trend == Bearish && c.previous.trend != Bullish))
    && cfg.atrRatioMin <= c.atrRatio <= cfg.atrRatioMax
  }

  function SideOf(c: Context): Side {
    if c.regime.trend == Bullish then Buy else Sell
  }

  /** Behind the gates the setups of the regime's side answer; otherwise the first failing gate does. */
  ghost predicate RegimeAnswers(verdict: Verdict, b: Bars, ind: Indication, c: Context, cfg: Config, minimumScore: real)
    requires Reads(b, ind, c, cfg)
  {
    if GatesPass(c, cfg) then Answers(verdict, b, ind, c, cfg, SideOf(c), minimumScore)
    else
      && verdict.Refused? && FirstCase(GateFaults(c, cfg), (verdict.status, verdict.reason))
      && verdict.candidate == if c.regime.trend in {Ranging, Uncertain} then None else Some(SideOf(c))
  }

  lemma RegimeAnswer(b: Bars, ind: Indication, c: Context, cfg: Config, minimumScore: real)
    requires Reads(b, ind, c, cfg)
    ensures RegimeAnswers(JudgeRegime(b, ind, c, cfg, minimumScore), b, ind, c, cfg, minimumScore)
  {
    SetupsAnswer(b, ind, c, cfg, SideOf(c), minimumScore);
    hide JudgeSetups, Answers, TrendComponent, Reads, Components.Score;
    if !GatesPass(c, cfg) {
      var k := if c.regime.trend == Ranging then 0
               else if c.regime.trend == Uncertain then (if Reverses(c.regime, c.previous) then 1 else 2)
               else if c.previous.trend == MirrorTrend(c.regime.trend) then 3
               else if c.atrRatio < cfg.atrRatioMin then 4 else 5;
      IsFirstCase(GateFaults(c, cfg), k);
    }
  }

  // ----- The whole verdict -----

  ghost predicate Readable(ind: Indication, t: nat)
    requires t < |ind.atr| && t < |ind.adx| && t < |ind.rsi|
  {
    ind.atr[t].Some? && ind.adx[t].Some? && ind.rsi[t].Some? && 0.0 < ind.atr[t].value
  }

  /** What an evaluation answers: nothing readable, an exception, or the answer of the regime. */
  ghost predicate EvaluationAnswers(verdict: Verdict, b: Bars, ind: Indication, cfg: Config, minimumScore: real)
    requires Wired(b, ind, cfg) && EnoughHistory(b, cfg)
  {
    var t := b.Count() - 1;
    if !Readable(ind, t) then verdict == Refused(Rejected, InvalidMarketData, None, 0.0)
    else if DividesByZero(ind, cfg, t, ind.atr[t].value) then verdict.Raised?
    else
      var c := ContextOf(b, ind, cfg, t, ind.atr[t].value, ind.adx[t].value, ind.rsi[t].value);
      c.Some? && Reads(b, ind, c.value, cfg) && RegimeAnswers(verdict, b, ind, c.value, cfg, minimumScore)
  }

  lemma JudgedExactly(b: Bars, ind: Indication, cfg: Config, minimumScore: real)
    requires Wired(b, ind, cfg) && EnoughHistory(b, cfg)
    requires forall i | 0 <= i < |ind.swingHighs| :: 0 < ind.swingHighs[i] < b.Count() - 1
    requires forall i | 0 <= i < |ind.swingLows| :: 0 < ind.swingLows[i] < b.Count() - 1
    ensures EvaluationAnswers(Judged(b, ind, cfg, minimumScore), b, ind, cfg, minimumScore)
  {
    hide ContextOf, DividesByZero, JudgeRegime, RegimeAnswers;
    var t := b.Count() - 1;
    if Readable(ind, t) {
      var atr, adx, rsi := ind.atr[t].value, ind.adx[t].value, ind.rsi[t].value;
      ContextDefinedExactly(b, ind, cfg, t, atr, adx, rsi);
      ContextKeepsAtr(b, ind, cfg, t, atr, adx, rsi);
      match ContextOf(b, ind, cfg, t, atr, adx, rsi) {
        case None =>
        case Some(c) => RegimeAnswer(b, ind, c, cfg, minimumScore);
      }
    }
  }

  /** The verdict on every series with enough history. */
  lemma VerdictExactly(b: Bars, cfg: Config, minimumScore: real)
    requires EnoughHistory(b, cfg)
    ensures Wired(b, IndicationOf(b, cfg), cfg)
    ensures EvaluationAnswers(Technical(b, cfg, minimumScore), b, IndicationOf(b, cfg), cfg, minimumScore)
  {
    IndicationWired(b, cfg);
    IndicationPivotsInside(b, cfg);
    hide IndicationOf, Judged, EvaluationAnswers;
    JudgedExactly(b, IndicationOf(b, cfg), cfg, minimumScore);
  }

  // ----- Found, exactly -----

  lemma ChosenIsNotNone(v: View, atr: seq<Option<real>>, cfg: Config, atrNow: real, t: nat, f: Breakout)
    requires CanSearch(v, atr, cfg, t) && IsChosen(v, atr, cfg, atrNow, t, f)
    ensures !NoneChosen(v, atr, cfg, atrNow, t)
  {
    hide Confirms, Recent;
  }

  lemma ChosenIsUnique(v: View, atr: seq<Option<real>>, cfg: Config, atrNow: real, t: nat, f: Breakout, g: Breakout)
    requires CanSearch(v, atr, cfg, t) && IsChosen(v, atr, cfg, atrNow, t, f) && IsChosen(v, atr, cfg, atrNow, t, g)
    ensures f == g
  {
    SearchExactly(v, atr, cfg, atrNow, t);
    hide IsChosen, NoneChosen, SearchBreakout;
  }

  lemma NoReadyRefused(v: View, cfg: Config, atr: real, t: nat, ih: nat, il: nat, ip: nat, status: Status, reason: Reason)
    requires PullbackLaws.Sound(v, t) && IsReady(v, cfg, atr, t, ih, il, ip)
    ensures !PullbackRefuses(v, cfg, atr, t, status, reason)
  {
    NoFaultResumes(v, cfg, atr, t, ih, il, ip);
    if NoLeg(v) {
      NoLegNoReady(v, cfg, t);
    }
    forall a: nat, l: nat, p: nat | IsLeg(v, cfg, t, a, l, p)
      ensures a == ih && l == il && p == ip
    {
      LegIsUnique(v, cfg, t, ih, il, ip, a, l, p);
    }
    hide IsLeg, Resumes, Faults, NoLeg;
  }

  /** What is offered is offered once: one setup with one list of components. */
  lemma OfferIsUnique(b: Bars, ind: Indication, c: Context, cfg: Config, side: Side,
                      s: Setup, parts: Components, other: Setup, otherParts: Components)
    requires Reads(b, ind, c, cfg) && Offers(b, ind, c, cfg, side, s, parts) && Offers(b, ind, c, cfg, side, other, otherParts)
    ensures s == other && parts == otherParts
  {
    ViewSound(b, ind, c, cfg, side);
    var t, v := b.Count() - 1, Orient(b, ind, side);
    hide NoneChosen, IsChosen, IsLeg, Resumes, ScoreOf, BreakoutSetup, BreakoutParts, PullbackSetup, PullbackParts, Reads, Orient;
    forall f, g | IsChosen(v, ind.atr, cfg, c.atr, t, f) && IsChosen(v, ind.atr, cfg, c.atr, t, g)
      ensures f == g
    {
      ChosenIsUnique(v, ind.atr, cfg, c.atr, t, f, g);
    }
    forall f | IsChosen(v, ind.atr, cfg, c.atr, t, f)
      ensures !NoneChosen(v, ind.atr, cfg, c.atr, t)
    {
      ChosenIsNotNone(v, ind.atr, cfg, c.atr, t, f);
    }
    forall ih: nat, il: nat, ip: nat, a: nat, l: nat, p: nat | IsReady(v, cfg, c.atr, t, ih, il, ip) && IsReady(v, cfg, c.atr, t, a, l, p)
      ensures ih == a && il == l && ip == p
    {
      LegIsUnique(v, cfg, t, ih, il, ip, a, l, p);
    }
    hide IsReady;
  }

  /** An offer that passes the last two gates. */
  ghost predicate Accepts(b: Bars, ind: Indication, c: Context, cfg: Config, side: Side, minimumScore: real, s: Setup, score: real)
    requires Reads(b, ind, c, cfg)
  {
    exists parts :: Offers(b, ind, c, cfg, side, s, parts) && parts.Score() == score
                    && DirectionalRsi(side, c.rsi) <= cfg.rsiOverbought && minimumScore <= score
  }

  lemma NoFinalFault(rsi: real, score: real, cfg: Config, minimumScore: real, answer: (Status, Reason))
    requires rsi <= cfg.rsiOverbought && minimumScore <= score
    ensures !FirstCase(FinalFaults(rsi, score, cfg, minimumScore), answer)
  {
    var faults := FinalFaults(rsi, score, cfg, minimumScore);
    assert !faults[0].0 && !faults[1].0;
  }

  /** Refused although a setup is offered. */
  ghost predicate RefusedOffer(b: Bars, ind: Indication, c: Context, cfg: Config, side: Side, minimumScore: real,
                               status: Status, reason: Reason, score: real)
    requires Reads(b, ind, c, cfg)
  {
    exists s, parts :: Offers(b, ind, c, cfg, side, s, parts) && parts.Score() == score
      && FirstCase(FinalFaults(DirectionalRsi(side, c.rsi), score, cfg, minimumScore), (status, reason))
  }

  lemma AcceptedIsNoRefusedOffer(b: Bars, ind: Indication, c: Context, cfg: Config, side: Side, minimumScore: real,
                                 s: Setup, score: real, status: Status, reason: Reason, x: real)
    requires Reads(b, ind, c, cfg) && Accepts(b, ind, c, cfg, side, minimumScore, s, score)
    ensures !RefusedOffer(b, ind, c, cfg, side, minimumScore, status, reason, x)
  {
    hide Offers, Components.Score, DirectionalRsi, FirstCase, FinalFaults, Reads;
    var rsi := DirectionalRsi(side, c.rsi);
    var parts :| Offers(b, ind, c, cfg, side, s, parts) && parts.Score() == score;
    if RefusedOffer(b, ind, c, cfg, side, minimumScore, status, reason, x) {
      var other, otherParts :| Offers(b, ind, c, cfg, side, other, otherParts) && otherParts.Score() == x;
      OfferIsUnique(b, ind, c, cfg, side, s, parts, other, otherParts);
      NoFinalFault(rsi, score, cfg, minimumScore, (status, reason));
    }
  }

  lemma AcceptedIsNotRefused(b: Bars, ind: Indication, c: Context, cfg: Config, side: Side, minimumScore: real,
                             s: Setup, score: real, status: Status, reason: Reason, x: real)
    requires Reads(b, ind, c, cfg) && Accepts(b, ind, c, cfg, side, minimumScore, s, score)
    ensures !RefusedFor(b, ind, c, cfg, side, minimumScore, status, reason, x)
  {
    hide Offers, Components.Score, DirectionalRsi, FirstCase, FinalFaults, Reads, Orient, NoneChosen, PullbackRefuses, RefusedOffer;
    AcceptedIsNoRefusedOffer(b, ind, c, cfg, side, minimumScore, s, score, status, reason, x);
    var parts :| Offers(b, ind, c, cfg, side, s, parts) && parts.Score() == score;
    OfferExcludes(b, ind, c, cfg, side, s, parts, status, reason);
  }

  /** Where something is offered, a breakout is chosen or the pullback is enabled and does not refuse. */
  lemma OfferExcludes(b: Bars, ind: Indication, c: Context, cfg: Config, side: Side, s: Setup, parts: Components,
                      status: Status, reason: Reason)
    requires Reads(b, ind, c, cfg) && Offers(b, ind, c, cfg, side, s, parts)
    ensures PullbackLaws.Sound(Orient(b, ind, side), b.Count() - 1)
    ensures NoneChosen(Orient(b, ind, side), ind.atr, cfg, c.atr, b.Count() - 1) ==>
              cfg.trendPullbackEnabled && !PullbackRefuses(Orient(b, ind, side), cfg, c.atr, b.Count() - 1, status, reason)
  {
    ViewSound(b, ind, c, cfg, side);
    var t, v := b.Count() - 1, Orient(b, ind, side);
    hide NoneChosen, IsChosen, IsReady, PullbackRefuses, ScoreOf, BreakoutSetup, BreakoutParts, PullbackSetup, PullbackParts, Orient, Reads;
    if OffersBreakout(b, ind, c, cfg, side, s, parts) {
      var f :| IsChosen(v, ind.atr, cfg, c.atr, t, f);
      ChosenIsNotNone(v, ind.atr, cfg, c.atr, t, f);
    } else {
      var ih: nat, il: nat, ip: nat :| IsReady(v, cfg, c.atr, t, ih, il, ip);
      NoReadyRefused(v, cfg, c.atr, t, ih, il, ip, status, reason);
    }
  }

  /** A setup is found exactly when everything reads, the gates pass, and it is what the regime's side offers
      and accepts: the newest confirmed breakout, or else the pullback that resumes. */
  ghost predicate Finds(b: Bars, ind: Indication, cfg: Config, minimumScore: real, s: Setup, score: real)
    requires Wired(b, ind, cfg) && EnoughHistory(b, cfg)
  {
    var t := b.Count() - 1;
    && Readable(ind, t) && !DividesByZero(ind, cfg, t, ind.atr[t].value)
    && var c := ContextOf(b, ind, cfg, t, ind.atr[t].value, ind.adx[t].value, ind.rsi[t].value);
       && c.Some? && Reads(b, ind, c.value, cfg) && GatesPass(c.value, cfg)
       && Accepts(b, ind, c.value, cfg, SideOf(c.value), minimumScore, s, score)
  }

  lemma AnswerIsFound(verdict: Verdict, b: Bars, ind: Indication, cfg: Config, minimumScore: real, s: Setup, score: real)
    requires Wired(b, ind, cfg) && EnoughHistory(b, cfg) && EvaluationAnswers(verdict, b, ind, cfg, minimumScore)
    ensures verdict == Found(s, score) <==> Finds(b, ind, cfg, minimumScore, s, score)
  {
    hide ContextOf, DividesByZero, Reads, RefusedFor, Offers, GateFaults, FirstCase, Components.Score;
    var t := b.Count() - 1;
    if Finds(b, ind, cfg, minimumScore, s, score) {
      var c := ContextOf(b, ind, cfg, t, ind.atr[t].value, ind.adx[t].value, ind.rsi[t].value).value;
      if verdict.Refused? {
        AcceptedIsNotRefused(b, ind, c, cfg, SideOf(c), minimumScore, s, score, verdict.status, verdict.reason, verdict.score);
      } else {
        AcceptedOnce(b, ind, c, cfg, SideOf(c), minimumScore, s, score, verdict.setup, verdict.score);
      }
    }
  }

  lemma AcceptedOnce(b: Bars, ind: Indication, c: Context, cfg: Config, side: Side, minimumScore: real,
                     s: Setup, score: real, other: Setup, otherScore: real)
    requires Reads(b, ind, c, cfg)
    requires Accepts(b, ind, c, cfg, side, minimumScore, s, score) && Accepts(b, ind, c, cfg, side, minimumScore, other, otherScore)
    ensures s == other && score == otherScore
  {
    hide Offers, Components.Score;
    var parts :| Offers(b, ind, c, cfg, side, s, parts) && parts.Score() == score;
    var otherParts :| Offers(b, ind, c, cfg, side, other, otherParts) && otherParts.Score() == otherScore;
    OfferIsUnique(b, ind, c, cfg, side, s, parts, other, otherParts);
  }

  lemma FoundExactly(b: Bars, cfg: Config, minimumScore: real, s: Setup, score: real)
    requires EnoughHistory(b, cfg)
    ensures Wired(b, IndicationOf(b, cfg), cfg)
    ensures Technical(b, cfg, minimumScore) == Found(s, score) <==> Finds(b, IndicationOf(b, cfg), cfg, minimumScore, s, score)
  {
    VerdictExactly(b, cfg, minimumScore);
    hide *;
    AnswerIsFound(Technical(b, cfg, minimumScore), b, IndicationOf(b, cfg), cfg, minimumScore, s, score);
  }
}
