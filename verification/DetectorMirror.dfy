/** The short side is the long side seen in a mirror: reflecting every price p to k - p gives the
    same verdict, reason and score with the opposite side and reflected prices. */
module DetectorMirror {
  import opened Wrappers
  import opened Indicators
  import opened Regime
  import opened Detector

  // ----- The searches do not notice a constant added to every price -----

  ghost predicate Offset(s: seq<real>, w: seq<real>, c: real) {
    |w| == |s| && forall i | 0 <= i < |s| :: w[i] == s[i] + c
  }

  ghost predicate Shifted(v: View, w: View, c: real) {
    && Offset(v.high, w.high, c) && Offset(v.low, w.low, c) && Offset(v.close, w.close, c)
    && Offset(v.emaFast, w.emaFast, c) && Offset(v.emaSlow, w.emaSlow, c)
    && w.swingHighs == v.swingHighs && w.swingLows == v.swingLows
  }

  lemma {:induction false} ArgMinShift(s: seq<real>, w: seq<real>, c: real, lo: nat, hi: nat)
    requires Offset(s, w, c) && lo < hi <= |s|
    ensures ArgMin(w, lo, hi) == ArgMin(s, lo, hi)
    decreases hi
  {
    if lo + 1 < hi {
      ArgMinShift(s, w, c, lo, hi - 1);
    }
  }

  lemma {:induction false} FirstRetestShift(v: View, w: View, c: real, cfg: Config, tolerance: real, level: real, t: nat, bi: nat, ri: nat)
    requires Shifted(v, w, c) && bi < ri <= t < |v.high| && |v.high| == |v.low| == |v.close|
    ensures FirstRetest(w, cfg, tolerance, level + c, t, bi, ri) == FirstRetest(v, cfg, tolerance, level, t, bi, ri)
    decreases t - ri
  {
    if ri < t {
      FirstRetestShift(v, w, c, cfg, tolerance, level, t, bi, ri + 1);
      assert IsRetest(w, tolerance, level + c, t, ri) == IsRetest(v, tolerance, level, t, ri);
    }
  }

  function ShiftBreakout(f: Option<Breakout>, c: real): Option<Breakout> {
    match f case None => None case Some(x) => Some(x.(level := x.level + c))
  }

  lemma BreakoutAtShift(v: View, w: View, c: real, atr: seq<Option<real>>, cfg: Config, tolerance: real, t: nat, bi: nat)
    requires Shifted(v, w, c) && CanSearch(v, atr, cfg, t) && cfg.breakoutLookback <= bi < t
    ensures BreakoutAt(w, atr, cfg, tolerance, t, bi) == ShiftBreakout(BreakoutAt(v, atr, cfg, tolerance, t, bi), c)
  {
    FirstRetestShift(v, w, c, cfg, tolerance, BreakoutLevel(v, cfg, bi), t, bi, bi + 1);
    IsBreakoutShift(v, w, c, atr, cfg, t, bi);
    hide FirstRetest, BreakoutLevel, IsBreakout, Shifted;
  }

  lemma IsBreakoutShift(v: View, w: View, c: real, atr: seq<Option<real>>, cfg: Config, t: nat, bi: nat)
    requires Shifted(v, w, c) && CanSearch(v, atr, cfg, t) && cfg.breakoutLookback <= bi < t
    ensures CanSearch(w, atr, cfg, t) && BreakoutLevel(w, cfg, bi) == BreakoutLevel(v, cfg, bi) + c
    ensures IsBreakout(w, atr, cfg, bi) == IsBreakout(v, atr, cfg, bi)
  {
  }

  lemma {:induction false} LatestBreakoutShift(v: View, w: View, c: real, atr: seq<Option<real>>, cfg: Config, tolerance: real, t: nat, first: nat, bi: int)
    requires Shifted(v, w, c) && CanSearch(v, atr, cfg, t) && cfg.breakoutLookback <= first && bi < t
    ensures LatestBreakout(w, atr, cfg, tolerance, t, first, bi)
            == ShiftBreakout(LatestBreakout(v, atr, cfg, tolerance, t, first, bi), c)
    decreases bi - first
  {
    hide BreakoutAt;
    if first <= bi {
      BreakoutAtShift(v, w, c, atr, cfg, tolerance, t, bi);
      LatestBreakoutShift(v, w, c, atr, cfg, tolerance, t, first, bi - 1);
    }
  }

  lemma SearchShift(v: View, w: View, c: real, atr: seq<Option<real>>, cfg: Config, atrNow: real, t: nat)
    requires Shifted(v, w, c) && CanSearch(v, atr, cfg, t)
    ensures SearchBreakout(w, atr, cfg, atrNow, t) == ShiftBreakout(SearchBreakout(v, atr, cfg, atrNow, t), c)
  {
    LatestBreakoutShift(v, w, c, atr, cfg, Tolerance(cfg, atrNow), t, FirstBreakout(cfg, t), t - 2);
    hide LatestBreakout;
  }

  function ShiftPullback(p: Pullback, c: real): Pullback {
    match p case Ready(a, e, s, b) => Ready(a, e + c, s, b) case _ => p
  }

  lemma ImpulseStartShift(v: View, w: View, c: real, cfg: Config, ih: nat)
    requires Shifted(v, w, c) && ih < |v.low|
    ensures ImpulseStart(w, cfg, ih) == ImpulseStart(v, cfg, ih)
  {
  }

  lemma PullbackShift(v: View, w: View, c: real, cfg: Config, atr: real, t: nat)
    requires Shifted(v, w, c) && Fits(v, t + 1) && 0.0 < atr
    ensures PullbackGeometry(w, cfg, atr, t) == ShiftPullback(PullbackGeometry(v, cfg, atr, t), c)
  {
    if v.swingHighs != [] {
      var ih := v.swingHighs[|v.swingHighs| - 1];
      ImpulseStartShift(v, w, c, cfg, ih);
      hide ImpulseStart, AfterImpulse;
      match ImpulseStart(v, cfg, ih) {
        case Failure(_) =>
          ImpulseStartFailure(v, cfg, ih);
        case Success(il) =>
          if ih < t && il <= t {
            AfterImpulseShift(v, w, c, cfg, atr, t, ih, il);
          }
      }
    }
  }

  lemma AfterImpulseShift(v: View, w: View, c: real, cfg: Config, atr: real, t: nat, ih: nat, il: nat)
    requires Shifted(v, w, c) && Fits(v, t + 1) && 0.0 < atr && ih < t && il <= t
    ensures AfterImpulse(w, cfg, atr, t, ih, il) == ShiftPullback(AfterImpulse(v, cfg, atr, t, ih, il), c)
  {
    PullbackDepthShift(v, w, c, cfg, atr, t, ih, il, v.high[ih] - v.low[il]);
    hide PullbackDepth;
    assert w.high[ih] - w.low[il] == v.high[ih] - v.low[il];
    assert forall j | ih < j <= t :: w.high[j] >= w.high[ih] <==> v.high[j] >= v.high[ih];
  }

  lemma ImpulseStartFailure(v: View, cfg: Config, ih: nat)
    requires ih < |v.low| && ImpulseStart(v, cfg, ih).Failure?
    ensures !ImpulseStart(v, cfg, ih).error.Ready?
  {
  }

  lemma PullbackDepthShift(v: View, w: View, c: real, cfg: Config, atr: real, t: nat, ih: nat, il: nat, impulse: real)
    requires Shifted(v, w, c) && Fits(v, t + 1) && 0.0 < atr && ih < t && il <= t
    ensures PullbackDepth(w, cfg, atr, t, ih, il, impulse) == ShiftPullback(PullbackDepth(v, cfg, atr, t, ih, il, impulse), c)
  {
    ArgMinShift(v.low, w.low, c, ih + 1, t + 1);
    var ip := ArgMin(v.low, ih + 1, t + 1);
    assert w.high[ih] - w.low[ip] == v.high[ih] - v.low[ip];
    assert w.low[ip] - w.emaFast[ip] == v.low[ip] - v.emaFast[ip];
    var support := cfg.supportToleranceAtr * atr;
    assert forall j | ih < j <= t :: w.close[j] < w.emaSlow[j] - support <==> v.close[j] < v.emaSlow[j] - support;
    forall component
      ensures Resumption(w, cfg, atr, t, ih, ip, component) == ShiftPullback(Resumption(v, cfg, atr, t, ih, ip, component), c)
    {
      ResumptionShift(v, w, c, cfg, atr, t, ih, ip, component);
    }
    hide Ratio, PullbackComponent, ArgMin, Resumption;
  }

  lemma ResumptionShift(v: View, w: View, c: real, cfg: Config, atr: real, t: nat, ih: nat, ip: nat, component: real)
    requires Shifted(v, w, c) && Fits(v, t + 1) && 0.0 < atr && ip <= t
    ensures Resumption(w, cfg, atr, t, ih, ip, component) == ShiftPullback(Resumption(v, cfg, atr, t, ih, ip, component), c)
  {
    assert w.close[t] - w.low[ip] == v.close[t] - v.low[ip];
  }

  // ----- The mirror -----

  function Opposite(side: Side): Side {
    if side == Buy then Sell else Buy
  }

  function MirrorSetup(s: Setup, k: real): Setup {
    s.(side := Opposite(s.side), reference := k - s.reference, invalidation := k - s.invalidation, rsi := 100.0 - s.rsi)
  }

  function MirrorVerdict(v: Verdict, k: real): Verdict {
    match v
    case Refused(status, reason, candidate, score) =>
      Refused(status, reason, match candidate case None => None case Some(side) => Some(Opposite(side)), score)
    case Found(setup, score) => Found(MirrorSetup(setup, k), score)
    case Raised => Raised
  }

  function MirrorContext(c: Context): Context {
    c.(rsi := 100.0 - c.rsi, regime := MirrorRegime(c.regime), previous := MirrorRegime(c.previous))
  }

  lemma OrientMirror(b: Bars, ind: Indication, mirror: Indication, k: real, side: Side)
    requires b.Shaped() && Mirrored(ind, mirror, k, b.Count())
    ensures Shifted(Orient(b, ind, side), Orient(b.Reflect(k), mirror, Opposite(side)), if side == Buy then -k else k)
  {
  }

  lemma TrendComponentMirror(side: Side, r: Regime)
    ensures TrendComponent(Opposite(side), MirrorRegime(r)) == TrendComponent(side, r)
  {
  }

  lemma JudgeSetupsMirror(b: Bars, ind: Indication, mirror: Indication, c: Context, cfg: Config, side: Side, minimumScore: real, k: real)
    requires Wired(b, ind, cfg) && Mirrored(ind, mirror, k, b.Count()) && Wired(b.Reflect(k), mirror, cfg)
    requires 0.0 < c.atr && cfg.breakoutRetestToleranceAtr != 0.0
    ensures JudgeSetups(b.Reflect(k), mirror, MirrorContext(c), cfg, Opposite(side), minimumScore)
            == MirrorVerdict(JudgeSetups(b, ind, c, cfg, side, minimumScore), k)
  {
    hide SearchBreakout, PullbackGeometry, JudgeBreakout, JudgePullback, TrendComponent, Confirmed, BreakoutLevel;
    var t, v, w := b.Count() - 1, Orient(b, ind, side), Orient(b.Reflect(k), mirror, Opposite(side));
    var shift := if side == Buy then -k else k;
    OrientMirror(b, ind, mirror, k, side);
    SearchShift(v, w, shift, ind.atr, cfg, c.atr, t);
    TrendComponentMirror(side, c.regime);
    var parts := Components(TrendComponent(side, c.regime), c.strength, 0.0, 0.0, c.volatility);
    match SearchBreakout(v, ind.atr, cfg, c.atr, t) {
      case Some(f) =>
        SearchBreakoutInRange(v, ind.atr, cfg, c.atr, t);
        JudgeBreakoutMirror(b, c, cfg, side, minimumScore, v, w, f, parts, k);
      case None =>
        PullbackShift(v, w, shift, cfg, c.atr, t);
        JudgePullbackMirror(b, c, cfg, side, minimumScore, PullbackGeometry(v, cfg, c.atr, t), parts, k);
    }
  }

  lemma JudgePullbackMirror(b: Bars, c: Context, cfg: Config, side: Side, minimumScore: real, p: Pullback, parts: Components, k: real)
    requires b.Shaped() && b.Count() > 0
    ensures JudgePullback(b.Reflect(k), MirrorContext(c), cfg, Opposite(side), minimumScore,
                          ShiftPullback(p, if side == Buy then -k else k), parts)
            == MirrorVerdict(JudgePullback(b, c, cfg, side, minimumScore, p, parts), k)
  {
  }

  lemma JudgeBreakoutMirror(b: Bars, c: Context, cfg: Config, side: Side, minimumScore: real, v: View, w: View, f: Breakout, parts: Components, k: real)
    requires b.Shaped() && |v.low| == |v.close| == b.Count() && f.breakoutIndex < f.retestIndex < b.Count()
    requires 0.0 < c.atr && cfg.breakoutRetestToleranceAtr != 0.0
    requires Shifted(v, w, if side == Buy then -k else k)
    ensures JudgeBreakout(b.Reflect(k), MirrorContext(c), cfg, Opposite(side), minimumScore, w,
                          f.(level := f.level + (if side == Buy then -k else k)), parts)
            == MirrorVerdict(JudgeBreakout(b, c, cfg, side, minimumScore, v, f, parts), k)
  {
  }

  lemma JudgeRegimeMirror(b: Bars, ind: Indication, mirror: Indication, c: Context, cfg: Config, minimumScore: real, k: real)
    requires Wired(b, ind, cfg) && Mirrored(ind, mirror, k, b.Count()) && Wired(b.Reflect(k), mirror, cfg)
    requires 0.0 < c.atr && cfg.breakoutRetestToleranceAtr != 0.0
    ensures JudgeRegime(b.Reflect(k), mirror, MirrorContext(c), cfg, minimumScore)
            == MirrorVerdict(JudgeRegime(b, ind, c, cfg, minimumScore), k)
  {
    hide JudgeSetups, TrendComponent;
    if c.regime.trend in {Bullish, Bearish} {
      var side := if c.regime.trend == Bullish then Buy else Sell;
      TrendComponentMirror(side, c.regime);
      JudgeSetupsMirror(b, ind, mirror, c, cfg, side, minimumScore, k);
    }
  }

  lemma JudgedMirror(b: Bars, ind: Indication, mirror: Indication, cfg: Config, minimumScore: real, k: real)
    requires Wired(b, ind, cfg) && Mirrored(ind, mirror, k, b.Count()) && Wired(b.Reflect(k), mirror, cfg)
    requires cfg.breakoutRetestToleranceAtr != 0.0
    ensures Judged(b.Reflect(k), mirror, cfg, minimumScore) == MirrorVerdict(Judged(b, ind, cfg, minimumScore), k)
  {
    hide ContextOf, JudgeRegime;
    var t := b.Count() - 1;
    if ind.atr[t].Some? && ind.adx[t].Some? && ind.rsi[t].Some? && 0.0 < ind.atr[t].value {
      var atr, adx, rsi := ind.atr[t].value, ind.adx[t].value, ind.rsi[t].value;
      ContextMirror(b, ind, mirror, cfg, k, t, atr, adx, rsi);
      ContextKeepsAtr(b, ind, cfg, t, atr, adx, rsi);
      match ContextOf(b, ind, cfg, t, atr, adx, rsi) {
        case None =>
        case Some(c) => JudgeRegimeMirror(b, ind, mirror, c, cfg, minimumScore, k);
      }
    }
  }

  lemma ContextMirror(b: Bars, ind: Indication, mirror: Indication, cfg: Config, k: real, t: nat, atr: real, adx: real, rsi: real)
    requires b.Shaped() && Mirrored(ind, mirror, k, b.Count())
    ensures ContextOf(b.Reflect(k), mirror, cfg, t, atr, adx, 100.0 - rsi)
            == match ContextOf(b, ind, cfg, t, atr, adx, rsi) case None => None case Some(c) => Some(MirrorContext(c))
  {
    hide ClassifyRegime, StrengthComponent, VolatilityComponent, Median, MirrorRegime;
    RegimeMirrorStep(b, ind, mirror, cfg, k, t);
    RegimeMirrorStep(b, ind, mirror, cfg, k, t - cfg.regimeLookback);
  }

  /** The mirror theorem, for every series, configuration, minimum score and axis k. */
  lemma TechnicalMirror(b: Bars, cfg: Config, minimumScore: real, k: real)
    requires b.Shaped() && b.Count() > 0 && 0 < cfg.breakoutLookback && cfg.breakoutRetestToleranceAtr != 0.0
    ensures b.Reflect(k).Shaped()
    ensures Technical(b.Reflect(k), cfg, minimumScore) == MirrorVerdict(Technical(b, cfg, minimumScore), k)
  {
    IndicationMirror(b, cfg, k);
    IndicationWired(b, cfg);
    IndicationWired(b.Reflect(k), cfg);
    hide IndicationOf, Judged;
    JudgedMirror(b, IndicationOf(b, cfg), IndicationOf(b.Reflect(k), cfg), cfg, minimumScore, k);
  }
}
