/** The opportunity detector's technical verdict on a series of completed bars: the gates every
    setup shares, the breakout/retest search and the pullback geometry. Both searches run on a
    view of the series turned so that up is the trade direction. */
module Detector {
  import opened Wrappers
  import opened RealMath
  import opened Indicators
  import opened Regime

  datatype Side = Buy | Sell
  datatype Status = Accepted | Rejected | Deferred

  datatype Reason =
    | InvalidMarketData | MarketRanging | RegimeTransitionUnconfirmed | MarketUncertain | RegimeReversalUnconfirmed
    | VolatilityTooLow | VolatilitySpike
    | NoEnabledSetup | NoImpulseLeg | ImpulseStillExtending | ImpulseTooSmall | PullbackTooDeep | PullbackNotDeepEnough
    | TrendSupportBroken | PullbackNotInValueZone | SetupStale | AwaitingResumption
    | MomentumOverextended | SetupScoreTooLow

  datatype Kind = TrendPullback | BreakoutRetest

  datatype Setup = Setup(kind: Kind, side: Side, anchorTime: real, reference: real, invalidation: real,
                         atr: real, rsi: real, atrRatio: real)

  /** Raised stands for an exception inside the evaluation, which the caller reports as a rejection. */
  datatype Verdict =
    | Refused(status: Status, reason: Reason, candidate: Option<Side>, score: real)
    | Found(setup: Setup, score: real)
    | Raised

  // ----- Score components -----

  datatype Components = Components(trend: real, strength: real, pullback: real, momentum: real, volatility: real) {
    function Score(): real {
      0.25 * trend + 0.20 * strength + 0.25 * pullback + 0.15 * momentum + 0.15 * volatility
    }
  }

  function TrendComponent(side: Side, r: Regime): real {
    if r.bias != (if side == Buy then Bull else Bear) then 0.0
    else
      var structure :=
        if r.structure == (if side == Buy then Rising else Falling) then 1.0
        else if r.structure in {Mixed, Unknown} then 0.5 else 0.0;
      match (r.separation, r.slope)
      case (Some(separation), Some(slope)) =>
        0.5 * Clip(Abs(separation)) + 0.25 * Clip(Abs(slope) / 0.5) + 0.25 * structure
      case _ => 0.0  // an undefined separation always comes with a neutral bias
  }

  /** None: division by zero. */
  function Ratio(x: real, y: real): Option<real> {
    if y == 0.0 then None else Some(x / y)
  }

  function StrengthComponent(adx: real, cfg: Config): Option<real> {
    var r :- Ratio(adx - cfg.adxRanging, 35.0 - cfg.adxRanging);
    Some(Clip(r))
  }

  function VolatilityComponent(ratio: real, cfg: Config): Option<real> {
    if ratio < 0.8 then
      var r :- Ratio(ratio - cfg.atrRatioMin, 0.8 - cfg.atrRatioMin);
      Some(Clip(r))
    else if ratio <= 1.6 then Some(1.0)
    else
      var r :- Ratio(cfg.atrRatioMax - ratio, cfg.atrRatioMax - 1.6);
      Some(Clip(r))
  }

  function PullbackComponent(retracement: real, zoneGap: real, cfg: Config): Option<real> {
    var gap :- Ratio(zoneGap, cfg.zoneToleranceAtr);
    Some(0.6 * (1.0 - Clip(Abs(retracement - 0.5) / 0.35)) + 0.4 * (1.0 - 0.5 * Clip(gap)))
  }

  function MomentumComponent(rsi: real, bounce: real): real {
    var score :=
      if rsi < 45.0 then Clip((rsi - 30.0) / 15.0)
      else if rsi <= 65.0 then 1.0
      else Clip((75.0 - rsi) / 10.0);
    0.7 * score + 0.3 * Clip(bounce)
  }

  /** The index in relative strength terms as seen from the trade direction. */
  function DirectionalRsi(side: Side, rsi: real): real {
    if side == Buy then rsi else 100.0 - rsi
  }

  // ----- The oriented view -----

  datatype View = View(high: seq<real>, low: seq<real>, close: seq<real>, emaFast: seq<real>, emaSlow: seq<real>,
                       swingHighs: seq<nat>, swingLows: seq<nat>)

  function Minus(s: seq<real>): seq<real> {
    seq(|s|, i requires 0 <= i < |s| => -s[i])
  }

  function Orient(b: Bars, ind: Indication, side: Side): View {
    if side == Buy then View(b.high, b.low, b.close, ind.emaFast, ind.emaSlow, ind.swingHighs, ind.swingLows)
    else View(Minus(b.low), Minus(b.high), Minus(b.close), Minus(ind.emaFast), Minus(ind.emaSlow), ind.swingLows, ind.swingHighs)
  }

  ghost predicate Fits(v: View, n: nat) {
    && |v.high| == |v.low| == |v.close| == |v.emaFast| == |v.emaSlow| == n
    && (forall i | 0 <= i < |v.swingHighs| :: v.swingHighs[i] < n)
    && (forall i | 0 <= i < |v.swingLows| :: v.swingLows[i] < n)
  }

  // ----- Breakout, retest, continuation -----

  /** max(s[lo:hi]) */
  function Highest(s: seq<real>, lo: nat, hi: nat): (top: real)
    requires lo < hi <= |s|
    ensures forall j | lo <= j < hi :: s[j] <= top
    ensures exists j :: lo <= j < hi && s[j] == top
    decreases hi
  {
    if lo + 1 == hi then s[lo] else Max(Highest(s, lo, hi - 1), s[hi - 1])
  }

  function BreakoutLevel(v: View, cfg: Config, bi: nat): real
    requires 0 < cfg.breakoutLookback <= bi <= |v.high|
  {
    Highest(v.high, bi - cfg.breakoutLookback, bi)
  }

  /** Bar bi closed beyond the range of the bars before it, by more than the buffer. */
  predicate IsBreakout(v: View, atr: seq<Option<real>>, cfg: Config, bi: nat)
    requires 0 < cfg.breakoutLookback <= bi < |v.high| && |v.high| == |v.close| == |atr|
  {
    && atr[bi].Some? && 0.0 < atr[bi].value
    && v.close[bi] > BreakoutLevel(v, cfg, bi) + cfg.breakoutBufferAtr * atr[bi].value
  }

  /** Bar ri touched the level within the tolerance, no bar since closed below it, and the newest
      bar t closed beyond bar ri's high. */
  predicate IsRetest(v: View, tolerance: real, level: real, t: nat, ri: nat)
    requires ri < t < |v.high| && |v.high| == |v.low| == |v.close|
  {
    && -tolerance <= v.low[ri] - level <= tolerance
    && (forall j | ri <= j <= t :: level <= v.close[j])
    && v.close[t] > v.high[ri]
  }

  /** The earliest retest from bar ri on, within the allowed age. */
  function FirstRetest(v: View, cfg: Config, tolerance: real, level: real, t: nat, bi: nat, ri: nat): Option<nat>
    requires bi < ri <= t < |v.high| && |v.high| == |v.low| == |v.close|
    decreases t - ri
  {
    if ri == t || ri - bi > cfg.breakoutMaxRetestBars then None
    else if IsRetest(v, tolerance, level, t, ri) then Some(ri)
    else FirstRetest(v, cfg, tolerance, level, t, bi, ri + 1)
  }

  datatype Breakout = Breakout(breakoutIndex: nat, retestIndex: nat, level: real)

  ghost predicate CanSearch(v: View, atr: seq<Option<real>>, cfg: Config, t: nat) {
    0 < cfg.breakoutLookback && t < |v.high| && |v.high| == |v.low| == |v.close| == |atr|
  }

  function BreakoutAt(v: View, atr: seq<Option<real>>, cfg: Config, tolerance: real, t: nat, bi: nat): Option<Breakout>
    requires CanSearch(v, atr, cfg, t) && cfg.breakoutLookback <= bi < t
  {
    if !IsBreakout(v, atr, cfg, bi) then None
    else
      var level := BreakoutLevel(v, cfg, bi);
      var ri :- FirstRetest(v, cfg, tolerance, level, t, bi, bi + 1);
      Some(Breakout(bi, ri, level))
  }

  /** The latest breakout in [first, bi] that has a retest. */
  function LatestBreakout(v: View, atr: seq<Option<real>>, cfg: Config, tolerance: real, t: nat, first: nat, bi: int): Option<Breakout>
    requires CanSearch(v, atr, cfg, t) && cfg.breakoutLookback <= first && bi < t
    decreases bi - first
  {
    if bi < first then None
    else
      var found := BreakoutAt(v, atr, cfg, tolerance, t, bi);
      if found.Some? then found else LatestBreakout(v, atr, cfg, tolerance, t, first, bi - 1)
  }

  function FirstBreakout(cfg: Config, t: nat): nat {
    if t - cfg.breakoutMaxRetestBars - 1 <= cfg.breakoutLookback then cfg.breakoutLookback
    else t - cfg.breakoutMaxRetestBars - 1
  }

  function Tolerance(cfg: Config, atr: real): real {
    cfg.breakoutRetestToleranceAtr * atr
  }

  function SearchBreakout(v: View, atr: seq<Option<real>>, cfg: Config, atrNow: real, t: nat): Option<Breakout>
    requires CanSearch(v, atr, cfg, t)
  {
    if !cfg.breakoutRetestEnabled then None
    else LatestBreakout(v, atr, cfg, Tolerance(cfg, atrNow), t, FirstBreakout(cfg, t), t - 2)
  }

  method FindRetest(v: View, cfg: Config, tolerance: real, level: real, t: nat, bi: nat) returns (found: Option<nat>)
    requires bi < t < |v.high| && |v.high| == |v.low| == |v.close|
    ensures found == FirstRetest(v, cfg, tolerance, level, t, bi, bi + 1)
  {
    for ri := bi + 1 to t
      invariant FirstRetest(v, cfg, tolerance, level, t, bi, bi + 1) == FirstRetest(v, cfg, tolerance, level, t, bi, ri)
    {
      if ri - bi > cfg.breakoutMaxRetestBars {
        return None;
      }
      var gap := v.low[ri] - level;
      if gap > tolerance || gap < -tolerance {
        continue;
      }
      if v.close[ri] < level {
        continue;
      }
      if exists j :: ri <= j <= t && v.close[j] < level {
        continue;
      }
      if v.close[t] <= v.high[ri] {
        continue;
      }
      return Some(ri);
    }
    return None;
  }

  /** The nested search: newest breakout bar first, and for each the oldest retest first. */
  method FindBreakout(v: View, atr: seq<Option<real>>, cfg: Config, atrNow: real, t: nat) returns (found: Option<Breakout>)
    requires CanSearch(v, atr, cfg, t)
    ensures found == SearchBreakout(v, atr, cfg, atrNow, t)
  {
    hide BreakoutAt;
    found := None;
    if !cfg.breakoutRetestEnabled {
      return;
    }
    var first := FirstBreakout(cfg, t);
    var tolerance := Tolerance(cfg, atrNow);
    var bi: int := t - 2;
    while first <= bi
      invariant bi < t
      invariant SearchBreakout(v, atr, cfg, atrNow, t) == LatestBreakout(v, atr, cfg, tolerance, t, first, bi)
      decreases bi
    {
      var at := FindBreakoutAt(v, atr, cfg, tolerance, t, bi);
      if at.Some? {
        return at;
      }
      bi := bi - 1;
    }
  }

  /** The outer loop's body: the bar bi as a breakout, with its first retest. */
  method FindBreakoutAt(v: View, atr: seq<Option<real>>, cfg: Config, tolerance: real, t: nat, bi: nat) returns (found: Option<Breakout>)
    requires CanSearch(v, atr, cfg, t) && cfg.breakoutLookback <= bi < t
    ensures found == BreakoutAt(v, atr, cfg, tolerance, t, bi)
  {
    var level := MaxOfRange(v.high, bi - cfg.breakoutLookback, bi);
    hide FirstRetest, Highest;
    found := None;
    if atr[bi].Some? && 0.0 < atr[bi].value && v.close[bi] > level + cfg.breakoutBufferAtr * atr[bi].value {
      var retest := FindRetest(v, cfg, tolerance, level, t, bi);
      if retest.Some? {
        found := Some(Breakout(bi, retest.value, level));
      }
    }
  }

  method MaxOfRange(s: seq<real>, lo: nat, hi: nat) returns (m: real)
    requires lo < hi <= |s|
    ensures m == Highest(s, lo, hi)
  {
    m := s[lo];
    for i := lo + 1 to hi
      invariant m == Highest(s, lo, i)
    {
      m := Max(m, s[i]);
    }
  }

  /** What the search returns: a confirmed pair, the newest breakout that has one, with its oldest retest. */
  lemma {:induction false} BreakoutSearchExact(v: View, atr: seq<Option<real>>, cfg: Config, tolerance: real, t: nat, first: nat, bi: int)
    requires CanSearch(v, atr, cfg, t) && cfg.breakoutLookback <= first && bi < t
    ensures match LatestBreakout(v, atr, cfg, tolerance, t, first, bi)
            case None => forall b, r | first <= b <= bi && b < r < t :: !Confirmed(v, atr, cfg, tolerance, t, b, r)
            case Some(f) =>
              && first <= f.breakoutIndex <= bi && f.breakoutIndex < f.retestIndex < t
              && Confirmed(v, atr, cfg, tolerance, t, f.breakoutIndex, f.retestIndex)
              && f.level == BreakoutLevel(v, cfg, f.breakoutIndex)
              && (forall b, r | f.breakoutIndex < b <= bi && b < r < t :: !Confirmed(v, atr, cfg, tolerance, t, b, r))
              && (forall r | f.breakoutIndex < r < f.retestIndex :: !Confirmed(v, atr, cfg, tolerance, t, f.breakoutIndex, r))
    decreases bi - first
  {
    if first <= bi {
      BreakoutSearchExact(v, atr, cfg, tolerance, t, first, bi - 1);
      BreakoutAtExact(v, atr, cfg, tolerance, t, bi);
      hide BreakoutAt, Confirmed, BreakoutLevel, CanSearch;
    }
  }

  lemma BreakoutAtExact(v: View, atr: seq<Option<real>>, cfg: Config, tolerance: real, t: nat, bi: nat)
    requires CanSearch(v, atr, cfg, t) && cfg.breakoutLookback <= bi < t
    ensures match BreakoutAt(v, atr, cfg, tolerance, t, bi)
            case None => forall r | bi < r < t :: !Confirmed(v, atr, cfg, tolerance, t, bi, r)
            case Some(f) =>
              && f.breakoutIndex == bi < f.retestIndex < t && f.level == BreakoutLevel(v, cfg, bi)
              && Confirmed(v, atr, cfg, tolerance, t, bi, f.retestIndex)
              && (forall r | bi < r < f.retestIndex :: !Confirmed(v, atr, cfg, tolerance, t, bi, r))
  {
    FirstRetestExact(v, cfg, tolerance, BreakoutLevel(v, cfg, bi), t, bi, bi + 1);
    hide IsBreakout, IsRetest, BreakoutLevel;
  }

  lemma SearchBreakoutInRange(v: View, atr: seq<Option<real>>, cfg: Config, atrNow: real, t: nat)
    requires CanSearch(v, atr, cfg, t)
    ensures var f := SearchBreakout(v, atr, cfg, atrNow, t);
            f.Some? ==>
              && cfg.breakoutLookback <= f.value.breakoutIndex < f.value.retestIndex < t
              && Confirmed(v, atr, cfg, Tolerance(cfg, atrNow), t, f.value.breakoutIndex, f.value.retestIndex)
              && f.value.level == BreakoutLevel(v, cfg, f.value.breakoutIndex)
  {
    var tolerance := Tolerance(cfg, atrNow);
    BreakoutSearchExact(v, atr, cfg, tolerance, t, FirstBreakout(cfg, t), t - 2);
    hide LatestBreakout, BreakoutLevel, Confirmed;
  }

  predicate Confirmed(v: View, atr: seq<Option<real>>, cfg: Config, tolerance: real, t: nat, bi: nat, ri: nat)
    requires CanSearch(v, atr, cfg, t) && cfg.breakoutLookback <= bi < ri < t
  {
    && IsBreakout(v, atr, cfg, bi)
    && ri - bi <= cfg.breakoutMaxRetestBars
    && IsRetest(v, tolerance, BreakoutLevel(v, cfg, bi), t, ri)
  }

  lemma {:induction false} FirstRetestExact(v: View, cfg: Config, tolerance: real, level: real, t: nat, bi: nat, ri: nat)
    requires bi < ri <= t < |v.high| && |v.high| == |v.low| == |v.close|
    ensures match FirstRetest(v, cfg, tolerance, level, t, bi, ri)
            case None => forall r | ri <= r < t && r - bi <= cfg.breakoutMaxRetestBars :: !IsRetest(v, tolerance, level, t, r)
            case Some(r) =>
              && ri <= r < t && r - bi <= cfg.breakoutMaxRetestBars && IsRetest(v, tolerance, level, t, r)
              && forall r' | ri <= r' < r :: !IsRetest(v, tolerance, level, t, r')
    decreases t - ri
  {
    hide IsRetest;
    if ri < t && ri - bi <= cfg.breakoutMaxRetestBars {
      FirstRetestExact(v, cfg, tolerance, level, t, bi, ri + 1);
    }
  }

  // ----- Pullback -----

  datatype Pullback =
    | NotReady(status: Status, reason: Reason, component: real)
    | Ready(anchor: nat, extreme: real, component: real, bounce: real)
    | Failed

  /** The first index of the smallest value of s[lo:hi]. */
  function ArgMin(s: seq<real>, lo: nat, hi: nat): (m: nat)
    requires lo < hi <= |s|
    ensures lo <= m < hi
    ensures forall j | lo <= j < hi :: s[m] <= s[j]
    ensures forall j | lo <= j < m :: s[m] < s[j]
    decreases hi
  {
    if lo + 1 == hi then lo
    else
      var m := ArgMin(s, lo, hi - 1);
      if s[hi - 1] < s[m] then hi - 1 else m
  }

  /** The last pivot before bar i. */
  function LastBefore(pivots: seq<nat>, i: nat): Option<nat>
  {
    if pivots == [] then None
    else if pivots[|pivots| - 1] < i then Some(pivots[|pivots| - 1])
    else LastBefore(pivots[..|pivots| - 1], i)
  }

  /** Where the impulse leg to the swing high ih starts; Failed when the leg is empty. */
  function ImpulseStart(v: View, cfg: Config, ih: nat): Result<nat, Pullback>
    requires ih < |v.low|
  {
    match LastBefore(v.swingLows, ih)
    case None => Failure(NotReady(Rejected, NoImpulseLeg, 0.0))
    case Some(il) =>
      if !cfg.lowestSincePriorHigh then Success(il)
      else
        var start := match LastBefore(v.swingHighs, ih) case None => 0 case Some(p) => p;
        if start < ih then Success(ArgMin(v.low, start, ih)) else Failure(Failed)
  }

  function PullbackGeometry(v: View, cfg: Config, atr: real, t: nat): Pullback
    requires Fits(v, t + 1) && 0.0 < atr
  {
    if v.swingHighs == [] then NotReady(Rejected, NoImpulseLeg, 0.0)
    else
      var ih := v.swingHighs[|v.swingHighs| - 1];
      match ImpulseStart(v, cfg, ih)
      case Failure(p) => p
      case Success(il) => if ih == t || t < il then Failed else AfterImpulse(v, cfg, atr, t, ih, il)
  }

  function AfterImpulse(v: View, cfg: Config, atr: real, t: nat, ih: nat, il: nat): Pullback
    requires Fits(v, t + 1) && 0.0 < atr && ih < t && il <= t
  {
    if exists j :: ih < j <= t && v.high[j] >= v.high[ih] then NotReady(Deferred, ImpulseStillExtending, 0.0)
    else
      var impulse := v.high[ih] - v.low[il];
      if impulse / atr < cfg.minImpulseAtr then NotReady(Rejected, ImpulseTooSmall, 0.0)
      else PullbackDepth(v, cfg, atr, t, ih, il, impulse)
  }

  function PullbackDepth(v: View, cfg: Config, atr: real, t: nat, ih: nat, il: nat, impulse: real): Pullback
    requires Fits(v, t + 1) && 0.0 < atr && ih < t && il <= t
  {
    var ip := ArgMin(v.low, ih + 1, t + 1);
    match Ratio(v.high[ih] - v.low[ip], impulse)
    case None => Failed
    case Some(retracement) =>
      if v.low[ip] <= v.low[il] || retracement > cfg.maxRetracement then NotReady(Rejected, PullbackTooDeep, 0.0)
      else if retracement < cfg.minRetracement then NotReady(Deferred, PullbackNotDeepEnough, 0.0)
      else if exists j :: ih < j <= t && v.close[j] < v.emaSlow[j] - cfg.supportToleranceAtr * atr then
        NotReady(Rejected, TrendSupportBroken, 0.0)
      else
        var zoneGap := Max(0.0, v.low[ip] - v.emaFast[ip]) / atr;
        if zoneGap > cfg.zoneToleranceAtr then NotReady(Deferred, PullbackNotInValueZone, 0.0)
        else
          match PullbackComponent(retracement, zoneGap, cfg)
          case None => Failed
          case Some(component) => Resumption(v, cfg, atr, t, ih, ip, component)
  }

  function Resumption(v: View, cfg: Config, atr: real, t: nat, ih: nat, ip: nat, component: real): Pullback
    requires Fits(v, t + 1) && 0.0 < atr && ip <= t
  {
    if t - ip > cfg.maxBarsSincePullbackLow then NotReady(Rejected, SetupStale, component)
    else if !(ip < t && v.close[t] > v.emaFast[t] && v.close[t] > v.close[t - 1]) then
      NotReady(Deferred, AwaitingResumption, component)
    else Ready(ih, v.low[ip], component, (v.close[t] - v.low[ip]) / atr)
  }

  // ----- The shared gates and the verdict -----

  function InsertSorted(x: real, sorted: seq<real>): seq<real> {
    if sorted == [] || x <= sorted[0] then [x] + sorted
    else [sorted[0]] + InsertSorted(x, sorted[1..])
  }

  function Sorted(s: seq<real>): seq<real> {
    if s == [] then [] else InsertSorted(s[0], Sorted(s[1..]))
  }

  /** None: no data. */
  function Median(s: seq<real>): Option<real> {
    var sorted := Sorted(s);
    var n := |sorted|;
    if n == 0 then None
    else if n % 2 == 1 then Some(sorted[n / 2])
    else Some((sorted[n / 2 - 1] + sorted[n / 2]) / 2.0)
  }

  function Defined(s: seq<Option<real>>): seq<real> {
    if s == [] then []
    else if s[0].Some? then [s[0].value] + Defined(s[1..])
    else Defined(s[1..])
  }

  /** s[-n:], which is all of s for n = 0 */
  function Newest<T>(s: seq<T>, n: nat): seq<T> {
    if n == 0 || |s| <= n then s else s[|s| - n..]
  }

  /** What the shared gates read at the newest bar. */
  datatype Context = Context(atr: real, rsi: real, regime: Regime, previous: Regime, atrRatio: real,
                             strength: real, volatility: real)

  function ContextOf(b: Bars, ind: Indication, cfg: Config, t: nat, atr: real, adx: real, rsi: real): Option<Context> {
    var regime :- ClassifyRegime(b, ind, t, cfg);
    var previous :- ClassifyRegime(b, ind, t - cfg.regimeLookback, cfg);
    var baseline :- Median(Defined(Newest(ind.atr, cfg.atrBaselineBars)));
    var atrRatio :- Ratio(atr, baseline);
    var strength :- StrengthComponent(adx, cfg);
    var volatility :- VolatilityComponent(atrRatio, cfg);
    Some(Context(atr, rsi, regime, previous, atrRatio, strength, volatility))
  }

  lemma ContextKeepsAtr(b: Bars, ind: Indication, cfg: Config, t: nat, atr: real, adx: real, rsi: real)
    ensures var c := ContextOf(b, ind, cfg, t, atr, adx, rsi); c.Some? ==> c.value.atr == atr
  {
  }

  function Judge(setup: Setup, parts: Components, rsi: real, cfg: Config, minimumScore: real): Verdict {
    if rsi > cfg.rsiOverbought then Refused(Deferred, MomentumOverextended, Some(setup.side), parts.Score())
    else if parts.Score() < minimumScore then Refused(Rejected, SetupScoreTooLow, Some(setup.side), parts.Score())
    else Found(setup, parts.Score())
  }

  function Price(side: Side, oriented: real): real {
    if side == Buy then oriented else -oriented
  }

  /** The two setups, tried in a confirmed directional regime. */
  function JudgeSetups(b: Bars, ind: Indication, c: Context, cfg: Config, side: Side, minimumScore: real): Verdict
    requires Wired(b, ind, cfg) && 0.0 < c.atr && cfg.breakoutRetestToleranceAtr != 0.0
  {
    var t, v := b.Count() - 1, Orient(b, ind, side);
    var parts := Components(TrendComponent(side, c.regime), c.strength, 0.0, 0.0, c.volatility);
    match SearchBreakout(v, ind.atr, cfg, c.atr, t)
    case Some(f) =>
      SearchBreakoutInRange(v, ind.atr, cfg, c.atr, t);
      JudgeBreakout(b, c, cfg, side, minimumScore, v, f, parts)
    case None =>
      if !cfg.trendPullbackEnabled then Refused(Rejected, NoEnabledSetup, Some(side), parts.Score())
      else
        JudgePullback(b, c, cfg, side, minimumScore, PullbackGeometry(v, cfg, c.atr, t), parts)
  }

  function JudgePullback(b: Bars, c: Context, cfg: Config, side: Side, minimumScore: real, p: Pullback, parts: Components): Verdict
    requires b.Shaped() && b.Count() > 0
  {
    match p
    case Failed => Raised
    case NotReady(status, reason, component) =>
      Refused(status, reason, Some(side), parts.(pullback := component).Score())
    case Ready(anchor, extreme, component, bounce) =>
      if b.Count() <= anchor then Raised
      else
        var rsi, t := DirectionalRsi(side, c.rsi), b.Count() - 1;
        var setup := Setup(TrendPullback, side, b.times[anchor], b.close[t], Price(side, extreme), c.atr, c.rsi, c.atrRatio);
        Judge(setup, parts.(pullback := component, momentum := MomentumComponent(rsi, bounce)), rsi, cfg, minimumScore)
  }

  function JudgeBreakout(b: Bars, c: Context, cfg: Config, side: Side, minimumScore: real, v: View, f: Breakout, parts: Components): Verdict
    requires b.Shaped() && |v.low| == |v.close| == b.Count() && f.breakoutIndex < f.retestIndex < b.Count()
    requires 0.0 < c.atr && cfg.breakoutRetestToleranceAtr != 0.0
  {
    var t := b.Count() - 1;
    var rsi := DirectionalRsi(side, c.rsi);
    var low := v.low[f.retestIndex];
    var scored := parts.(
      pullback := 1.0 - 0.5 * Clip(Abs(low - f.level) / c.atr / cfg.breakoutRetestToleranceAtr),
      momentum := MomentumComponent(rsi, (v.close[t] - f.level) / c.atr));
    var setup := Setup(BreakoutRetest, side, b.times[f.breakoutIndex], b.close[t], Price(side, low), c.atr, c.rsi, c.atrRatio);
    Judge(setup, scored, rsi, cfg, minimumScore)
  }

  /** The lists fit the bars and the configuration passes the checks the search relies on. */
  ghost predicate Wired(b: Bars, ind: Indication, cfg: Config) {
    && b.Shaped() && b.Count() > 0 && 0 < cfg.breakoutLookback
    && |ind.emaFast| == |ind.emaSlow| == |ind.atr| == |ind.adx| == |ind.rsi| == b.Count()
    && (forall i | 0 <= i < |ind.swingHighs| :: ind.swingHighs[i] < b.Count())
    && (forall i | 0 <= i < |ind.swingLows| :: ind.swingLows[i] < b.Count())
  }

  function JudgeRegime(b: Bars, ind: Indication, c: Context, cfg: Config, minimumScore: real): Verdict
    requires Wired(b, ind, cfg) && 0.0 < c.atr && cfg.breakoutRetestToleranceAtr != 0.0
  {
    var early := Components(0.0, c.strength, 0.0, 0.0, c.volatility);
    match c.regime.trend
    case Ranging => Refused(Rejected, MarketRanging, None, early.Score())
    case Uncertain =>
      if PotentialReversal(c.regime, c.previous) then Refused(Deferred, RegimeTransitionUnconfirmed, None, early.Score())
      else Refused(Deferred, MarketUncertain, None, early.Score())
    case _ =>
      var side := if c.regime.trend == Bullish then Buy else Sell;
      var score := early.(trend := TrendComponent(side, c.regime)).Score();
      if c.previous.trend == MirrorTrend(c.regime.trend) then Refused(Deferred, RegimeReversalUnconfirmed, Some(side), score)
      else if c.atrRatio < cfg.atrRatioMin then Refused(Rejected, VolatilityTooLow, Some(side), score)
      else if c.atrRatio > cfg.atrRatioMax then Refused(Deferred, VolatilitySpike, Some(side), score)
      else JudgeSetups(b, ind, c, cfg, side, minimumScore)
  }

  function Judged(b: Bars, ind: Indication, cfg: Config, minimumScore: real): Verdict
    requires Wired(b, ind, cfg) && cfg.breakoutRetestToleranceAtr != 0.0
  {
    var t := b.Count() - 1;
    match (ind.atr[t], ind.adx[t], ind.rsi[t])
    case (Some(atr), Some(adx), Some(rsi)) =>
      if atr <= 0.0 then Refused(Rejected, InvalidMarketData, None, 0.0)
      else
        (match ContextOf(b, ind, cfg, t, atr, adx, rsi)
         case None => Raised
         case Some(c) => JudgeRegime(b, ind, c, cfg, minimumScore))
    case _ => Refused(Rejected, InvalidMarketData, None, 0.0)
  }

  lemma IndicationWired(b: Bars, cfg: Config)
    requires b.Shaped() && b.Count() > 0 && 0 < cfg.breakoutLookback
    ensures Wired(b, IndicationOf(b, cfg), cfg)
  {
    var (w, n) := (cfg.pivotWindow, b.Count());
    SwingHighsExact(b.high, w, n);
    SwingLowsExact(b.low, w, n);
    assert forall i | 0 <= i < |SwingHighs(b.high, w, n)| :: SwingHighs(b.high, w, n)[i] < n;
    assert forall i | 0 <= i < |SwingLows(b.low, w, n)| :: SwingLows(b.low, w, n)[i] < n;
  }

  /** The detector's verdict before duplicate suppression and forecasts. The configuration check
      makes breakoutLookback at least 5 and the retest tolerance positive. */
  function Technical(b: Bars, cfg: Config, minimumScore: real): Verdict
    requires b.Shaped() && b.Count() > 0 && 0 < cfg.breakoutLookback && cfg.breakoutRetestToleranceAtr != 0.0
  {
    IndicationWired(b, cfg);
    Judged(b, IndicationOf(b, cfg), cfg, minimumScore)
  }
}
