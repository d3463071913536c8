/** The trend pullback in prices: which leg is measured, when it is ready to trade, and what the first
    failing condition reports. All on the view turned so that up is the trade direction. */
module PullbackLaws {
  import opened Wrappers
  import opened RealMath
  import opened Regime
  import opened Detector

  // ----- The leg -----

  /** p is the last of the listed pivots that lie before bar i. */
  ghost predicate IsLastBefore(pivots: seq<nat>, i: nat, p: nat) {
    p < i && exists n :: 0 <= n < |pivots| && pivots[n] == p && forall m | n < m < |pivots| :: i <= pivots[m]
  }

  ghost predicate NoneBefore(pivots: seq<nat>, i: nat) {
    forall n | 0 <= n < |pivots| :: i <= pivots[n]
  }

  /** m is the first bar in [lo, hi) with the lowest value. */
  ghost predicate IsFirstLowest(s: seq<real>, lo: nat, hi: nat, m: nat) {
    && lo <= m < hi <= |s|
    && (forall j | lo <= j < hi :: s[m] <= s[j])
    && (forall j | lo <= j < m :: s[m] < s[j])
  }

  /** The leg to the high at ih starts at il: at the swing low before it or, if so configured and there is
      one, at the lowest bar since the swing high before it. */
  ghost predicate StartsLeg(v: View, cfg: Config, ih: nat, il: nat) {
    && !NoneBefore(v.swingLows, ih)
    && (!cfg.lowestSincePriorHigh ==> IsLastBefore(v.swingLows, ih, il))
    && (cfg.lowestSincePriorHigh && NoneBefore(v.swingHighs, ih) ==> IsFirstLowest(v.low, 0, ih, il))
    && (cfg.lowestSincePriorHigh && !NoneBefore(v.swingHighs, ih) ==>
          exists start: nat :: IsLastBefore(v.swingHighs, ih, start) && IsFirstLowest(v.low, start, ih, il))
  }

  /** The leg from il to the last swing high ih, and the low ip of what followed it. */
  ghost predicate IsLeg(v: View, cfg: Config, t: nat, ih: nat, il: nat, ip: nat) {
    && v.swingHighs != [] && ih == v.swingHighs[|v.swingHighs| - 1]
    && StartsLeg(v, cfg, ih, il) && IsFirstLowest(v.low, ih + 1, t + 1, ip)
  }

  /** Lists and pivots as the detector supplies them. */
  ghost predicate Sound(v: View, t: nat) {
    && Fits(v, t + 1)
    && (forall i | 0 <= i < |v.swingHighs| :: 0 < v.swingHighs[i] < t)
    && (forall i | 0 <= i < |v.swingLows| :: 0 < v.swingLows[i] < t)
  }

  lemma {:induction false} LastBeforeExactly(pivots: seq<nat>, i: nat)
    ensures match LastBefore(pivots, i)
            case None => NoneBefore(pivots, i)
            case Some(p) => IsLastBefore(pivots, i, p) && !NoneBefore(pivots, i)
  {
    if pivots != [] {
      LastBeforeExactly(pivots[..|pivots| - 1], i);
      assert pivots[|pivots| - 1] < i || LastBefore(pivots, i) == LastBefore(pivots[..|pivots| - 1], i);
    }
  }

  lemma LastBeforeIsUnique(pivots: seq<nat>, i: nat, p: nat, q: nat)
    requires IsLastBefore(pivots, i, p) && IsLastBefore(pivots, i, q)
    ensures p == q
  {
    var m :| 0 <= m < |pivots| && pivots[m] == p && forall x | m < x < |pivots| :: i <= pivots[x];
    var n :| 0 <= n < |pivots| && pivots[n] == q && forall x | n < x < |pivots| :: i <= pivots[x];
    assert m == n;
  }

  lemma FirstLowestIsUnique(s: seq<real>, lo: nat, hi: nat, m: nat, n: nat)
    requires IsFirstLowest(s, lo, hi, m) && IsFirstLowest(s, lo, hi, n)
    ensures m == n
  {
    assert s[m] <= s[n] <= s[m];
  }

  /** The code finds the leg, and refuses for want of one exactly when there is no swing high, or no swing
      low before the last one. */
  lemma LegExactly(v: View, cfg: Config, atr: real, t: nat) returns (ih: nat, il: nat, ip: nat)
    requires Sound(v, t) && 0.0 < atr
    ensures v.swingHighs == [] || NoneBefore(v.swingLows, v.swingHighs[|v.swingHighs| - 1]) ==>
              PullbackGeometry(v, cfg, atr, t) == NotReady(Rejected, NoImpulseLeg, 0.0)
    ensures !(v.swingHighs == [] || NoneBefore(v.swingLows, v.swingHighs[|v.swingHighs| - 1])) ==>
              && IsLeg(v, cfg, t, ih, il, ip) && ih < t && il < ih
              && PullbackGeometry(v, cfg, atr, t) == AfterImpulse(v, cfg, atr, t, ih, il)
  {
    ih, il, ip := 0, 0, 0;
    if v.swingHighs != [] {
      ih := v.swingHighs[|v.swingHighs| - 1];
      LastBeforeExactly(v.swingLows, ih);
      LastBeforeExactly(v.swingHighs, ih);
      ip := ArgMin(v.low, ih + 1, t + 1);
      assert IsFirstLowest(v.low, ih + 1, t + 1, ip);
      hide LastBefore, AfterImpulse, NoneBefore;
      match LastBefore(v.swingLows, ih) {
        case None =>
        case Some(p) =>
          if !cfg.lowestSincePriorHigh {
            il := p;
          } else {
            var start := match LastBefore(v.swingHighs, ih) case None => 0 case Some(h) => h;
            assert start < ih by { hide IsFirstLowest; }
            il := ArgMin(v.low, start, ih);
            assert IsFirstLowest(v.low, start, ih, il);
          }
      }
    }
  }

  lemma LegIsUnique(v: View, cfg: Config, t: nat, ih: nat, il: nat, ip: nat, otherIh: nat, otherIl: nat, otherIp: nat)
    requires IsLeg(v, cfg, t, ih, il, ip) && IsLeg(v, cfg, t, otherIh, otherIl, otherIp)
    ensures ih == otherIh && il == otherIl && ip == otherIp
  {
    FirstLowestIsUnique(v.low, ih + 1, t + 1, ip, otherIp);
    hide IsFirstLowest, IsLastBefore, NoneBefore;
    if !cfg.lowestSincePriorHigh {
      LastBeforeIsUnique(v.swingLows, ih, il, otherIl);
    } else if NoneBefore(v.swingHighs, ih) {
      FirstLowestIsUnique(v.low, 0, ih, il, otherIl);
    } else {
      var start: nat :| IsLastBefore(v.swingHighs, ih, start) && IsFirstLowest(v.low, start, ih, il);
      var otherStart: nat :| IsLastBefore(v.swingHighs, ih, otherStart) && IsFirstLowest(v.low, otherStart, ih, otherIl);
      LastBeforeIsUnique(v.swingHighs, ih, start, otherStart);
      FirstLowestIsUnique(v.low, start, ih, il, otherIl);
    }
  }

  // ----- Ready -----

  function Scaled(x: real, y: real): real {
    x * y
  }

  /** A later bar reaches the high again. */
  ghost predicate Extends(v: View, t: nat, ih: nat)
    requires Sound(v, t) && ih <= t
  {
    exists j :: ih < j <= t && v.high[ih] <= v.high[j]
  }

  /** A later bar closes below the slow average by more than the tolerance. */
  ghost predicate Breaks(v: View, t: nat, ih: nat, support: real)
    requires Sound(v, t) && ih <= t
  {
    exists j :: ih < j <= t && v.close[j] < v.emaSlow[j] - support
  }

  /** The pullback is deep enough and not too deep, held by the trend, near the fast average, recent, and over. */
  ghost predicate Resumes(v: View, cfg: Config, atr: real, t: nat, ih: nat, il: nat, ip: nat)
    requires Sound(v, t) && ih < ip <= t && il <= t
  {
    var impulse, depth := v.high[ih] - v.low[il], v.high[ih] - v.low[ip];
    && (forall j | ih < j <= t :: v.high[j] < v.high[ih])
    && Scaled(cfg.minImpulseAtr, atr) <= impulse
    && v.low[il] < v.low[ip]
    && Scaled(cfg.minRetracement, impulse) <= depth <= Scaled(cfg.maxRetracement, impulse)
    && (forall j | ih < j <= t :: v.emaSlow[j] - Scaled(cfg.supportToleranceAtr, atr) <= v.close[j])
    && Max(0.0, v.low[ip] - v.emaFast[ip]) <= Scaled(cfg.zoneToleranceAtr, atr)
    && t - ip <= cfg.maxBarsSincePullbackLow
    && ip < t && v.emaFast[t] < v.close[t] && v.close[t - 1] < v.close[t]
  }

  /** The first of these that holds is what an unready pullback reports. */
  ghost function Faults(v: View, cfg: Config, atr: real, t: nat, ih: nat, il: nat, ip: nat): seq<(bool, (Status, Reason))>
    requires Sound(v, t) && ih < ip <= t && il <= t
  {
    var impulse, depth := v.high[ih] - v.low[il], v.high[ih] - v.low[ip];
    [ (Extends(v, t, ih), (Deferred, ImpulseStillExtending)),
      (impulse < Scaled(cfg.minImpulseAtr, atr), (Rejected, ImpulseTooSmall)),
      (v.low[ip] <= v.low[il] || Scaled(cfg.maxRetracement, impulse) < depth, (Rejected, PullbackTooDeep)),
      (depth < Scaled(cfg.minRetracement, impulse), (Deferred, PullbackNotDeepEnough)),
      (Breaks(v, t, ih, Scaled(cfg.supportToleranceAtr, atr)), (Rejected, TrendSupportBroken)),
      (Scaled(cfg.zoneToleranceAtr, atr) < Max(0.0, v.low[ip] - v.emaFast[ip]), (Deferred, PullbackNotInValueZone)),
      (cfg.maxBarsSincePullbackLow < t - ip, (Rejected, SetupStale)),
      (ip == t || v.close[t] <= v.emaFast[t] || v.close[t] <= v.close[t - 1], (Deferred, AwaitingResumption)) ]
  }

  /** How deep the pullback is, as a share of the impulse, and how far above the fast average it stopped. */
  function ScoreOf(v: View, cfg: Config, atr: real, ih: nat, il: nat, ip: nat): Option<real>
    requires ih < |v.high| && il < |v.low| && ip < |v.low| && ip < |v.emaFast| && atr != 0.0
  {
    var depth :- Ratio(v.high[ih] - v.low[ip], v.high[ih] - v.low[il]);
    PullbackComponent(depth, Max(0.0, v.low[ip] - v.emaFast[ip]) / atr, cfg)
  }

  /** What the geometry answers on a leg, in terms of the faults. */
  ghost predicate AnswersFor(p: Pullback, v: View, cfg: Config, atr: real, t: nat, ih: nat, il: nat, ip: nat)
    requires Sound(v, t) && ih < ip <= t && il <= t && atr != 0.0
  {
    match p
    case Ready(anchor, extreme, component, bounce) =>
      && Resumes(v, cfg, atr, t, ih, il, ip)
      && anchor == ih && extreme == v.low[ip] && bounce == (v.close[t] - v.low[ip]) / atr
      && Some(component) == ScoreOf(v, cfg, atr, ih, il, ip)
    case NotReady(status, reason, _) =>
      !Resumes(v, cfg, atr, t, ih, il, ip) && FirstCase(Faults(v, cfg, atr, t, ih, il, ip), (status, reason))
    case Failed => false
  }

  /** The first k faults do not hold. */
  ghost predicate Clear(v: View, cfg: Config, atr: real, t: nat, ih: nat, il: nat, ip: nat, k: nat)
    requires Sound(v, t) && ih < ip <= t && il <= t && k <= 8
  {
    forall m | 0 <= m < k :: !Faults(v, cfg, atr, t, ih, il, ip)[m].0
  }

  lemma Fault(v: View, cfg: Config, atr: real, t: nat, ih: nat, il: nat, ip: nat, k: nat)
    requires Sound(v, t) && ih < ip <= t && il <= t && k < 8
    requires Faults(v, cfg, atr, t, ih, il, ip)[k].0 && Clear(v, cfg, atr, t, ih, il, ip, k)
    ensures FirstCase(Faults(v, cfg, atr, t, ih, il, ip), Faults(v, cfg, atr, t, ih, il, ip)[k].1)
    ensures !Resumes(v, cfg, atr, t, ih, il, ip)
  {
    IsFirstCase(Faults(v, cfg, atr, t, ih, il, ip), k);
  }

  lemma NoFault(v: View, cfg: Config, atr: real, t: nat, ih: nat, il: nat, ip: nat)
    requires Sound(v, t) && ih < ip <= t && il <= t && Clear(v, cfg, atr, t, ih, il, ip, 8)
    ensures Resumes(v, cfg, atr, t, ih, il, ip)
  {
    var faults := Faults(v, cfg, atr, t, ih, il, ip);
    assert !faults[0].0 && !faults[1].0 && !faults[2].0 && !faults[3].0 && !faults[4].0 && !faults[5].0 && !faults[6].0 && !faults[7].0;
  }

  lemma OneMoreClear(v: View, cfg: Config, atr: real, t: nat, ih: nat, il: nat, ip: nat, k: nat)
    requires Sound(v, t) && ih < ip <= t && il <= t && k < 8 && Clear(v, cfg, atr, t, ih, il, ip, k)
    requires !Faults(v, cfg, atr, t, ih, il, ip)[k].0
    ensures Clear(v, cfg, atr, t, ih, il, ip, k + 1)
  {
    hide Faults;
  }

  lemma ResumptionExactly(v: View, cfg: Config, atr: real, t: nat, ih: nat, il: nat, ip: nat, component: real)
    requires Sound(v, t) && ih < ip <= t && il <= t && 0.0 < atr && Clear(v, cfg, atr, t, ih, il, ip, 6)
    requires ScoreOf(v, cfg, atr, ih, il, ip) == Some(component)
    ensures AnswersFor(Resumption(v, cfg, atr, t, ih, ip, component), v, cfg, atr, t, ih, il, ip)
  {
    hide Clear, Resumes, FirstCase, ScoreOf;
    if t - ip > cfg.maxBarsSincePullbackLow {
      Fault(v, cfg, atr, t, ih, il, ip, 6);
    } else {
      OneMoreClear(v, cfg, atr, t, ih, il, ip, 6);
      if !(ip < t && v.close[t] > v.emaFast[t] && v.close[t] > v.close[t - 1]) {
        Fault(v, cfg, atr, t, ih, il, ip, 7);
      } else {
        OneMoreClear(v, cfg, atr, t, ih, il, ip, 7);
        NoFault(v, cfg, atr, t, ih, il, ip);
      }
    }
  }

  /** The bounds of the retracement, and the gap to the fast average, as distances instead of ratios. */
  lemma DepthInPrices(depth: real, impulse: real, above: real, atr: real, cfg: Config)
    requires 0.0 < impulse && 0.0 < atr
    ensures depth / impulse > cfg.maxRetracement <==> Scaled(cfg.maxRetracement, impulse) < depth
    ensures depth / impulse < cfg.minRetracement <==> depth < Scaled(cfg.minRetracement, impulse)
    ensures above / atr > cfg.zoneToleranceAtr <==> Scaled(cfg.zoneToleranceAtr, atr) < above
  {
    RatioAgainst(depth, impulse, cfg.maxRetracement);
    RatioAgainst(depth, impulse, cfg.minRetracement);
    RatioAgainst(above, atr, cfg.zoneToleranceAtr);
  }

  lemma DepthUnfolds(v: View, cfg: Config, atr: real, t: nat, ih: nat, il: nat, ip: nat)
    requires Sound(v, t) && ih < t && il <= t && 0.0 < atr && cfg.zoneToleranceAtr != 0.0
    requires IsFirstLowest(v.low, ih + 1, t + 1, ip) && 0.0 < v.high[ih] - v.low[il]
    ensures ScoreOf(v, cfg, atr, ih, il, ip).Some?
    ensures var impulse, depth := v.high[ih] - v.low[il], v.high[ih] - v.low[ip];
            PullbackDepth(v, cfg, atr, t, ih, il, impulse)
            == if v.low[ip] <= v.low[il] || Scaled(cfg.maxRetracement, impulse) < depth then NotReady(Rejected, PullbackTooDeep, 0.0)
               else if depth < Scaled(cfg.minRetracement, impulse) then NotReady(Deferred, PullbackNotDeepEnough, 0.0)
               else if Breaks(v, t, ih, Scaled(cfg.supportToleranceAtr, atr)) then NotReady(Rejected, TrendSupportBroken, 0.0)
               else if Scaled(cfg.zoneToleranceAtr, atr) < Max(0.0, v.low[ip] - v.emaFast[ip]) then
                 NotReady(Deferred, PullbackNotInValueZone, 0.0)
               else Resumption(v, cfg, atr, t, ih, ip, ScoreOf(v, cfg, atr, ih, il, ip).value)
  {
    var impulse, depth := v.high[ih] - v.low[il], v.high[ih] - v.low[ip];
    FirstLowestIsUnique(v.low, ih + 1, t + 1, ip, ArgMin(v.low, ih + 1, t + 1));
    hide ArgMin, IsFirstLowest, Resumption, Abs, Clip;
    DepthInPrices(depth, impulse, Max(0.0, v.low[ip] - v.emaFast[ip]), atr, cfg);
    assert Scaled(cfg.supportToleranceAtr, atr) == cfg.supportToleranceAtr * atr;
    hide Scaled, Max;
  }

  lemma DepthExactly(v: View, cfg: Config, atr: real, t: nat, ih: nat, il: nat, ip: nat)
    requires Sound(v, t) && ih < t && il <= t && 0.0 < atr && cfg.zoneToleranceAtr != 0.0
    requires IsFirstLowest(v.low, ih + 1, t + 1, ip) && 0.0 < v.high[ih] - v.low[il] && Clear(v, cfg, atr, t, ih, il, ip, 2)
    ensures AnswersFor(PullbackDepth(v, cfg, atr, t, ih, il, v.high[ih] - v.low[il]), v, cfg, atr, t, ih, il, ip)
  {
    var impulse, depth := v.high[ih] - v.low[il], v.high[ih] - v.low[ip];
    DepthUnfolds(v, cfg, atr, t, ih, il, ip);
    hide PullbackDepth, ScoreOf, Clear, Resumes, FirstCase, Resumption, Scaled, Max, Breaks;
    if v.low[ip] <= v.low[il] || Scaled(cfg.maxRetracement, impulse) < depth {
      Fault(v, cfg, atr, t, ih, il, ip, 2);
    } else {
      OneMoreClear(v, cfg, atr, t, ih, il, ip, 2);
      if depth < Scaled(cfg.minRetracement, impulse) {
        Fault(v, cfg, atr, t, ih, il, ip, 3);
      } else {
        OneMoreClear(v, cfg, atr, t, ih, il, ip, 3);
        if Breaks(v, t, ih, Scaled(cfg.supportToleranceAtr, atr)) {
          Fault(v, cfg, atr, t, ih, il, ip, 4);
        } else {
          OneMoreClear(v, cfg, atr, t, ih, il, ip, 4);
          if Scaled(cfg.zoneToleranceAtr, atr) < Max(0.0, v.low[ip] - v.emaFast[ip]) {
            Fault(v, cfg, atr, t, ih, il, ip, 5);
          } else {
            OneMoreClear(v, cfg, atr, t, ih, il, ip, 5);
            ResumptionExactly(v, cfg, atr, t, ih, il, ip, ScoreOf(v, cfg, atr, ih, il, ip).value);
          }
        }
      }
    }
  }

  /** On its leg the geometry is ready exactly when the pullback resumes, and otherwise reports the first fault. */
  lemma AfterImpulseExactly(v: View, cfg: Config, atr: real, t: nat, ih: nat, il: nat, ip: nat)
    requires Sound(v, t) && 0.0 < atr && 0.0 < cfg.minImpulseAtr && cfg.zoneToleranceAtr != 0.0
    requires ih < t && il < ih && IsFirstLowest(v.low, ih + 1, t + 1, ip)
    ensures AnswersFor(AfterImpulse(v, cfg, atr, t, ih, il), v, cfg, atr, t, ih, il, ip)
  {
    var impulse := v.high[ih] - v.low[il];
    assert impulse / atr < cfg.minImpulseAtr <==> impulse < Scaled(cfg.minImpulseAtr, atr) by { RatioAgainst(impulse, atr, cfg.minImpulseAtr); }
    assert 0.0 < Scaled(cfg.minImpulseAtr, atr) by { MulPositive(cfg.minImpulseAtr, atr); }
    hide IsFirstLowest, Resumes, FirstCase, PullbackDepth, Scaled;
    if Extends(v, t, ih) {
      Fault(v, cfg, atr, t, ih, il, ip, 0);
    } else {
      OneMoreClear(v, cfg, atr, t, ih, il, ip, 0);
      if impulse / atr < cfg.minImpulseAtr {
        Fault(v, cfg, atr, t, ih, il, ip, 1);
      } else {
        OneMoreClear(v, cfg, atr, t, ih, il, ip, 1);
        DepthExactly(v, cfg, atr, t, ih, il, ip);
      }
    }
  }

  ghost predicate NoLeg(v: View) {
    v.swingHighs == [] || NoneBefore(v.swingLows, v.swingHighs[|v.swingHighs| - 1])
  }

  /** Without a leg the geometry says so; on a leg it answers for it. */
  lemma GeometryExactly(v: View, cfg: Config, atr: real, t: nat) returns (ih: nat, il: nat, ip: nat)
    requires Sound(v, t) && 0.0 < atr && 0.0 < cfg.minImpulseAtr && cfg.zoneToleranceAtr != 0.0
    ensures NoLeg(v) ==> PullbackGeometry(v, cfg, atr, t) == NotReady(Rejected, NoImpulseLeg, 0.0)
    ensures !NoLeg(v) ==> IsLeg(v, cfg, t, ih, il, ip) && ih < ip <= t && il <= t
                          && AnswersFor(PullbackGeometry(v, cfg, atr, t), v, cfg, atr, t, ih, il, ip)
  {
    ih, il, ip := LegExactly(v, cfg, atr, t);
    hide PullbackGeometry, NoneBefore, AfterImpulse, IsFirstLowest, AnswersFor, StartsLeg;
    if !NoLeg(v) {
      AfterImpulseExactly(v, cfg, atr, t, ih, il, ip);
      assert ih < ip <= t by { LegInside(v, cfg, t, ih, il, ip); }
    }
  }

  lemma LegInside(v: View, cfg: Config, t: nat, ih: nat, il: nat, ip: nat)
    requires IsLeg(v, cfg, t, ih, il, ip)
    ensures ih < ip <= t
  {
  }

  /** The pullback is ready, on a swing high and with an extreme, exactly when those are the high and the
      low of its leg and it resumes. */
  lemma PullbackReadyExactly(v: View, cfg: Config, atr: real, t: nat, anchor: nat, extreme: real)
    requires Sound(v, t) && 0.0 < atr && 0.0 < cfg.minImpulseAtr && cfg.zoneToleranceAtr != 0.0
    ensures var p := PullbackGeometry(v, cfg, atr, t);
            p.Ready? && p.anchor == anchor && p.extreme == extreme <==>
            exists il: nat, ip: nat :: IsLeg(v, cfg, t, anchor, il, ip) && anchor < ip <= t && il <= t
                                      && Resumes(v, cfg, atr, t, anchor, il, ip) && extreme == v.low[ip]
  {
    var ih, il, ip := GeometryExactly(v, cfg, atr, t);
    hide PullbackGeometry, Resumes, NoLeg, Faults, ScoreOf, FirstCase;
    if NoLeg(v) {
      NoLegNoReady(v, cfg, t);
    } else {
      forall a: nat, l: nat, p: nat | IsLeg(v, cfg, t, a, l, p)
        ensures a == ih && l == il && p == ip
      {
        LegIsUnique(v, cfg, t, ih, il, ip, a, l, p);
      }
    }
    hide IsLeg;
  }

  lemma NoLegNoReady(v: View, cfg: Config, t: nat)
    requires NoLeg(v)
    ensures forall ih: nat, il: nat, ip: nat :: !IsLeg(v, cfg, t, ih, il, ip)
  {
  }

  /** And when it is not ready, either there is no leg or the first fault of the leg is reported. */
  lemma PullbackRefusedExactly(v: View, cfg: Config, atr: real, t: nat)
    requires Sound(v, t) && 0.0 < atr && 0.0 < cfg.minImpulseAtr && cfg.zoneToleranceAtr != 0.0
    ensures var p := PullbackGeometry(v, cfg, atr, t);
            && !p.Failed?
            && (p.NotReady? ==> PullbackRefuses(v, cfg, atr, t, p.status, p.reason))
  {
    var ih, il, ip := GeometryExactly(v, cfg, atr, t);
    hide PullbackGeometry, Resumes, NoLeg, Faults, ScoreOf, FirstCase, IsLeg;
  }

  /** There is no leg, or the leg's first fault is this. */
  ghost predicate PullbackRefuses(v: View, cfg: Config, atr: real, t: nat, status: Status, reason: Reason)
    requires Sound(v, t)
  {
    || (NoLeg(v) && status == Rejected && reason == NoImpulseLeg)
    || exists ih: nat, il: nat, ip: nat :: IsLeg(v, cfg, t, ih, il, ip) && ih < ip <= t && il <= t
         && FirstCase(Faults(v, cfg, atr, t, ih, il, ip), (status, reason))
  }

  lemma NoFaultResumes(v: View, cfg: Config, atr: real, t: nat, ih: nat, il: nat, ip: nat)
    requires Sound(v, t) && ih < ip <= t && il <= t && Resumes(v, cfg, atr, t, ih, il, ip)
    ensures forall answer :: !FirstCase(Faults(v, cfg, atr, t, ih, il, ip), answer)
  {
    var faults := Faults(v, cfg, atr, t, ih, il, ip);
    assert !faults[0].0 && !faults[1].0 && !faults[2].0 && !faults[3].0 && !faults[4].0 && !faults[5].0 && !faults[6].0 && !faults[7].0;
  }
}
