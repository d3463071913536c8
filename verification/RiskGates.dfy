/** Every answer of the risk stage before the volume is computed: where the stop is placed, what each
    gate compares, and which comes first. Only a used-up portfolio limit defers. */
module RiskGates {
  import opened Wrappers
  import opened RealMath
  import opened Detector
  import opened EntryTiming
  import opened RiskSizing

  function Times(x: real, y: real): real {
    x * y
  }

  // ----- The stop -----

  /** The price the trade is entered at: the timing stage's quote, else the live one, else the signal's close. */
  function EntryOf(s: Setup, quoted: Option<real>, m: RiskMarket): real {
    if quoted.Some? && quoted.value > 0.0 then quoted.value
    else if s.side == Buy && m.ask.Some? && m.ask.value > 0.0 then m.ask.value
    else if s.side == Sell && m.bid.Some? && m.bid.value > 0.0 then m.bid.value
    else s.reference
  }

  /** What a short stop must additionally clear. */
  ghost predicate NeedsSpread(s: Setup, cfg: RiskConfig) {
    s.side == Sell && cfg.shortStopSpreadAdjust
  }

  ghost predicate HasSpread(m: RiskMarket) {
    m.bid.Some? && m.ask.Some? && 0.0 < m.bid.value <= m.ask.value
  }

  /** The buffer beyond the invalidation level, and for a short that is so configured the spread as well. */
  ghost function StopOf(s: Setup, m: RiskMarket, cfg: RiskConfig): real
    requires NeedsSpread(s, cfg) ==> HasSpread(m)
  {
    if s.side == Buy then s.invalidation - Times(cfg.stopBufferAtr, s.atr)
    else s.invalidation + Times(cfg.stopBufferAtr, s.atr) + (if cfg.shortStopSpreadAdjust then m.ask.value - m.bid.value else 0.0)
  }

  ghost function DistanceOf(s: Setup, quoted: Option<real>, m: RiskMarket, cfg: RiskConfig): real
    requires NeedsSpread(s, cfg) ==> HasSpread(m)
  {
    if s.side == Buy then EntryOf(s, quoted, m) - StopOf(s, m, cfg) else StopOf(s, m, cfg) - EntryOf(s, quoted, m)
  }

  /** All prices positive, and the invalidation level on the losing side of the reference. */
  ghost predicate SetupReads(s: Setup) {
    && 0.0 < s.atr && 0.0 < s.reference && 0.0 < s.invalidation
    && (s.side == Buy ==> s.invalidation < s.reference) && (s.side == Sell ==> s.reference < s.invalidation)
  }

  /** Why no stop is placed; the last three compare its distance. */
  ghost function StopCases(s: Setup, quoted: Option<real>, m: RiskMarket, cfg: RiskConfig): seq<(bool, RiskReason)> {
    var spread := NeedsSpread(s, cfg) ==> HasSpread(m);
    var distance := if spread then DistanceOf(s, quoted, m, cfg) else 0.0;
    [ (m.point.None?, MissingOrInvalidRiskInput),
      (!SetupReads(s) || (m.point.Some? && m.point.value <= 0.0), InvalidOpportunitySetup),
      (!spread, MissingOrInvalidRiskInput),
      (distance <= 0.0, EntryBeyondStop),
      (distance < Times(cfg.minStopAtr, s.atr), StopTooTight),
      (Times(cfg.maxStopAtr, s.atr) < distance, StopTooWide) ]
  }

  lemma StopPlaced(s: Setup, quoted: Option<real>, m: RiskMarket, cfg: RiskConfig)
    requires NeedsSpread(s, cfg) ==> HasSpread(m)
    ensures SpreadAdjustment(s, m, cfg).Some?
    ensures StopPrice(s, SpreadAdjustment(s, m, cfg).value, cfg) == StopOf(s, m, cfg)
    ensures EntryPrice(s, quoted, m) == EntryOf(s, quoted, m)
    ensures Ahead(s.side, EntryPrice(s, quoted, m), StopPrice(s, SpreadAdjustment(s, m, cfg).value, cfg)) == DistanceOf(s, quoted, m, cfg)
  {
    assert Times(cfg.stopBufferAtr, s.atr) == cfg.stopBufferAtr * s.atr;
    assert Sign(s.side) * cfg.stopBufferAtr * s.atr == if s.side == Buy then cfg.stopBufferAtr * s.atr else -(cfg.stopBufferAtr * s.atr);
    hide Times;
  }

  lemma StopUnfolds(s: Setup, quoted: Option<real>, m: RiskMarket, cfg: RiskConfig)
    requires m.point.Some? && 0.0 < m.point.value && SetupReads(s) && (NeedsSpread(s, cfg) ==> HasSpread(m))
    ensures var distance := DistanceOf(s, quoted, m, cfg);
            StructuralStop(s, quoted, m, cfg)
            == if distance <= 0.0 then Failure(EntryBeyondStop)
               else if distance < Times(cfg.minStopAtr, s.atr) then Failure(StopTooTight)
               else if Times(cfg.maxStopAtr, s.atr) < distance then Failure(StopTooWide)
               else Success(Stop(StopOf(s, m, cfg), distance / m.point.value))
  {
    StopPlaced(s, quoted, m, cfg);
    assert SetupOk(s);
    var distance := DistanceOf(s, quoted, m, cfg);
    RatioAgainst(distance, s.atr, cfg.minStopAtr);
    RatioAgainst(distance, s.atr, cfg.maxStopAtr);
    hide StopOf, EntryOf, EntryPrice, StopPrice, Ahead, SpreadAdjustment, SetupOk, DistanceOf;
  }

  lemma StopRefusedEarly(s: Setup, quoted: Option<real>, m: RiskMarket, cfg: RiskConfig)
    ensures m.point.None? || (NeedsSpread(s, cfg) && !HasSpread(m) && SetupReads(s) && 0.0 < m.point.value) ==>
              StructuralStop(s, quoted, m, cfg) == Failure(MissingOrInvalidRiskInput)
    ensures m.point.Some? && (!SetupReads(s) || m.point.value <= 0.0) ==>
              StructuralStop(s, quoted, m, cfg) == Failure(InvalidOpportunitySetup)
  {
    hide EntryPrice, StopPrice;
  }

  /** The stop is placed at that price and that many points away, or the first case refuses it. */
  lemma StopAnswersExactly(s: Setup, quoted: Option<real>, m: RiskMarket, cfg: RiskConfig)
    ensures match StructuralStop(s, quoted, m, cfg)
            case Failure(reason) => FirstCase(StopCases(s, quoted, m, cfg), reason)
            case Success(stop) =>
              && (forall k | 0 <= k < 6 :: !StopCases(s, quoted, m, cfg)[k].0)
              && stop.price == StopOf(s, m, cfg) && stop.points * m.point.value == DistanceOf(s, quoted, m, cfg)
  {
    hide StructuralStop, DistanceOf, StopOf, Times, SetupReads, HasSpread, NeedsSpread, FirstCase;
    var cases := StopCases(s, quoted, m, cfg);
    StopRefusedEarly(s, quoted, m, cfg);
    if cases[0].0 || cases[1].0 || cases[2].0 {
      IsFirstCase(cases, if cases[0].0 then 0 else if cases[1].0 then 1 else 2);
    } else {
      StopUnfolds(s, quoted, m, cfg);
      PointsTimesPoint(DistanceOf(s, quoted, m, cfg), m.point.value);
      if cases[3].0 || cases[4].0 || cases[5].0 {
        IsFirstCase(cases, if cases[3].0 then 3 else if cases[4].0 then 4 else 5);
      }
    }
  }

  lemma PointsTimesPoint(distance: real, point: real)
    requires 0.0 < point
    ensures distance / point * point == distance
  {
  }

  // ----- The gates before the volume -----

  ghost predicate BelowZero(x: Option<real>) {
    x.Some? && x.value < 0.0
  }

  /** An account or symbol figure the volume needs is missing. */
  ghost predicate FigureMissing(m: RiskMarket) {
    m.accountBalance.None? || m.riskPercent.None? || m.pointValuePerLot.None?
    || m.volumeStep.None? || m.minVolume.None? || m.maxVolume.None?
  }

  ghost predicate FigureUnsound(m: RiskMarket, stopPoints: real)
    requires !FigureMissing(m)
  {
    || m.accountBalance.value <= 0.0 || m.riskPercent.value <= 0.0 || stopPoints <= 0.0 || m.pointValuePerLot.value <= 0.0
    || m.volumeStep.value <= 0.0 || m.minVolume.value <= 0.0 || m.maxVolume.value < m.minVolume.value
  }

  /** What refuses a trade before its volume is computed. The planned reward is the requested ratio where
      one is given, and otherwise the take-profit distance in stop distances. */
  ghost function GateCases(m: RiskMarket, stopPoints: real, cfg: RiskConfig): seq<(bool, (Status, RiskReason))> {
    [ (FigureMissing(m), (Rejected, MissingOrInvalidRiskInput)),
      (!FigureMissing(m) && FigureUnsound(m, stopPoints), (Rejected, NonPositiveOrInconsistentRiskInput)),
      (BelowZero(m.stopLevelPoints), (Rejected, NonPositiveOrInconsistentRiskInput)),
      (m.stopLevelPoints.Some? && stopPoints < m.stopLevelPoints.value, (Rejected, StopBelowBrokerMinimum)),
      (BelowZero(m.targetRewardRisk), (Rejected, NonPositiveOrInconsistentRiskInput)),
      (m.targetRewardRisk.Some? && m.targetRewardRisk.value < cfg.minRewardRisk, (Rejected, RewardRiskTooLow)),
      (m.targetRewardRisk.None? && BelowZero(m.takeProfitPoints), (Rejected, NonPositiveOrInconsistentRiskInput)),
      (m.targetRewardRisk.None? && m.takeProfitPoints.Some? && m.takeProfitPoints.value < Times(cfg.minRewardRisk, stopPoints),
       (Rejected, RewardRiskTooLow)),
      (BelowZero(m.openRiskPercent), (Rejected, NonPositiveOrInconsistentRiskInput)),
      (m.openRiskPercent.Some? && cfg.maxTotalRiskPercent <= m.openRiskPercent.value + 0.000000005, (Deferred, PortfolioRiskLimitReached)) ]
  }

  lemma HeadroomUsed(openRisk: real, cfg: RiskConfig)
    ensures Headroom(openRisk, cfg) <= 0.0 <==> cfg.maxTotalRiskPercent <= openRisk + 0.000000005
  {
    var z := Scaled(cfg.maxTotalRiskPercent - openRisk);
    assert Nearest(z) <= 0 <==> z <= 0.5;
  }

  lemma DistanceGateAnswers(m: RiskMarket, stopPoints: real, cfg: RiskConfig)
    requires !FigureMissing(m) && !FigureUnsound(m, stopPoints)
    ensures match DistanceGate(m, stopPoints, cfg)
            case Some(reason) => FirstCase(GateCases(m, stopPoints, cfg), (Rejected, reason))
            case None => forall k | 0 <= k < 8 :: !GateCases(m, stopPoints, cfg)[k].0
  {
    var cases := GateCases(m, stopPoints, cfg);
    if m.takeProfitPoints.Some? {
      RatioAgainst(m.takeProfitPoints.value, stopPoints, cfg.minRewardRisk);
    }
    hide FigureMissing, FigureUnsound;
    if DistanceGate(m, stopPoints, cfg).Some? {
      IsFirstCase(cases, if cases[2].0 then 2 else if cases[3].0 then 3 else if cases[4].0 then 4 else if cases[5].0 then 5
                         else if cases[6].0 then 6 else 7);
    }
  }

  /** What remains once the gates pass is decided by the volume alone. */
  ghost predicate DecidedByVolume(r: Risk) {
    r.Sized? || r == NotSized(Rejected, RiskBudgetBelowMinimumVolume) || r == NotSized(Rejected, RiskBudgetExceeded)
  }

  ghost predicate GateAnswers(r: Risk, m: RiskMarket, stopPoints: real, cfg: RiskConfig) {
    var cases := GateCases(m, stopPoints, cfg);
    if forall k | 0 <= k < 10 :: !cases[k].0 then DecidedByVolume(r)
    else r.NotSized? && FirstCase(cases, (r.status, r.reason))
  }

  /** With a stop placed, a trade is sized or refused for its volume exactly when every gate passes, and
      otherwise the first failing gate answers. */
  lemma GatesExactly(m: RiskMarket, stopPoints: real, stopPrice: Option<real>, cfg: RiskConfig)
    ensures GateAnswers(SizeFromStop(m, stopPoints, stopPrice, cfg), m, stopPoints, cfg)
  {
    var r, cases := SizeFromStop(m, stopPoints, stopPrice, cfg), GateCases(m, stopPoints, cfg);
    if FigureMissing(m) {
      IsFirstCase(cases, 0);
    } else if FigureUnsound(m, stopPoints) {
      IsFirstCase(cases, 1);
    } else {
      DistanceGateAnswers(m, stopPoints, cfg);
      hide DistanceGate, FirstCase, Volume, Percent, Budget, Headroom, Times;
      if DistanceGate(m, stopPoints, cfg).None? {
        if cases[8].0 {
          IsFirstCase(cases, 8);
        } else if m.openRiskPercent.Some? {
          HeadroomUsed(m.openRiskPercent.value, cfg);
          if cases[9].0 {
            IsFirstCase(cases, 9);
          }
        }
      }
    }
  }

  // ----- The whole stage -----

  /** The stop is placed from the setup, unless a distance is supplied without the point size to measure one. */
  ghost predicate FromSetup(setup: Option<Setup>, m: RiskMarket, cfg: RiskConfig) {
    setup.Some? && (cfg.strictStructural || m.point.Some? || m.stopLossPoints.None?)
  }

  lemma StageExactly(setup: Option<Setup>, quoted: Option<real>, m: RiskMarket, cfg: RiskConfig)
    ensures RiskSizing.Evaluate(false, setup, quoted, m, cfg) == NotSized(Rejected, UpstreamStageRejected)
    ensures var r := RiskSizing.Evaluate(true, setup, quoted, m, cfg);
            if FromSetup(setup, m, cfg) then
              match StructuralStop(setup.value, quoted, m, cfg)
              case Failure(reason) => r == NotSized(Rejected, reason)
              case Success(stop) => GateAnswers(r, m, stop.points, cfg)
                                    && (r.Sized? ==> r.stopPoints == stop.points && r.stopPrice == Some(stop.price))
            else
              match m.stopLossPoints
              case None => r == NotSized(Rejected, MissingOrInvalidRiskInput)
              case Some(points) => GateAnswers(r, m, points, cfg) && (r.Sized? ==> r.stopPoints == points && r.stopPrice == None)
  {
    hide StructuralStop, GateAnswers;
    if FromSetup(setup, m, cfg) {
      var stop := StructuralStop(setup.value, quoted, m, cfg);
      if stop.Success? {
        GatesExactly(m, stop.value.points, Some(stop.value.price), cfg);
        SizedCarriesStop(m, stop.value.points, Some(stop.value.price), cfg);
      }
    } else if m.stopLossPoints.Some? {
      GatesExactly(m, m.stopLossPoints.value, None, cfg);
      SizedCarriesStop(m, m.stopLossPoints.value, None, cfg);
    }
    hide SizeFromStop;
  }

  lemma SizedCarriesStop(m: RiskMarket, stopPoints: real, stopPrice: Option<real>, cfg: RiskConfig)
    ensures var r := SizeFromStop(m, stopPoints, stopPrice, cfg);
            r.Sized? ==> r.stopPoints == stopPoints && r.stopPrice == stopPrice
  {
    hide Volume, Percent, Budget, Headroom, DistanceGate;
  }

  /** The broker accepts the distance of the stop, the planned reward is worth it, and the portfolio has room. */
  ghost predicate MeetsGates(m: RiskMarket, stopPoints: real, cfg: RiskConfig) {
    && (m.stopLevelPoints.Some? ==> 0.0 <= m.stopLevelPoints.value <= stopPoints)
    && (m.targetRewardRisk.Some? ==> 0.0 <= m.targetRewardRisk.value && cfg.minRewardRisk <= m.targetRewardRisk.value)
    && (m.targetRewardRisk.None? && m.takeProfitPoints.Some? ==>
          0.0 <= m.takeProfitPoints.value && Times(cfg.minRewardRisk, stopPoints) <= m.takeProfitPoints.value)
    && (m.openRiskPercent.Some? ==> 0.0 <= m.openRiskPercent.value && m.openRiskPercent.value + 0.000000005 < cfg.maxTotalRiskPercent)
  }

  lemma PassingMeets(m: RiskMarket, stopPoints: real, cfg: RiskConfig)
    requires forall k | 0 <= k < 10 :: !GateCases(m, stopPoints, cfg)[k].0
    ensures MeetsGates(m, stopPoints, cfg)
  {
    var cases := GateCases(m, stopPoints, cfg);
    hide FigureMissing, FigureUnsound, Times;
    assert !cases[2].0 && !cases[3].0 && !cases[4].0 && !cases[5].0 && !cases[6].0 && !cases[7].0 && !cases[8].0 && !cases[9].0;
  }

  /** Every sized trade meets them, with the very stop distance it is sized on. */
  lemma SizedMeetsGates(upstreamApproved: bool, setup: Option<Setup>, quoted: Option<real>, m: RiskMarket, cfg: RiskConfig)
    ensures var r := RiskSizing.Evaluate(upstreamApproved, setup, quoted, m, cfg);
            r.Sized? ==> upstreamApproved && MeetsGates(m, r.stopPoints, cfg)
  {
    var r := RiskSizing.Evaluate(upstreamApproved, setup, quoted, m, cfg);
    StageExactly(setup, quoted, m, cfg);
    hide RiskSizing.Evaluate, GateCases, FirstCase, StructuralStop, MeetsGates;
    if r.Sized? {
      PassingMeets(m, r.stopPoints, cfg);
    }
  }

  /** Room in the portfolio can come back: the stage defers exactly when the stop stands, every figure and
      the planned reward are in order, and the open risk uses up the limit. */
  lemma DefersExactly(upstreamApproved: bool, setup: Option<Setup>, quoted: Option<real>, m: RiskMarket, cfg: RiskConfig)
    requires FromSetup(setup, m, cfg)
    ensures var r := RiskSizing.Evaluate(upstreamApproved, setup, quoted, m, cfg);
            r.NotSized? && r.status == Deferred <==>
            && upstreamApproved && StructuralStop(setup.value, quoted, m, cfg).Success?
            && var points := StructuralStop(setup.value, quoted, m, cfg).value.points;
               && (forall k | 0 <= k < 9 :: !GateCases(m, points, cfg)[k].0)
               && m.openRiskPercent.Some? && cfg.maxTotalRiskPercent <= m.openRiskPercent.value + 0.000000005
  {
    var r := RiskSizing.Evaluate(upstreamApproved, setup, quoted, m, cfg);
    var stop := StructuralStop(setup.value, quoted, m, cfg);
    StageExactly(setup, quoted, m, cfg);
    hide RiskSizing.Evaluate, StructuralStop;
    if upstreamApproved && stop.Success? {
      LastGateDefers(r, m, stop.value.points, cfg);
    }
    hide GateAnswers, GateCases;
  }

  lemma LastGateDefers(r: Risk, m: RiskMarket, stopPoints: real, cfg: RiskConfig)
    requires GateAnswers(r, m, stopPoints, cfg)
    ensures r.NotSized? && r.status == Deferred <==>
            && (forall k | 0 <= k < 9 :: !GateCases(m, stopPoints, cfg)[k].0)
            && m.openRiskPercent.Some? && cfg.maxTotalRiskPercent <= m.openRiskPercent.value + 0.000000005
  {
    var cases := GateCases(m, stopPoints, cfg);
    hide FigureMissing, FigureUnsound, Times, BelowZero;
    if exists k :: 0 <= k < 10 && cases[k].0 {
      var k :| 0 <= k < 10 && cases[k] == (true, (r.status, r.reason)) && forall j | 0 <= j < k :: !cases[j].0;
      assert cases[9].1.0 == Deferred;
      assert k != 9 ==> cases[k].1.0 == Rejected;
    } else {
      assert !cases[9].0;
    }
  }
}
