/** Stage 3: the protective stop and the volume. The volume is rounded down to the broker's step,
    never up to its minimum. */
module RiskSizing {
  import opened Wrappers
  import opened RealMath
  import opened Detector
  import opened EntryTiming

  datatype RiskConfig = RiskConfig(
    stopBufferAtr: real, minStopAtr: real, maxStopAtr: real, minRewardRisk: real, targetRewardRisk: real,
    maxTotalRiskPercent: real, strictStructural: bool, shortStopSpreadAdjust: bool, maximumRiskPercent: real)
  {
    /** The checks of the configuration's and the manager's constructors. */
    predicate Valid() {
      && 0.0 <= stopBufferAtr && 0.0 < minStopAtr < maxStopAtr
      && 0.0 < minRewardRisk <= targetRewardRisk && 0.0 < maxTotalRiskPercent
      && 0.0 < maximumRiskPercent <= 100.0
    }
  }

  /** Account and symbol facts; None is a value not supplied or not numeric. */
  datatype RiskMarket = RiskMarket(
    bid: Option<real>, ask: Option<real>, point: Option<real>, stopLossPoints: Option<real>,
    accountBalance: Option<real>, riskPercent: Option<real>, pointValuePerLot: Option<real>,
    volumeStep: Option<real>, minVolume: Option<real>, maxVolume: Option<real>,
    stopLevelPoints: Option<real>, takeProfitPoints: Option<real>, targetRewardRisk: Option<real>, openRiskPercent: Option<real>)

  datatype RiskReason =
    | UpstreamStageRejected | MissingOrInvalidRiskInput | NonPositiveOrInconsistentRiskInput
    | InvalidOpportunitySetup | EntryBeyondStop | StopTooTight | StopTooWide | StopBelowBrokerMinimum
    | RewardRiskTooLow | PortfolioRiskLimitReached | RiskBudgetBelowMinimumVolume | RiskBudgetExceeded

  datatype Stop = Stop(price: real, points: real)

  datatype Risk =
    | Sized(volume: real, budget: real, estimated: real, percent: real, stopPoints: real, stopPrice: Option<real>)
    | NotSized(status: Status, reason: RiskReason)

  // ----- The structural stop -----

  /** The timing quote, else the live quote on the entry side, else the signal's close. */
  function EntryPrice(s: Setup, quoted: Option<real>, m: RiskMarket): real {
    var live := if s.side == Buy then m.ask else m.bid;
    if quoted.Some? && 0.0 < quoted.value then quoted.value
    else if live.Some? && 0.0 < live.value then live.value
    else s.reference
  }

  function SpreadAdjustment(s: Setup, m: RiskMarket, cfg: RiskConfig): Option<real> {
    if !cfg.shortStopSpreadAdjust || s.side == Buy then Some(0.0)
    else
      match (m.bid, m.ask)
      case (Some(bid), Some(ask)) => if 0.0 < bid <= ask then Some(ask - bid) else None
      case _ => None
  }

  function StopPrice(s: Setup, adjustment: real, cfg: RiskConfig): real {
    s.invalidation - Sign(s.side) * cfg.stopBufferAtr * s.atr + adjustment
  }

  function StructuralStop(s: Setup, quoted: Option<real>, m: RiskMarket, cfg: RiskConfig): Result<Stop, RiskReason> {
    if m.point.None? then Failure(MissingOrInvalidRiskInput)
    else if !SetupOk(s) || m.point.value <= 0.0 then Failure(InvalidOpportunitySetup)
    else
      match SpreadAdjustment(s, m, cfg)
      case None => Failure(MissingOrInvalidRiskInput)
      case Some(adjustment) =>
        var price := StopPrice(s, adjustment, cfg);
        var distance := Ahead(s.side, EntryPrice(s, quoted, m), price);
        if distance <= 0.0 then Failure(EntryBeyondStop)
        else if distance / s.atr < cfg.minStopAtr then Failure(StopTooTight)
        else if distance / s.atr > cfg.maxStopAtr then Failure(StopTooWide)
        else Success(Stop(price, distance / m.point.value))
  }

  // ----- Sizing -----

  const SCALE := 100000000.0  // 8 decimal digits

  /** Nearest whole number, ties to even. */
  function Nearest(z: real): int {
    var n := z.Floor;
    if z - n as real < 0.5 || (z - n as real == 0.5 && n % 2 == 0) then n else n + 1
  }

  function Scaled(x: real): real {
    x * SCALE
  }

  /** Round to 8 decimal digits. */
  function Round8(x: real): real {
    Nearest(Scaled(x)) as real / SCALE
  }

  /** Round to 5 decimal digits. */
  function Round5(x: real): real {
    Nearest(x * 100000.0) as real / 100000.0
  }

  /** The volume of k steps. */
  function Lots(k: int, step: real): real {
    k as real * step
  }

  function Steps(capped: real, step: real): int
    requires 0.0 < step
  {
    ((capped + 0.000000000001) / step).Floor
  }

  /** The most the budget and the broker allow. */
  function Capped(budget: real, riskPerLot: real, maxVolume: real): real
    requires 0.0 < riskPerLot
  {
    Min(budget / riskPerLot, maxVolume)
  }

  /** The volume for a budget: capped, rounded down to the step, shown with 8 digits. */
  function Volume(budget: real, riskPerLot: real, step: real, maxVolume: real): real
    requires 0.0 < riskPerLot && 0.0 < step
  {
    Round8(Lots(Steps(Capped(budget, riskPerLot, maxVolume), step), step))
  }

  /** The numbers a sizing starts from once every input is present. */
  datatype Inputs = Inputs(balance: real, requested: real, stopPoints: real, pointValue: real,
                           step: real, minVolume: real, maxVolume: real, openRisk: Option<real>)
  {
    predicate Valid() {
      && 0.0 < balance && 0.0 < requested && 0.0 < stopPoints && 0.0 < pointValue
      && 0.0 < step && 0.0 < minVolume <= maxVolume
    }

    function RiskPerLot(): real {
      stopPoints * pointValue
    }
  }

  function Headroom(openRisk: real, cfg: RiskConfig): real {
    Round8(cfg.maxTotalRiskPercent - openRisk)
  }

  function Percent(i: Inputs, cfg: RiskConfig): real {
    var own := Min(i.requested, cfg.maximumRiskPercent);
    if i.openRisk.None? then own else Min(own, Headroom(i.openRisk.value, cfg))
  }

  function Budget(balance: real, percent: real): real {
    balance * percent / 100.0
  }

  function SizeFor(i: Inputs, cfg: RiskConfig, stopPrice: Option<real>): Risk
    requires i.Valid() && 0.0 < i.RiskPerLot()
  {
    if i.openRisk.Some? && Headroom(i.openRisk.value, cfg) <= 0.0 then NotSized(Deferred, PortfolioRiskLimitReached)
    else
      var percent := Percent(i, cfg);
      var budget := Budget(i.balance, percent);
      var volume := Volume(budget, i.RiskPerLot(), i.step, i.maxVolume);
      if volume < i.minVolume then NotSized(Rejected, RiskBudgetBelowMinimumVolume)
      else
        var estimated := volume * i.RiskPerLot();
        if estimated > budget + 0.000000001 then NotSized(Rejected, RiskBudgetExceeded)
        else Sized(volume, budget, estimated, percent, i.stopPoints, stopPrice)
  }

  function Gather(m: RiskMarket, stopPoints: real): Option<Inputs> {
    var balance :- m.accountBalance;
    var requested :- m.riskPercent;
    var pointValue :- m.pointValuePerLot;
    var step :- m.volumeStep;
    var minVolume :- m.minVolume;
    var maxVolume :- m.maxVolume;
    Some(Inputs(balance, requested, stopPoints, pointValue, step, minVolume, maxVolume, m.openRiskPercent))
  }

  predicate Negative(x: Option<real>) {
    x.Some? && x.value < 0.0
  }

  /** The broker's minimum distance and the planned reward, checked before sizing. */
  function DistanceGate(m: RiskMarket, stopPoints: real, cfg: RiskConfig): Option<RiskReason>
    requires 0.0 < stopPoints
  {
    if Negative(m.stopLevelPoints) then Some(NonPositiveOrInconsistentRiskInput)
    else if m.stopLevelPoints.Some? && stopPoints < m.stopLevelPoints.value then Some(StopBelowBrokerMinimum)
    else if Negative(m.targetRewardRisk) then Some(NonPositiveOrInconsistentRiskInput)
    else if m.targetRewardRisk.Some? then
      (if m.targetRewardRisk.value < cfg.minRewardRisk then Some(RewardRiskTooLow) else None)
    else if Negative(m.takeProfitPoints) then Some(NonPositiveOrInconsistentRiskInput)
    else if m.takeProfitPoints.Some? && m.takeProfitPoints.value / stopPoints < cfg.minRewardRisk then Some(RewardRiskTooLow)
    else None
  }

  lemma RiskPerLotPositive(i: Inputs)
    requires i.Valid()
    ensures 0.0 < i.RiskPerLot()
  {
  }

  function SizeFromStop(m: RiskMarket, stopPoints: real, stopPrice: Option<real>, cfg: RiskConfig): Risk {
    match Gather(m, stopPoints)
    case None => NotSized(Rejected, MissingOrInvalidRiskInput)
    case Some(i) =>
      if !i.Valid() then NotSized(Rejected, NonPositiveOrInconsistentRiskInput)
      else
        match DistanceGate(m, stopPoints, cfg)
        case Some(reason) => NotSized(Rejected, reason)
        case None =>
          if Negative(m.openRiskPercent) then NotSized(Rejected, NonPositiveOrInconsistentRiskInput)
          else
            RiskPerLotPositive(i);
            SizeFor(i, cfg, stopPrice)
  }

  /** The stage's verdict. Without a point value the caller's own stop distance is used, unless
      the configuration insists on the structural stop. */
  function Evaluate(upstreamApproved: bool, setup: Option<Setup>, quoted: Option<real>, m: RiskMarket, cfg: RiskConfig): Risk {
    if !upstreamApproved then NotSized(Rejected, UpstreamStageRejected)
    else if setup.Some? && !(!cfg.strictStructural && m.point.None? && m.stopLossPoints.Some?) then
      match StructuralStop(setup.value, quoted, m, cfg)
      case Failure(reason) => NotSized(Rejected, reason)
      case Success(stop) => SizeFromStop(m, stop.points, Some(stop.price), cfg)
    else
      match m.stopLossPoints
      case None => NotSized(Rejected, MissingOrInvalidRiskInput)
      case Some(points) => SizeFromStop(m, points, None, cfg)
  }
}
