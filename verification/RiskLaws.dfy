/** The sized volume is safe, maximal and monotone. */
module RiskLaws {
  import opened Wrappers
  import opened RealMath
  import opened Detector
  import opened EntryTiming
  import opened RiskSizing

  // ----- Rounding -----

  lemma Round8Near(x: real)
    ensures -0.000000005 <= Round8(x) - x <= 0.000000005
  {
  }

  lemma Round8Monotone(x: real, y: real)
    requires x <= y
    ensures Round8(x) <= Round8(y)
  {
    assert Nearest(Scaled(x)) <= Nearest(Scaled(y));
  }

  // ----- The volume -----

  /** The step is a whole number of hundred-millionths. */
  ghost predicate Granular(step: real, units: int) {
    0.0 < step && step == units as real / SCALE
  }

  /** A whole number of such steps is not changed by rounding to 8 digits. */
  lemma LotsExact(k: int, step: real, units: int)
    requires Granular(step, units)
    ensures Round8(Lots(k, step)) == Lots(k, step)
  {
    assert Scaled(Lots(k, step)) == (k * units) as real by {
      assert Scaled(step) == units as real;
      assert k as real * step * SCALE == k as real * (step * SCALE);
      assert (k * units) as real == k as real * units as real;
    }
  }

  const SLACK := 0.000000000001

  lemma StepsBracket(capped: real, step: real)
    requires 0.0 < step
    ensures Lots(Steps(capped, step), step) <= capped + SLACK < Lots(Steps(capped, step), step) + step
  {
    FloorBracket(capped + SLACK, step, Steps(capped, step));
  }

  lemma FloorBracket(x: real, step: real, k: int)
    requires 0.0 < step && k == (x / step).Floor
    ensures Lots(k, step) <= x < Lots(k, step) + step
  {
    var q := x / step;
    ScaledFloor(x, step, q, k as real);
    ScaledNext(x, step, q, k as real);
  }

  lemma ScaledFloor(x: real, step: real, q: real, n: real)
    requires 0.0 < step && q * step == x && n <= q
    ensures n * step <= x
  {
  }

  lemma ScaledNext(x: real, step: real, q: real, n: real)
    requires 0.0 < step && q * step == x && q < n + 1.0
    ensures x < n * step + step
  {
    var short := n + 1.0 - q;
    assert 0.0 < short * step;
    assert short * step == n * step + step - q * step;
  }

  lemma VolumeBracket(budget: real, perLot: real, step: real, maxVolume: real, units: int)
    requires 0.0 < perLot && Granular(step, units)
    ensures var capped := Capped(budget, perLot, maxVolume);
            && Volume(budget, perLot, step, maxVolume) == Lots(Steps(capped, step), step)
            && Volume(budget, perLot, step, maxVolume) <= capped + SLACK < Volume(budget, perLot, step, maxVolume) + step
  {
    var capped := Capped(budget, perLot, maxVolume);
    LotsExact(Steps(capped, step), step, units);
    StepsBracket(capped, step);
    hide Steps, Round8, Lots, Capped;
  }

  /** A sized trade: the volume is a whole number of steps within the broker's limits, its risk is
      within the budget, and one more step would exceed the budget or the broker's maximum. */
  lemma SizingSafeAndMaximal(i: Inputs, cfg: RiskConfig, stopPrice: Option<real>, units: int)
    requires i.Valid() && 0.0 < i.RiskPerLot() && Granular(i.step, units)
    requires SizeFor(i, cfg, stopPrice).Sized?
    ensures var r := SizeFor(i, cfg, stopPrice);
            && (exists k :: r.volume == Lots(k, i.step))
            && i.minVolume <= r.volume <= i.maxVolume + SLACK
            && r.estimated == r.volume * i.RiskPerLot() <= r.budget + 0.000000001
            && (r.volume + i.step > i.maxVolume || (r.volume + i.step) * i.RiskPerLot() > r.budget)
  {
    SizedParts(i, cfg, stopPrice);
    hide SizeFor, Inputs.RiskPerLot;
    var r := SizeFor(i, cfg, stopPrice);
    VolumeBracket(r.budget, i.RiskPerLot(), i.step, i.maxVolume, units);
    hide Volume;
    CappedByMaximum(r.budget, i.RiskPerLot(), i.maxVolume);
    assert r.volume == Lots(Steps(Capped(r.budget, i.RiskPerLot(), i.maxVolume), i.step), i.step);
    hide Steps, Lots, Capped;
    if r.volume + i.step <= i.maxVolume {
      OneMoreStep(r.budget, i.RiskPerLot(), i.maxVolume, r.volume + i.step);
    }
  }

  lemma CappedByMaximum(budget: real, perLot: real, maxVolume: real)
    requires 0.0 < perLot
    ensures Capped(budget, perLot, maxVolume) <= maxVolume
  {
  }

  lemma SizedParts(i: Inputs, cfg: RiskConfig, stopPrice: Option<real>)
    requires i.Valid() && 0.0 < i.RiskPerLot() && SizeFor(i, cfg, stopPrice).Sized?
    ensures var r := SizeFor(i, cfg, stopPrice);
            && r.volume == Volume(r.budget, i.RiskPerLot(), i.step, i.maxVolume) && i.minVolume <= r.volume
            && r.estimated == r.volume * i.RiskPerLot() <= r.budget + 0.000000001
  {
  }

  /** More than the budget buys costs more than the budget. */
  lemma OneMoreStep(budget: real, perLot: real, maxVolume: real, more: real)
    requires 0.0 < perLot && Capped(budget, perLot, maxVolume) + SLACK < more <= maxVolume
    ensures more * perLot > budget
  {
  }

  /** A trade refused for its budget could not have been sized: no whole number of steps within the
      broker's limits fits the budget. */
  lemma RefusedMeansNoVolumeFits(i: Inputs, cfg: RiskConfig, stopPrice: Option<real>, units: int, k: int)
    requires i.Valid() && 0.0 < i.RiskPerLot() && Granular(i.step, units)
    requires SizeFor(i, cfg, stopPrice) == NotSized(Rejected, RiskBudgetBelowMinimumVolume)
    requires i.minVolume <= Lots(k, i.step) <= i.maxVolume
    ensures Lots(k, i.step) * i.RiskPerLot() > Budget(i.balance, Percent(i, cfg))
  {
    var budget := Budget(i.balance, Percent(i, cfg));
    hide Inputs.RiskPerLot, Headroom, Budget, Percent;
    VolumeBracket(budget, i.RiskPerLot(), i.step, i.maxVolume, units);
    assert Volume(budget, i.RiskPerLot(), i.step, i.maxVolume) < i.minVolume;
    hide SizeFor, Volume;
    var n := Steps(Capped(budget, i.RiskPerLot(), i.maxVolume), i.step);
    FewerSteps(n, k, i.step);
    OverBudget(budget, i.RiskPerLot(), i.maxVolume, i.step, n, k);
  }

  lemma FewerSteps(n: int, k: int, step: real)
    requires 0.0 < step && Lots(n, step) < Lots(k, step)
    ensures Lots(n, step) + step <= Lots(k, step)
  {
    LotsGap(k, n, step, 0);
    LotsGap(n, k, step, 1);
    hide Lots;
  }

  lemma LotsGap(a: int, b: int, step: real, gap: nat)
    requires 0.0 < step
    ensures a + gap <= b ==> Lots(a, step) + gap as real * step <= Lots(b, step)
  {
    var d := b as real - a as real - gap as real;
    assert a + gap <= b ==> 0.0 <= d * step;
    assert d * step == b as real * step - a as real * step - gap as real * step;
  }

  lemma OverBudget(budget: real, perLot: real, maxVolume: real, step: real, n: int, k: int)
    requires 0.0 < perLot && 0.0 < step && n == Steps(Capped(budget, perLot, maxVolume), step)
    requires Lots(n, step) + step <= Lots(k, step) <= maxVolume
    ensures Lots(k, step) * perLot > budget
  {
    StepsBracket(Capped(budget, perLot, maxVolume), step);
    hide Steps, Lots;
    OneMoreStep(budget, perLot, maxVolume, Lots(k, step));
  }

  /** Rounding down cannot exceed the budget unless one lot risks more than 1000 account units. */
  lemma BudgetNeverExceeded(i: Inputs, cfg: RiskConfig, stopPrice: Option<real>, units: int)
    requires i.Valid() && 0.0 < i.RiskPerLot() <= 1000.0 && Granular(i.step, units)
    ensures SizeFor(i, cfg, stopPrice) != NotSized(Rejected, RiskBudgetExceeded)
  {
    var budget := Budget(i.balance, Percent(i, cfg));
    VolumeBracket(budget, i.RiskPerLot(), i.step, i.maxVolume, units);
    WithinBudget(budget, i.RiskPerLot(), Volume(budget, i.RiskPerLot(), i.step, i.maxVolume), i.maxVolume);
    hide Volume, Percent, Headroom, Budget, Capped;
  }

  lemma WithinBudget(budget: real, perLot: real, volume: real, maxVolume: real)
    requires 0.0 < perLot <= 1000.0 && volume <= Capped(budget, perLot, maxVolume) + SLACK
    ensures volume * perLot <= budget + 0.000000001
  {
    DivideMul(budget, perLot);
    ScaleWithin(volume, budget / perLot, SLACK, perLot, 1000.0);
  }

  lemma ScaleWithin(x: real, y: real, slack: real, n: real, top: real)
    requires 0.0 < n <= top && 0.0 <= slack && x <= y + slack
    ensures x * n <= y * n + slack * top
  {
    MulNonNegative(y + slack - x, n);
    MulNonNegative(slack, top - n);
    MulSub(y + slack, x, n);
    MulAdd(y, slack, n);
    MulSub(top, n, slack);
  }

  // ----- Monotonicity -----

  lemma StepsMonotone(x: real, y: real, step: real)
    requires x <= y && 0.0 < step
    ensures Lots(Steps(x, step), step) <= Lots(Steps(y, step), step)
  {
    DivideMonotone(x + SLACK, y + SLACK, step);
    MulMonotone(Steps(x, step) as real, Steps(y, step) as real, step);
  }

  lemma DivideAntitone(budget: real, smaller: real, x: real, y: real)
    requires 0.0 <= smaller <= budget && 0.0 < x <= y
    ensures smaller / y <= budget / x
  {
  }

  lemma VolumeMonotone(budget: real, smaller: real, perLot: real, wider: real, step: real, maxVolume: real)
    requires 0.0 <= smaller <= budget && 0.0 < perLot <= wider && 0.0 < step
    ensures Volume(smaller, wider, step, maxVolume) <= Volume(budget, perLot, step, maxVolume)
  {
    DivideAntitone(budget, smaller, perLot, wider);
    var x, y := Capped(smaller, wider, maxVolume), Capped(budget, perLot, maxVolume);
    assert x <= y;
    hide Steps, Lots, Capped, Round8;
    StepsMonotone(x, y, step);
    Round8Monotone(Lots(Steps(x, step), step), Lots(Steps(y, step), step));
  }

  lemma PercentAntitone(i: Inputs, j: Inputs, cfg: RiskConfig)
    requires j == i.(stopPoints := j.stopPoints, openRisk := j.openRisk)
    requires i.openRisk.Some? ==> j.openRisk.Some? && i.openRisk.value <= j.openRisk.value
    ensures Percent(j, cfg) <= Percent(i, cfg)
  {
    if i.openRisk.Some? {
      Round8Monotone(cfg.maxTotalRiskPercent - j.openRisk.value, cfg.maxTotalRiskPercent - i.openRisk.value);
    }
  }

  lemma PercentPositive(i: Inputs, cfg: RiskConfig)
    requires i.Valid() && cfg.Valid() && (i.openRisk.Some? ==> 0.0 < Headroom(i.openRisk.value, cfg))
    ensures 0.0 < Percent(i, cfg)
  {
  }

  /** Between two sized trades that differ in stop distance and open risk only, a wider stop and
      more open risk never buy a larger volume. */
  lemma SizingMonotone(i: Inputs, j: Inputs, cfg: RiskConfig, p: Option<real>, q: Option<real>)
    requires cfg.Valid() && i.Valid() && j.Valid() && 0.0 < i.RiskPerLot() && 0.0 < j.RiskPerLot()
    requires j == i.(stopPoints := j.stopPoints, openRisk := j.openRisk) && i.stopPoints <= j.stopPoints
    requires i.openRisk.Some? ==> j.openRisk.Some? && i.openRisk.value <= j.openRisk.value
    ensures SizeFor(i, cfg, p).Sized? && SizeFor(j, cfg, q).Sized? ==>
              SizeFor(j, cfg, q).volume <= SizeFor(i, cfg, p).volume
  {
    if SizeFor(i, cfg, p).Sized? && SizeFor(j, cfg, q).Sized? {
      PercentAntitone(i, j, cfg);
      PercentPositive(j, cfg);
      BudgetMonotone(i.balance, Percent(j, cfg), Percent(i, cfg));
      PerLotMonotone(i, j);
      hide Volume, Percent, Headroom, Budget, Inputs.RiskPerLot;
      VolumeMonotone(Budget(i.balance, Percent(i, cfg)), Budget(j.balance, Percent(j, cfg)),
                     i.RiskPerLot(), j.RiskPerLot(), i.step, i.maxVolume);
    }
  }

  lemma PerLotMonotone(i: Inputs, j: Inputs)
    requires i.pointValue == j.pointValue && 0.0 < i.pointValue && i.stopPoints <= j.stopPoints
    ensures i.RiskPerLot() <= j.RiskPerLot()
  {
  }

  lemma BudgetMonotone(balance: real, p: real, q: real)
    requires 0.0 < balance && 0.0 < p <= q
    ensures 0.0 <= Budget(balance, p) <= Budget(balance, q)
  {
  }

  // ----- What the earlier stages rule out -----

  /** The markets two stages read in one evaluation agree on the quote. */
  ghost predicate SameQuote(t: TimingMarket, m: RiskMarket) {
    t.bid == m.bid && t.ask == m.ask && t.point == m.point
  }

  lemma StopDistance(s: Setup, entry: real, adjustment: real, cfg: RiskConfig)
    ensures Ahead(s.side, entry, StopPrice(s, adjustment, cfg))
            == Ahead(s.side, entry, s.invalidation) + cfg.stopBufferAtr * s.atr - Sign(s.side) * adjustment
  {
  }

  /** The stop stands exactly when its distance lies within the configured multiples of the range, and
      its points are that distance. */
  lemma StopExactly(s: Setup, quoted: Option<real>, m: RiskMarket, cfg: RiskConfig, adjustment: real)
    requires cfg.Valid() && SetupOk(s) && m.point.Some? && 0.0 < m.point.value
    requires SpreadAdjustment(s, m, cfg) == Some(adjustment)
    ensures var stop := StructuralStop(s, quoted, m, cfg);
            var distance := Ahead(s.side, EntryPrice(s, quoted, m), StopPrice(s, adjustment, cfg));
            && (stop.Success? <==> cfg.minStopAtr * s.atr <= distance <= cfg.maxStopAtr * s.atr)
            && (stop.Success? ==> stop.value.points * m.point.value == distance)
  {
    var distance := Ahead(s.side, EntryPrice(s, quoted, m), StopPrice(s, adjustment, cfg));
    hide Ahead, EntryPrice, StopPrice, SpreadAdjustment;
    assert distance / s.atr < cfg.minStopAtr <==> distance < cfg.minStopAtr * s.atr by { RatioAgainst(distance, s.atr, cfg.minStopAtr); }
    assert distance / s.atr > cfg.maxStopAtr <==> distance > cfg.maxStopAtr * s.atr by { RatioAgainst(distance, s.atr, cfg.maxStopAtr); }
    assert distance / m.point.value * m.point.value == distance;
    assert 0.0 < cfg.minStopAtr * s.atr;
  }

  /** After the timing stage approved on a live quote, the structural stop is placed from that same
      quote: the setup is not invalid, the entry is not beyond the stop, and the stop is not too tight
      when the room required at entry plus the buffer reaches the minimum stop distance. */
  lemma TimingRulesOutStopFailures(s: Setup, signalTime: Option<real>, t: TimingMarket, timing: TimingConfig,
                                   m: RiskMarket, cfg: RiskConfig)
    requires timing.Valid() && timing.requireQuote && cfg.Valid() && SameQuote(t, m)
    requires EntryTiming.Evaluate(s, signalTime, t, timing).status == Accepted
    ensures var stop := StructuralStop(s, EntryTiming.Evaluate(s, signalTime, t, timing).quotePrice, m, cfg);
            stop.Failure? ==>
              || stop.error == StopTooWide
              || (stop.error == StopTooTight && timing.minRiskRoomAtr + cfg.stopBufferAtr < cfg.minStopAtr)
  {
    hide EntryTiming.Evaluate, StructuralStop, Quote.Exit;
    ApprovalLeavesRoom(s, signalTime, t, timing);
    var quoted := EntryTiming.Evaluate(s, signalTime, t, timing).quotePrice;
    var entry := Quote(m.bid.value, m.ask.value, m.point.value).Entry(s.side);
    assert EntryPrice(s, quoted, m) == entry;
    var adjustment := SpreadAdjustment(s, m, cfg).value;
    StopDistance(s, entry, adjustment, cfg);
    assert 0.0 <= -Sign(s.side) * adjustment;
    var distance := Ahead(s.side, entry, StopPrice(s, adjustment, cfg));
    RoomInAtr(timing.minRiskRoomAtr, cfg.stopBufferAtr, Ahead(s.side, entry, s.invalidation), distance, s.atr);
    hide Ahead, StopPrice, EntryPrice, SpreadAdjustment;
    StopFromRoom(s, quoted, m, cfg, timing.minRiskRoomAtr + cfg.stopBufferAtr);
  }

  /** Room to the invalidation plus the buffer, in multiples of the average true range. */
  lemma RoomInAtr(room: real, buffer: real, ahead: real, distance: real, atr: real)
    requires 0.0 < atr && 0.0 < room && 0.0 <= buffer && room * atr <= ahead && ahead + buffer * atr <= distance
    ensures 0.0 < distance && room + buffer <= distance / atr
  {
  }

  lemma StopFromRoom(s: Setup, quoted: Option<real>, m: RiskMarket, cfg: RiskConfig, room: real)
    requires m.point.Some? && 0.0 < m.point.value && SetupOk(s) && SpreadAdjustment(s, m, cfg).Some?
    requires var distance := Ahead(s.side, EntryPrice(s, quoted, m), StopPrice(s, SpreadAdjustment(s, m, cfg).value, cfg));
             0.0 < distance && 0.0 < s.atr && room <= distance / s.atr
    ensures var stop := StructuralStop(s, quoted, m, cfg);
            stop.Failure? ==> stop.error == StopTooWide || (stop.error == StopTooTight && room < cfg.minStopAtr)
  {
  }

  /** The setup, quote and clock that put a trade exactly at the edge of the required room. */
  function EdgeSetup(room: real): Setup {
    Setup(TrendPullback, Buy, 0.0, 100.0 + room, 100.0, 1.0, 50.0, 1.0)
  }

  function EdgeTiming(room: real): TimingMarket {
    TimingMarket(Some(100.0 + room), Some(100.0 + room), Some(0.01), None, None, Some(0.0), Some(900.0))
  }

  function EdgeMarket(room: real): RiskMarket {
    RiskMarket(Some(100.0 + room), Some(100.0 + room), Some(0.01), None, None, None, None, None, None, None, None, None, None, None)
  }

  /** The condition is exact: with less room plus buffer than the minimum stop, a trade that the
      timing stage approves is refused as too tight. */
  lemma TooTightReachable(timing: TimingConfig, cfg: RiskConfig)
    requires timing.Valid() && cfg.Valid() && timing.minRiskRoomAtr + cfg.stopBufferAtr < cfg.minStopAtr
    ensures var s, t, m := EdgeSetup(timing.minRiskRoomAtr), EdgeTiming(timing.minRiskRoomAtr), EdgeMarket(timing.minRiskRoomAtr);
            && SameQuote(t, m)
            && EntryTiming.Evaluate(s, Some(0.0), t, timing).status == Accepted
            && StructuralStop(s, EntryTiming.Evaluate(s, Some(0.0), t, timing).quotePrice, m, cfg) == Failure(StopTooTight)
  {
  }
}
