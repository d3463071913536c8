/** Exactly when an approval can break the portfolio limit: the check on the committed risk is not only
    enough, no weaker check would do. */
module LedgerLimits {
  import opened Wrappers
  import opened RealMath
  import opened Detector
  import opened EntryTiming
  import opened RiskSizing
  import opened RiskLaws
  import opened Ledger

  const LOT := 0.00000001    // the smallest volume that 8 digits show
  const SLOP := 0.000000001  // what the sizer lets a trade exceed its budget by

  /** A trade of the smallest volume that risks its budget and all of the sizer's tolerance: the stop
      at 1, the entry the minimum stop distance above it. */
  function Witness(budget: real, requested: real, cfg: RiskConfig): Proposal {
    var invalidation := cfg.stopBufferAtr + 1.0;
    Proposal(
      Setup(TrendPullback, Buy, 0.0, invalidation + 1.0, invalidation, 1.0, 50.0, 1.0), 1.0 + cfg.minStopAtr,
      RiskMarket(Some(1.0), Some(1.0), None, None, None, Some(requested), None, Some(LOT), Some(LOT), Some(1.0),
                 None, None, None, None),
      cfg.minStopAtr, cfg.minStopAtr, (budget + SLOP) / LOT)
  }

  lemma WitnessStop(budget: real, requested: real, cfg: RiskConfig, m: RiskMarket)
    requires cfg.Valid() && m.point == Some(cfg.minStopAtr)
    ensures var p := Witness(budget, requested, cfg);
            StructuralStop(p.setup, Some(p.quoted), m, cfg) == Success(Stop(1.0, 1.0))
  {
    var p := Witness(budget, requested, cfg);
    assert StopPrice(p.setup, 0.0, cfg) == 1.0;
    assert Ahead(Buy, p.quoted, 1.0) == cfg.minStopAtr;
    assert cfg.minStopAtr / cfg.minStopAtr == 1.0;
  }

  /** The sizer's tolerance rounds the affordable volume up to one step. */
  lemma WitnessVolume(budget: real, perLot: real)
    requires 0.00001 <= budget && perLot == (budget + SLOP) / LOT
    ensures 0.0 < perLot && Volume(budget, perLot, LOT, 1.0) == LOT && LOT * perLot == budget + SLOP
  {
    var raw := budget / perLot;
    assert perLot * LOT == budget + SLOP;
    assert raw * perLot == budget;
    assert LOT - SLACK <= raw < LOT by {
      assert (LOT - raw) * perLot == SLOP;
      ShortfallBounds(LOT - raw, perLot);
    }
    assert Capped(budget, perLot, 1.0) == raw;
    assert (raw + SLACK) / LOT == (raw + SLACK) * SCALE;
    assert Steps(raw, LOT) == 1;
    assert Lots(1, LOT) == LOT;
    assert Scaled(LOT) == 1.0;
    assert Nearest(1.0) == 1;
  }

  lemma ShortfallBounds(x: real, perLot: real)
    requires x * perLot == SLOP && 1000.0 <= perLot
    ensures 0.0 < x <= SLACK
  {
    assert (SLACK - x) * perLot == SLACK * perLot - SLOP;
    assert SLACK * 1000.0 == SLOP;
  }

  lemma WitnessMarket(budget: real, requested: real, cfg: RiskConfig, openRisk: real, balance: real)
    requires cfg.Valid() && 0.00001 <= budget
    ensures var p := Witness(budget, requested, cfg);
            && p.Valid()
            && var m, perLot := Derived(p, openRisk, balance), (budget + SLOP) / LOT;
               && m.point == Some(cfg.minStopAtr) && m.openRiskPercent == Some(openRisk)
               && Gather(m, 1.0) == Some(Inputs(balance, requested, 1.0, perLot, LOT, LOT, 1.0, Some(openRisk)))
               && DistanceGate(m, 1.0, cfg) == None
  {
    var p, perLot := Witness(budget, requested, cfg), (budget + SLOP) / LOT;
    PointCancels(perLot, cfg.minStopAtr);
    hide PointValue;
  }

  lemma PointCancels(value: real, point: real)
    requires 0.0 < point
    ensures PointValue(point, value, point) == value
  {
  }

  /** The witness is sized, and estimated at its budget plus the tolerance. */
  lemma WitnessSized(requested: real, cfg: RiskConfig, openRisk: real, balance: real)
    requires cfg.Valid() && 0.0 < balance && 0.0 < requested && 0.0 <= openRisk && 0.0 < Headroom(openRisk, cfg)
    requires 0.00001 <= Budget(balance, Min(Min(requested, cfg.maximumRiskPercent), Headroom(openRisk, cfg)))
    ensures var percent := Min(Min(requested, cfg.maximumRiskPercent), Headroom(openRisk, cfg));
            var p := Witness(Budget(balance, percent), requested, cfg);
            && p.Valid()
            && Ledger.Verdict(p, openRisk, balance, cfg)
               == Sized(LOT, Budget(balance, percent), Budget(balance, percent) + SLOP, percent, 1.0, Some(1.0))
  {
    var percent := Min(Min(requested, cfg.maximumRiskPercent), Headroom(openRisk, cfg));
    var budget := Budget(balance, percent);
    var perLot := (budget + SLOP) / LOT;
    var p := Witness(budget, requested, cfg);
    WitnessMarket(budget, requested, cfg, openRisk, balance);
    var m := Derived(p, openRisk, balance);
    WitnessStop(budget, requested, cfg, m);
    WitnessVolume(budget, perLot);
    var i := Inputs(balance, requested, 1.0, perLot, LOT, LOT, 1.0, Some(openRisk));
    assert i.Valid() && i.RiskPerLot() == perLot && Percent(i, cfg) == percent;
    hide Witness, Derived, StructuralStop, Gather, DistanceGate, SizeFor, RiskSizing.Evaluate, Volume, Headroom, Percent, Budget,
         Inputs.RiskPerLot, Inputs.Valid;
    EvaluatedFrom(p.setup, p.quoted, m, cfg, Stop(1.0, 1.0), i);
    SizedFrom(i, cfg, Some(1.0), percent, budget, LOT, perLot);
  }

  lemma OpenRiskNonNegative(book: seq<Position>, balance: real)
    requires 0.0 < balance
    ensures 0.0 <= OpenRiskPercent(book, balance)
  {
    if AllAccountable(book) {
      TotalNonNegative(book);
      ShareZero(balance);
      ShareMonotone(0.0, Total(book), balance);
    }
    hide Share, AllAccountable;
  }

  lemma {:induction false} TotalNonNegative(book: seq<Position>)
    requires AllAccountable(book)
    ensures 0.0 <= Total(book)
  {
    hide Position.Charge, Position.Accountable;
    if book != [] {
      TotalNonNegative(book[..|book| - 1]);
      ChargeNonNegative(book[|book| - 1]);
    }
  }

  /** Without room the witness breaks the limit. */
  lemma NoRoomBreaks(st: State, requested: Option<real>, balance: real, cfg: RiskConfig)
    requires 0.0 < balance && cfg.Valid() && WithinLimit(st, balance, cfg) && !RoomFor(st, requested, balance, cfg)
    requires 0.00001 <= Budget(balance, Allowed(st, requested.value, balance, cfg))
    ensures var p := Witness(Budget(balance, Allowed(st, requested.value, balance, cfg)), requested.value, cfg);
            && p.Valid() && p.market.riskPercent == requested
            && !WithinLimit(Step(st, Approve(p), balance, cfg), balance, cfg)
  {
    var openRisk, percent := OpenRiskPercent(st.open, balance), Allowed(st, requested.value, balance, cfg);
    var budget := Budget(balance, percent);
    var p := Witness(budget, requested.value, cfg);
    OpenRiskNonNegative(st.open, balance);
    WitnessSized(requested.value, cfg, openRisk, balance);
    var r := Ledger.Verdict(p, openRisk, balance, cfg);
    ChargeIsEstimate(p, openRisk, balance, cfg);
    TotalSnoc(st.pending, Filled(p, r));
    ShareAdds(Total(st.open) + Total(st.pending), r.estimated, balance);
    ShareAdds(budget, SLOP, balance);
    assert Share(budget, balance) == percent by { BudgetShare(balance, percent); }
    hide Share, Ledger.Verdict, Position.Charge, Position.Accountable, Filled, Budget, Allowed, OpenRiskPercent, Witness;
  }

  lemma BudgetShare(balance: real, percent: real)
    requires 0.0 < balance
    ensures Share(Budget(balance, percent), balance) == percent
  {
    assert balance * percent / 100.0 / balance == percent / 100.0;
  }

  /** From a state within the limit, every trade that requests this percentage can be approved without
      breaking the limit exactly when there is room for it. A budget below a hundred-thousandth of the
      account's unit is left aside: there the 8 digits of the volume are coarser than the tolerances. */
  lemma ApprovalSafeExactly(st: State, requested: Option<real>, balance: real, cfg: RiskConfig)
    requires 0.0 < balance && cfg.Valid() && WithinLimit(st, balance, cfg)
    requires requested.Some? && 0.0 < Allowed(st, requested.value, balance, cfg) ==>
               0.00001 <= Budget(balance, Allowed(st, requested.value, balance, cfg))
    ensures RoomFor(st, requested, balance, cfg) <==>
            forall p: Proposal | p.Valid() && p.market.riskPercent == requested ::
              WithinLimit(Step(st, Approve(p), balance, cfg), balance, cfg)
  {
    hide WithinLimit, Step, Allowed, Budget;
    if RoomFor(st, requested, balance, cfg) {
      forall p: Proposal | p.Valid() && p.market.riskPercent == requested
        ensures WithinLimit(Step(st, Approve(p), balance, cfg), balance, cfg)
      {
        ApproveWithinLimit(st, p, balance, cfg);
      }
    } else {
      NoRoomBreaks(st, requested, balance, cfg);
    }
  }
}
