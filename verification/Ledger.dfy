/** The portfolio's risk: what the decision endpoint charges for open positions, and why sizing
    against that charge keeps the total within the limit. */
module Ledger {
  import opened Wrappers
  import opened RealMath
  import opened Detector
  import opened EntryTiming
  import opened RiskSizing
  import opened RiskLaws

  /** One open position as the telemetry reports it; no side: an unsupported type. */
  datatype Position = Position(side: Option<Side>, volume: real, entry: real, stop: real, tickSize: real, tickValue: real) {
    predicate Accountable() {
      && side.Some? && 0.0 < volume && 0.0 < entry && 0.0 < stop && 0.0 < tickSize && 0.0 < tickValue
      && 0.0 <= Adverse()
    }

    function Adverse(): real {
      if side == Some(Buy) then entry - stop else stop - entry
    }

    function Charge(): real {
      if tickSize == 0.0 then 0.0 else Adverse() / tickSize * tickValue * volume
    }
  }

  function Total(book: seq<Position>): real {
    if book == [] then 0.0 else Total(book[..|book| - 1]) + book[|book| - 1].Charge()
  }

  predicate AllAccountable(book: seq<Position>) {
    forall i | 0 <= i < |book| :: book[i].Accountable()
  }

  /** None: some position's risk facts are unavailable. */
  function OpenRisk(book: seq<Position>): Option<real> {
    if AllAccountable(book) then Some(Total(book)) else None
  }

  method OpenRiskMoney(book: seq<Position>) returns (money: Option<real>)
    ensures money == OpenRisk(book)
  {
    var total := 0.0;
    for i := 0 to |book|
      invariant AllAccountable(book[..i])
      invariant total == Total(book[..i])
    {
      if !book[i].Accountable() {
        return None;
      }
      total := total + book[i].Charge();
      assert book[..i + 1][..i] == book[..i];
    }
    assert book[..|book|] == book;
    return Some(total);
  }

  /** Unavailable facts count as a fully used account. */
  function OpenRiskPercent(book: seq<Position>, balance: real): real
    requires 0.0 < balance
  {
    match OpenRisk(book) case None => 100.0 case Some(money) => Share(money, balance)
  }

  function Share(money: real, balance: real): real
    requires 0.0 < balance
  {
    money / balance * 100.0
  }

  function PointValue(tickSize: real, tickValue: real, point: real): real
    requires 0.0 < tickSize
  {
    tickValue * point / tickSize
  }

  // ----- One trade -----

  /** A trade proposal: the accepted setup, the quote it would fill at, and the symbol's facts. */
  datatype Proposal = Proposal(setup: Setup, quoted: real, market: RiskMarket, point: real, tickSize: real, tickValue: real) {
    predicate Valid() {
      0.0 < quoted && 0.0 < point && 0.0 < tickSize && 0.0 < tickValue
    }
  }

  /** The risk inputs the endpoint derives on the server. */
  function Derived(p: Proposal, openRisk: real, balance: real): RiskMarket
    requires p.Valid()
  {
    p.market.(accountBalance := Some(balance), point := Some(p.point), openRiskPercent := Some(openRisk),
              pointValuePerLot := Some(PointValue(p.tickSize, p.tickValue, p.point)))
  }

  function Verdict(p: Proposal, openRisk: real, balance: real, cfg: RiskConfig): Risk
    requires p.Valid()
  {
    RiskSizing.Evaluate(true, Some(p.setup), Some(p.quoted), Derived(p, openRisk, balance), cfg)
  }

  /** The position a fill at the sized entry and stop opens. */
  function Filled(p: Proposal, r: Risk): Position
    requires r.Sized? && r.stopPrice.Some?
  {
    Position(Some(p.setup.side), r.volume, p.quoted, r.stopPrice.value, p.tickSize, p.tickValue)
  }

  lemma SizedInputs(p: Proposal, openRisk: real, balance: real, cfg: RiskConfig)
    requires p.Valid() && cfg.Valid() && Verdict(p, openRisk, balance, cfg).Sized?
    ensures SetupOk(p.setup)
    ensures var m := Derived(p, openRisk, balance);
            var stop := StructuralStop(p.setup, Some(p.quoted), m, cfg);
            && stop.Success? && Gather(m, stop.value.points).Some?
            && var i := Gather(m, stop.value.points).value;
               && i.Valid() && 0.0 < i.RiskPerLot() && i.balance == balance && i.openRisk == Some(openRisk)
               && Some(i.requested) == p.market.riskPercent
               && i.stopPoints == stop.value.points && i.pointValue == PointValue(p.tickSize, p.tickValue, p.point)
               && Verdict(p, openRisk, balance, cfg) == SizeFor(i, cfg, Some(stop.value.price))
  {
  }

  /** The risk the sizer budgeted is exactly the risk the endpoint later charges for the position. */
  lemma ChargeIsEstimate(p: Proposal, openRisk: real, balance: real, cfg: RiskConfig)
    requires p.Valid() && cfg.Valid()
    ensures var r := Verdict(p, openRisk, balance, cfg);
            r.Sized? ==>
              && r.stopPrice.Some?
              && Filled(p, r).Charge() == r.estimated
              && (0.0 < r.stopPrice.value ==> Filled(p, r).Accountable())
  {
    var r := Verdict(p, openRisk, balance, cfg);
    if r.Sized? {
      SizedInputs(p, openRisk, balance, cfg);
      var m := Derived(p, openRisk, balance);
      hide Verdict, StructuralStop, Gather;
      var stop := StructuralStop(p.setup, Some(p.quoted), m, cfg).value;
      var i := Gather(m, stop.points).value;
      StopOfQuote(p, m, cfg);
      hide Derived;
      FillOfSizing(p, i, cfg, stop);
      hide SizeFor, Filled, Position.Charge, Position.Accountable;
    }
  }

  /** The stop's distance in points, for the price the trade fills at. */
  lemma StopOfQuote(p: Proposal, m: RiskMarket, cfg: RiskConfig)
    requires p.Valid() && m.point == Some(p.point) && StructuralStop(p.setup, Some(p.quoted), m, cfg).Success?
    ensures var stop := StructuralStop(p.setup, Some(p.quoted), m, cfg).value;
            stop.points == Ahead(p.setup.side, p.quoted, stop.price) / p.point
            && 0.0 < Ahead(p.setup.side, p.quoted, stop.price)
  {
  }

  lemma FillOfSizing(p: Proposal, i: Inputs, cfg: RiskConfig, stop: Stop)
    requires p.Valid() && i.Valid() && 0.0 < i.RiskPerLot() && i.openRisk.Some? && i.stopPoints == stop.points
    requires i.pointValue == PointValue(p.tickSize, p.tickValue, p.point)
    requires stop.points == Ahead(p.setup.side, p.quoted, stop.price) / p.point
    requires 0.0 < Ahead(p.setup.side, p.quoted, stop.price)
    ensures var r := SizeFor(i, cfg, Some(stop.price));
            r.Sized? ==>
              && r.stopPrice == Some(stop.price) && Filled(p, r).Charge() == r.estimated
              && (0.0 < stop.price ==> Filled(p, r).Accountable())
  {
  }

  lemma SizedFields(i: Inputs, cfg: RiskConfig, stopPrice: Option<real>)
    requires i.Valid() && 0.0 < i.RiskPerLot() && i.openRisk.Some?
    ensures var r := SizeFor(i, cfg, stopPrice);
            r.Sized? ==>
              && r.stopPrice == stopPrice && 0.0 < i.minVolume <= r.volume
              && r.estimated == r.volume * i.RiskPerLot()
              && r.estimated <= Budget(i.balance, r.percent) + 0.000000001
              && 0.0 < Headroom(i.openRisk.value, cfg)
              && r.percent == Percent(i, cfg) <= Headroom(i.openRisk.value, cfg)
  {
  }

  /** What one approval can add to the total. */
  ghost const TOLERANCE: real := 0.000000005

  lemma ApprovalFits(p: Proposal, openRisk: real, balance: real, cfg: RiskConfig)
    requires p.Valid() && cfg.Valid() && 0.0 < balance
    ensures var r := Verdict(p, openRisk, balance, cfg);
            r.Sized? ==> Share(r.estimated, balance) + openRisk
                         <= cfg.maxTotalRiskPercent + TOLERANCE + Share(0.000000001, balance)
  {
    var r := Verdict(p, openRisk, balance, cfg);
    if r.Sized? {
      SizedInputs(p, openRisk, balance, cfg);
      var m := Derived(p, openRisk, balance);
      var stop := StructuralStop(p.setup, Some(p.quoted), m, cfg).value;
      SizedFields(Gather(m, stop.points).value, cfg, Some(stop.price));
      hide StructuralStop, SizeFor, PointValue, Verdict, Budget, Share;
      Round8Near(cfg.maxTotalRiskPercent - openRisk);
      ShareOfBudget(r.estimated, balance, r.percent);
    }
  }

  lemma ShareOfBudget(estimated: real, balance: real, percent: real)
    requires 0.0 < balance && estimated <= Budget(balance, percent) + 0.000000001
    ensures Share(estimated, balance) <= percent + Share(0.000000001, balance)
  {
  }

  /** One position without complete risk facts blocks every new trade, whatever its size: the account
      counts as fully used. The EA reports positions without tick facts, so any open position does. */
  lemma UnaccountedPositionBlocks(book: seq<Position>, k: nat, p: Proposal, balance: real, cfg: RiskConfig)
    requires k < |book| && !book[k].Accountable() && p.Valid() && cfg.Valid() && 0.0 < balance
    requires cfg.maxTotalRiskPercent <= 100.0
    ensures !Verdict(p, OpenRiskPercent(book, balance), balance, cfg).Sized?
  {
    assert OpenRiskPercent(book, balance) == 100.0;
    if Verdict(p, 100.0, balance, cfg).Sized? {
      SizedInputs(p, 100.0, balance, cfg);
      hide Verdict, StructuralStop, Gather, Position.Accountable;
      NoHeadroom(cfg);
    }
  }

  lemma NoHeadroom(cfg: RiskConfig)
    requires cfg.maxTotalRiskPercent <= 100.0
    ensures Headroom(100.0, cfg) <= 0.0
  {
  }

  // ----- Runs -----

  datatype State = State(open: seq<Position>, pending: seq<Position>)

  /** Close, Fill and Drop name a position by its index; an index out of range does nothing. */
  datatype Op = Approve(proposal: Proposal) | Fill(i: nat) | Drop(i: nat) | Close(i: nat)

  function Removed<T>(s: seq<T>, i: nat): seq<T> {
    if i < |s| then s[..i] + s[i + 1..] else s
  }

  function Step(st: State, op: Op, balance: real, cfg: RiskConfig): State
    requires 0.0 < balance
  {
    match op
    case Approve(p) =>
      if !p.Valid() then st
      else
        var r := Verdict(p, OpenRiskPercent(st.open, balance), balance, cfg);
        if r.Sized? && r.stopPrice.Some? && 0.0 < r.stopPrice.value then st.(pending := st.pending + [Filled(p, r)]) else st
    case Fill(i) =>
      if i < |st.pending| then State(st.open + [st.pending[i]], Removed(st.pending, i)) else st
    case Drop(i) => st.(pending := Removed(st.pending, i))
    case Close(i) => st.(open := Removed(st.open, i))
  }

  function Run(ops: seq<Op>, balance: real, cfg: RiskConfig): State
    requires 0.0 < balance
  {
    if ops == [] then State([], [])
    else Step(Run(ops[..|ops| - 1], balance, cfg), ops[|ops| - 1], balance, cfg)
  }

  /** What the sizer would budget for a requested percentage: it sees the open positions, not the pending ones. */
  function Allowed(st: State, requested: real, balance: real, cfg: RiskConfig): real
    requires 0.0 < balance
  {
    Min(Min(requested, cfg.maximumRiskPercent), Headroom(OpenRiskPercent(st.open, balance), cfg))
  }

  function Committed(st: State, balance: real): real
    requires 0.0 < balance
  {
    Share(Total(st.open) + Total(st.pending), balance)
  }

  /** The check an approval needs: nothing can be budgeted, or the open and pending risk together leave
      room for what would be. */
  ghost predicate RoomFor(st: State, requested: Option<real>, balance: real, cfg: RiskConfig)
    requires 0.0 < balance
  {
    || requested.None? || requested.value <= 0.0 || Allowed(st, requested.value, balance, cfg) <= 0.0
    || Committed(st, balance) + Allowed(st, requested.value, balance, cfg) <= cfg.maxTotalRiskPercent + TOLERANCE
  }

  /** Every approval of the run finds room. */
  ghost predicate Guarded(ops: seq<Op>, balance: real, cfg: RiskConfig)
    requires 0.0 < balance
  {
    forall n | 0 <= n < |ops| && ops[n].Approve? :: RoomFor(Run(ops[..n], balance, cfg), ops[n].proposal.market.riskPercent, balance, cfg)
  }

  /** No approval while an approved trade is neither filled nor dropped. */
  ghost predicate OneAtATime(ops: seq<Op>, balance: real, cfg: RiskConfig)
    requires 0.0 < balance
  {
    forall n | 0 <= n < |ops| && ops[n].Approve? :: Run(ops[..n], balance, cfg).pending == []
  }

  ghost predicate WithinLimit(st: State, balance: real, cfg: RiskConfig)
    requires 0.0 < balance
  {
    && AllAccountable(st.open) && AllAccountable(st.pending)
    && Committed(st, balance) <= cfg.maxTotalRiskPercent + TOLERANCE + Share(0.000000001, balance)
  }

  lemma TotalSnoc(book: seq<Position>, p: Position)
    ensures Total(book + [p]) == Total(book) + p.Charge()
  {
  }

  lemma {:induction false} TotalRemoved(book: seq<Position>, i: nat)
    requires i < |book|
    ensures Total(Removed(book, i)) == Total(book) - book[i].Charge()
  {
    var n := |book| - 1;
    if i == n {
      assert Removed(book, i) == book[..n];
    } else {
      TotalRemoved(book[..n], i);
      assert Removed(book, i) == Removed(book[..n], i) + [book[n]];
      TotalSnoc(Removed(book[..n], i), book[n]);
    }
  }

  lemma ChargeNonNegative(p: Position)
    requires p.Accountable()
    ensures 0.0 <= p.Charge()
  {
  }

  lemma ShareMonotone(x: real, y: real, balance: real)
    requires 0.0 < balance && x <= y
    ensures Share(x, balance) <= Share(y, balance)
  {
  }

  lemma ShareAdds(x: real, y: real, balance: real)
    requires 0.0 < balance
    ensures Share(x + y, balance) == Share(x, balance) + Share(y, balance)
  {
  }

  lemma RemovedAccountable(book: seq<Position>, i: nat)
    requires AllAccountable(book)
    ensures AllAccountable(Removed(book, i))
  {
  }

  /** A sized trade adds at most what was allowed, up to the sizer's own tolerance. */
  lemma SizedWithinAllowed(st: State, p: Proposal, balance: real, cfg: RiskConfig)
    requires p.Valid() && cfg.Valid() && 0.0 < balance
    ensures var r := Verdict(p, OpenRiskPercent(st.open, balance), balance, cfg);
            r.Sized? ==>
              && p.market.riskPercent.Some? && 0.0 < p.market.riskPercent.value
              && 0.0 < Allowed(st, p.market.riskPercent.value, balance, cfg)
              && Share(r.estimated, balance) <= Allowed(st, p.market.riskPercent.value, balance, cfg) + Share(0.000000001, balance)
  {
    var openRisk := OpenRiskPercent(st.open, balance);
    var r := Verdict(p, openRisk, balance, cfg);
    if r.Sized? {
      SizedInputs(p, openRisk, balance, cfg);
      var m := Derived(p, openRisk, balance);
      var stop := StructuralStop(p.setup, Some(p.quoted), m, cfg).value;
      SizedFields(Gather(m, stop.points).value, cfg, Some(stop.price));
      hide StructuralStop, SizeFor, PointValue, Verdict, Budget, Share, Headroom, Derived, OpenRiskPercent;
      ShareOfBudget(r.estimated, balance, r.percent);
    }
  }

  lemma ApproveWithinLimit(st: State, p: Proposal, balance: real, cfg: RiskConfig)
    requires 0.0 < balance && cfg.Valid() && WithinLimit(st, balance, cfg) && p.Valid()
    requires RoomFor(st, p.market.riskPercent, balance, cfg)
    ensures WithinLimit(Step(st, Approve(p), balance, cfg), balance, cfg)
  {
    hide Share, Position.Charge, Position.Accountable, Verdict, Allowed;
    var open := OpenRiskPercent(st.open, balance);
    ChargeIsEstimate(p, open, balance, cfg);
    SizedWithinAllowed(st, p, balance, cfg);
    var r := Verdict(p, open, balance, cfg);
    if r.Sized? && r.stopPrice.Some? && 0.0 < r.stopPrice.value {
      TotalSnoc(st.pending, Filled(p, r));
      ShareAdds(Total(st.open) + Total(st.pending), r.estimated, balance);
    }
    hide OpenRiskPercent, Filled;
  }

  lemma FillWithinLimit(st: State, i: nat, balance: real, cfg: RiskConfig)
    requires 0.0 < balance && WithinLimit(st, balance, cfg) && i < |st.pending|
    ensures WithinLimit(Step(st, Fill(i), balance, cfg), balance, cfg)
  {
    hide Share, Position.Charge, Position.Accountable;
    TotalRemoved(st.pending, i);
    TotalSnoc(st.open, st.pending[i]);
    RemovedAccountable(st.pending, i);
    hide Removed;
  }

  lemma DropWithinLimit(st: State, i: nat, balance: real, cfg: RiskConfig)
    requires 0.0 < balance && WithinLimit(st, balance, cfg) && i < |st.pending|
    ensures WithinLimit(Step(st, Drop(i), balance, cfg), balance, cfg)
  {
    hide Share, Position.Charge, Position.Accountable;
    TotalRemoved(st.pending, i);
    RemovedAccountable(st.pending, i);
    ChargeNonNegative(st.pending[i]);
    hide Removed, Total;
    ShareMonotone(Total(st.open) + Total(Removed(st.pending, i)), Total(st.open) + Total(st.pending), balance);
  }

  lemma CloseWithinLimit(st: State, i: nat, balance: real, cfg: RiskConfig)
    requires 0.0 < balance && WithinLimit(st, balance, cfg) && i < |st.open|
    ensures WithinLimit(Step(st, Close(i), balance, cfg), balance, cfg)
  {
    hide Share, Position.Charge, Position.Accountable;
    TotalRemoved(st.open, i);
    RemovedAccountable(st.open, i);
    ChargeNonNegative(st.open[i]);
    hide Removed, Total;
    ShareMonotone(Total(Removed(st.open, i)) + Total(st.pending), Total(st.open) + Total(st.pending), balance);
  }

  lemma StepWithinLimit(st: State, op: Op, balance: real, cfg: RiskConfig)
    requires 0.0 < balance && cfg.Valid() && WithinLimit(st, balance, cfg)
    requires op.Approve? ==> RoomFor(st, op.proposal.market.riskPercent, balance, cfg)
    ensures WithinLimit(Step(st, op, balance, cfg), balance, cfg)
  {
    hide WithinLimit, Verdict, RoomFor;
    match op {
      case Approve(p) => if p.Valid() { ApproveWithinLimit(st, p, balance, cfg); }
      case Fill(i) => if i < |st.pending| { FillWithinLimit(st, i, balance, cfg); }
      case Drop(i) => if i < |st.pending| { DropWithinLimit(st, i, balance, cfg); }
      case Close(i) => if i < |st.open| { CloseWithinLimit(st, i, balance, cfg); }
    }
  }

  lemma ShareZero(balance: real)
    requires 0.0 < balance
    ensures Share(0.0, balance) == 0.0 && 0.0 <= Share(0.000000001, balance)
  {
  }

  /** Over every run of approvals, fills, drops and closes in which each approval finds room, the open
      and approved risk stays within the portfolio limit, up to the code's own tolerances. */
  lemma {:induction false} TotalRiskBounded(ops: seq<Op>, balance: real, cfg: RiskConfig)
    requires 0.0 < balance && cfg.Valid() && Guarded(ops, balance, cfg)
    ensures WithinLimit(Run(ops, balance, cfg), balance, cfg)
  {
    if ops == [] {
      ShareZero(balance);
    } else {
      var n := |ops| - 1;
      GuardedFront(ops, n, balance, cfg);
      TotalRiskBounded(ops[..n], balance, cfg);
      hide Step, WithinLimit, RoomFor;
      StepWithinLimit(Run(ops[..n], balance, cfg), ops[n], balance, cfg);
    }
  }

  lemma GuardedFront(ops: seq<Op>, n: nat, balance: real, cfg: RiskConfig)
    requires 0.0 < balance && n <= |ops| && Guarded(ops, balance, cfg)
    ensures Guarded(ops[..n], balance, cfg)
  {
    hide RoomFor, Run;
    forall k | 0 <= k < n && ops[..n][k].Approve?
      ensures RoomFor(Run(ops[..n][..k], balance, cfg), ops[..n][k].proposal.market.riskPercent, balance, cfg)
    {
      assert ops[..n][..k] == ops[..k];
    }
  }

  /** Approvals that never overlap always find room. */
  lemma {:induction false} SequentialIsGuarded(ops: seq<Op>, balance: real, cfg: RiskConfig)
    requires 0.0 < balance && cfg.Valid() && OneAtATime(ops, balance, cfg)
    ensures Guarded(ops, balance, cfg)
  {
    if ops != [] {
      var n := |ops| - 1;
      forall k | 0 <= k < n && ops[..n][k].Approve?
        ensures Run(ops[..n][..k], balance, cfg).pending == []
      {
        assert ops[..n][..k] == ops[..k];
      }
      SequentialIsGuarded(ops[..n], balance, cfg);
      TotalRiskBounded(ops[..n], balance, cfg);
      var st := Run(ops[..n], balance, cfg);
      forall k | 0 <= k < |ops| && ops[k].Approve?
        ensures RoomFor(Run(ops[..k], balance, cfg), ops[k].proposal.market.riskPercent, balance, cfg)
      {
        if k < n {
          assert ops[..n][..k] == ops[..k] && ops[..n][k] == ops[k];
        } else {
          NothingPendingHasRoom(st, ops[k].proposal.market.riskPercent, balance, cfg);
        }
      }
      hide Run, RoomFor, WithinLimit;
    }
  }

  lemma NothingPendingHasRoom(st: State, requested: Option<real>, balance: real, cfg: RiskConfig)
    requires 0.0 < balance && cfg.Valid() && st.pending == [] && AllAccountable(st.open)
    ensures RoomFor(st, requested, balance, cfg)
  {
    Round8Near(cfg.maxTotalRiskPercent - OpenRiskPercent(st.open, balance));
    assert Total(st.open) + Total(st.pending) == Total(st.open);
    hide Share, AllAccountable;
  }

  // ----- Overlapping approvals break the limit -----

  lemma RunSnoc(ops: seq<Op>, op: Op, balance: real, cfg: RiskConfig)
    requires 0.0 < balance
    ensures Run(ops + [op], balance, cfg) == Step(Run(ops, balance, cfg), op, balance, cfg)
  {
  }

  /** Two approvals of a trade before its first fill are both sized against an empty book, so the two
      fills carry twice the risk one approval was allowed. */
  lemma OverlapDoubles(p: Proposal, balance: real, cfg: RiskConfig)
    requires 0.0 < balance && cfg.Valid() && p.Valid()
    ensures var r := Verdict(p, 0.0, balance, cfg);
            var end := Run([Approve(p)] + [Approve(p)] + [Fill(0)] + [Fill(0)], balance, cfg);
            Approvable(r) ==>
              end == State([Filled(p, r), Filled(p, r)], [])
              && OpenRiskPercent(end.open, balance) == Share(r.estimated, balance) + Share(r.estimated, balance)
  {
    var r := Verdict(p, 0.0, balance, cfg);
    ChargeIsEstimate(p, 0.0, balance, cfg);
    if Approvable(r) {
      OverlapStates(p, r, balance, cfg);
      hide Verdict, Share, Position.Charge, Position.Accountable, Run, Filled, OpenRiskPercent;
      PairRisk(Filled(p, r), r.estimated, balance);
    }
  }

  /** Sized, with a stop a position can carry. */
  predicate Approvable(r: Risk) {
    r.Sized? && r.stopPrice.Some? && 0.0 < r.stopPrice.value
  }

  lemma PairRisk(f: Position, charge: real, balance: real)
    requires 0.0 < balance && f.Accountable() && f.Charge() == charge
    ensures OpenRiskPercent([f, f], balance) == Share(charge, balance) + Share(charge, balance)
  {
    hide Share, Position.Charge, Position.Accountable;
    TotalSnoc([], f);
    TotalSnoc([f], f);
    assert [] + [f] == [f] && [f] + [f] == [f, f];
    ShareAdds(charge, charge, balance);
  }

  lemma OverlapStates(p: Proposal, r: Risk, balance: real, cfg: RiskConfig)
    requires 0.0 < balance && p.Valid() && Approvable(r)
    ensures r == Verdict(p, 0.0, balance, cfg) ==>
              Run([Approve(p)] + [Approve(p)] + [Fill(0)] + [Fill(0)], balance, cfg) == State([Filled(p, r), Filled(p, r)], [])
  {
    hide Verdict, Share, Filled, Run;
    var f := Filled(p, r);
    EmptyRun(balance, cfg);
    assert OpenRiskPercent([], balance) == 0.0 by { ShareZero(balance); }
    assert [] + [Approve(p)] == [Approve(p)];
    RunSnoc([], Approve(p), balance, cfg);
    assert [] + [f] == [f] && [f] + [f] == [f, f];
    RunSnoc([Approve(p)], Approve(p), balance, cfg);
    hide OpenRiskPercent;
    RunSnoc([Approve(p)] + [Approve(p)], Fill(0), balance, cfg);
    assert Removed([f, f], 0) == [f];
    RunSnoc([Approve(p)] + [Approve(p)] + [Fill(0)], Fill(0), balance, cfg);
    assert Removed([f], 0) == [];
  }

  lemma EmptyRun(balance: real, cfg: RiskConfig)
    requires 0.0 < balance
    ensures Run([], balance, cfg) == State([], [])
  {
  }

  /** A per-trade limit of 0.5 under a total of 0.75 percent; distance 1 risks 100 account units per lot. */
  function ExampleConfig(): RiskConfig {
    RiskConfig(0.0, 0.5, 3.5, 1.2, 1.25, 0.75, true, false, 0.5)
  }

  function Example(): Proposal {
    Proposal(
      Setup(TrendPullback, Buy, 0.0, 100.0, 99.0, 1.0, 50.0, 1.0), 100.0,
      RiskMarket(Some(100.0), Some(100.0), None, None, None, Some(0.5), None, Some(0.5), Some(0.5), Some(10.0), None, None, None, None),
      0.01, 0.01, 1.0)
  }

  lemma ExampleStop(m: RiskMarket)
    requires m.point == Some(0.01)
    ensures StructuralStop(Example().setup, Some(100.0), m, ExampleConfig()) == Success(Stop(99.0, 100.0))
  {
  }

  lemma ExampleVolume()
    ensures Volume(50.0, 100.0, 0.5, 10.0) == 0.5
  {
  }

  lemma ExampleHeadroom()
    ensures Headroom(0.0, ExampleConfig()) == 0.75
  {
  }

  /** A sizing whose parts are known. */
  lemma SizedFrom(i: Inputs, cfg: RiskConfig, stopPrice: Option<real>, percent: real, budget: real, volume: real, perLot: real)
    requires i.Valid() && i.openRisk.Some? && 0.0 < Headroom(i.openRisk.value, cfg) && i.RiskPerLot() == perLot && 0.0 < perLot
    requires Percent(i, cfg) == percent && Budget(i.balance, percent) == budget
    requires Volume(budget, perLot, i.step, i.maxVolume) == volume
    requires i.minVolume <= volume && volume * perLot <= budget + 0.000000001
    ensures SizeFor(i, cfg, stopPrice) == Sized(volume, budget, volume * perLot, percent, i.stopPoints, stopPrice)
  {
  }

  lemma ExampleInputs(i: Inputs)
    requires i == Inputs(10000.0, 0.5, 100.0, 1.0, 0.5, 0.5, 10.0, Some(0.0))
    ensures i.Valid() && i.RiskPerLot() == 100.0
    ensures Percent(i, ExampleConfig()) == 0.5 && Budget(10000.0, 0.5) == 50.0
  {
  }

  lemma ExampleGates(m: RiskMarket)
    requires m == Derived(Example(), 0.0, 10000.0) && PointValue(0.01, 1.0, 0.01) == 1.0
    ensures m.point == Some(0.01) && m.openRiskPercent == Some(0.0)
    ensures Gather(m, 100.0) == Some(Inputs(10000.0, 0.5, 100.0, 1.0, 0.5, 0.5, 10.0, Some(0.0)))
    ensures DistanceGate(m, 100.0, ExampleConfig()) == None
  {
  }

  lemma EvaluatedFrom(setup: Setup, quoted: real, m: RiskMarket, cfg: RiskConfig, stop: Stop, i: Inputs)
    requires m.point.Some? && m.openRiskPercent == i.openRisk && StructuralStop(setup, Some(quoted), m, cfg) == Success(stop)
    requires 0.0 < stop.points && Gather(m, stop.points) == Some(i) && i.Valid() && 0.0 < i.RiskPerLot()
    requires DistanceGate(m, stop.points, cfg) == None && !Negative(i.openRisk)
    ensures RiskSizing.Evaluate(true, Some(setup), Some(quoted), m, cfg) == SizeFor(i, cfg, Some(stop.price))
  {
  }

  lemma ExampleSized()
    ensures Verdict(Example(), 0.0, 10000.0, ExampleConfig()) == Sized(0.5, 50.0, 50.0, 0.5, 100.0, Some(99.0))
  {
    var m, cfg := Derived(Example(), 0.0, 10000.0), ExampleConfig();
    assert PointValue(0.01, 1.0, 0.01) == 1.0;
    var i := Inputs(10000.0, 0.5, 100.0, 1.0, 0.5, 0.5, 10.0, Some(0.0));
    ExampleGates(m);
    ExampleStop(m);
    ExampleVolume();
    ExampleHeadroom();
    ExampleInputs(i);
    assert Example().quoted == 100.0;
    hide StructuralStop, Volume, Headroom, PointValue, Derived, ExampleConfig, Example, Gather, DistanceGate, Percent, Budget,
         SizeFor, RiskSizing.Evaluate, Inputs.RiskPerLot, Inputs.Valid;
    EvaluatedFrom(Example().setup, 100.0, m, cfg, Stop(99.0, 100.0), i);
    SizedFrom(i, cfg, Some(99.0), 0.5, 50.0, 0.5, 100.0);
  }

  /** The discipline is needed: overlapping approvals end at one percent under a 0.75 percent limit. */
  lemma OverlapExceedsLimit()
    ensures ExampleConfig().Valid()
    ensures var ops := [Approve(Example())] + [Approve(Example())] + [Fill(0)] + [Fill(0)];
            OpenRiskPercent(Run(ops, 10000.0, ExampleConfig()).open, 10000.0) == 1.0
    ensures 1.0 > ExampleConfig().maxTotalRiskPercent + TOLERANCE + Share(0.000000001, 10000.0)
  {
    ExampleSized();
    OverlapDoubles(Example(), 10000.0, ExampleConfig());
    assert Share(50.0, 10000.0) == 0.5;
    hide Verdict, Run;
  }
}
