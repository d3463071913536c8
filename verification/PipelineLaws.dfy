/** What an approved evaluation guarantees, and that the stages agree on the detector's setups. */
module PipelineLaws {
  import opened Wrappers
  import opened Indicators
  import opened Detector
  import opened DetectorLaws
  import opened OrderedMemory
  import opened EntryTiming
  import opened RiskSizing
  import opened RiskGates
  import opened RiskLaws
  import opened SignalVisits
  import TimingLaws
  import opened Pipeline

  // ----- Laws of whole evaluations -----

  /** The two market views of one evaluation carry the same quote. */
  ghost predicate OneQuote(s: Snapshot) {
    SameQuote(s.timing, s.risk)
  }

  /** A protective setup, entered with room to its invalidation level, with the stop at or beyond that
      level, its distance from the entry within the configured multiples of the range and accepted by the
      broker, a planned reward worth the risk, and room in the portfolio. */
  ghost predicate SoundTrade(setup: Setup, entry: Option<real>, risk: Risk, m: RiskMarket, c: Settings) {
    && entry.Some? && risk.Sized? && risk.stopPrice.Some? && SetupOk(setup)
    && c.timing.minRiskRoomAtr * setup.atr <= Ahead(setup.side, entry.value, setup.invalidation)
    && 0.0 <= Ahead(setup.side, setup.invalidation, risk.stopPrice.value)
    && MeetsGates(m, risk.stopPoints, c.risk)
    && var distance := Ahead(setup.side, entry.value, risk.stopPrice.value);
       0.0 < distance && c.risk.minStopAtr <= distance / setup.atr <= c.risk.maxStopAtr
  }

  lemma ApprovedTradeIsSound(m: seq<Entry<SignalKey, real>>, s: Snapshot, c: Settings)
    requires s.Valid() && c.Valid() && c.timing.requireQuote && c.risk.strictStructural && OneQuote(s)
    ensures var out := OutcomeOf(m, s, c);
            out.Approved() ==> SoundTrade(out.opportunity.setup, out.timing.value.quotePrice, out.risk, s.risk, c)
  {
    ApprovedStages(m, s, c);
    var out := OutcomeOf(m, s, c);
    hide OutcomeOf, SoundTrade, EntryTiming.Evaluate, RiskSizing.Evaluate;
    if out.Approved() {
      SizedTradeIsSound(out.opportunity.setup, out.opportunity.bar, s, c);
    }
  }

  lemma ApprovedStages(m: seq<Entry<SignalKey, real>>, s: Snapshot, c: Settings)
    requires s.Valid() && c.Valid()
    ensures var out := OutcomeOf(m, s, c);
            out.Approved() ==>
              && out.timing == Some(EntryTiming.Evaluate(out.opportunity.setup, Some(out.opportunity.bar), s.timing, c.timing))
              && out.risk == RiskSizing.Evaluate(true, Some(out.opportunity.setup), out.timing.value.quotePrice, s.risk, c.risk)
  {
    hide Admit, Technical, EntryTiming.Evaluate, RiskSizing.Evaluate;
  }

  lemma SizedTradeIsSound(setup: Setup, bar: real, s: Snapshot, c: Settings)
    requires c.Valid() && c.timing.requireQuote && c.risk.strictStructural && OneQuote(s)
    ensures var timing := EntryTiming.Evaluate(setup, Some(bar), s.timing, c.timing);
            var risk := RiskSizing.Evaluate(true, Some(setup), timing.quotePrice, s.risk, c.risk);
            timing.status == Accepted && risk.Sized? ==> SoundTrade(setup, timing.quotePrice, risk, s.risk, c)
  {
    hide EntryTiming.Evaluate, RiskSizing.Evaluate, StructuralStop, Ahead, SetupOk, Quote.Exit, MeetsGates;
    var timing := EntryTiming.Evaluate(setup, Some(bar), s.timing, c.timing);
    if timing.status == Accepted && RiskSizing.Evaluate(true, Some(setup), timing.quotePrice, s.risk, c.risk).Sized? {
      ApprovalLeavesRoom(setup, Some(bar), s.timing, c.timing);
      SizedHasStop(setup, timing.quotePrice, s.risk, c.risk);
      StopBounds(setup, timing.quotePrice, s.risk, c.risk);
      SizedMeetsGates(true, Some(setup), timing.quotePrice, s.risk, c.risk);
    }
  }

  lemma SizedHasStop(setup: Setup, quoted: Option<real>, m: RiskMarket, cfg: RiskConfig)
    requires cfg.strictStructural && RiskSizing.Evaluate(true, Some(setup), quoted, m, cfg).Sized?
    ensures StructuralStop(setup, quoted, m, cfg).Success?
    ensures RiskSizing.Evaluate(true, Some(setup), quoted, m, cfg).stopPrice == Some(StructuralStop(setup, quoted, m, cfg).value.price)
  {
  }

  lemma StopBounds(s: Setup, quoted: Option<real>, m: RiskMarket, cfg: RiskConfig)
    requires cfg.Valid() && StructuralStop(s, quoted, m, cfg).Success?
    ensures SetupOk(s)
    ensures var stop := StructuralStop(s, quoted, m, cfg).value;
            && 0.0 <= Ahead(s.side, s.invalidation, stop.price)
            && 0.0 < Ahead(s.side, EntryPrice(s, quoted, m), stop.price)
            && cfg.minStopAtr <= Ahead(s.side, EntryPrice(s, quoted, m), stop.price) / s.atr <= cfg.maxStopAtr
  {
  }

  /** Every price of the series has at most 5 digits. */
  ghost predicate OnGrid(b: Bars)
    requires b.Shaped()
  {
    forall i | 0 <= i < b.Count() :: Round5(b.low[i]) == b.low[i] && Round5(b.high[i]) == b.high[i]
  }

  lemma Round5Positive(x: real)
    ensures 0.0 < Round5(x) <==> 0.000005 < x
  {
    var z := x * 100000.0;
    assert 0.0 < Round5(x) <==> 0 < Nearest(z);
    assert 0 < Nearest(z) <==> 0.5 < z;
  }

  /** On prices of 5 digits rounding touches the range alone, so the setup the later stages read is
      sound exactly when the range does not round to zero. */
  lemma ReportedIsOk(b: Bars, s: Setup)
    requires b.Shaped() && OnGrid(b) && Protective(s) && AtAnExtreme(b, s)
    ensures SetupOk(Reported(s)) <==> 0.000005 < s.atr
  {
    Round5Positive(s.atr);
    assert Reported(s).invalidation == s.invalidation;
    hide Round5;
  }

  /** On candles of 5 digits that close within their range, timing refuses its own detector's setup as
      invalid exactly when the average range rounds to zero, and otherwise neither stage does, nor is an
      approved entry beyond its stop. */
  lemma DetectorSetupsInvalidExactly(m: seq<Entry<SignalKey, real>>, s: Snapshot, c: Settings)
    requires s.Valid() && c.Valid() && ClosesInRange(s.bars) && OnGrid(s.bars)
    requires c.timing.requireQuote && c.risk.strictStructural && OneQuote(s)
    ensures var out, verdict := OutcomeOf(m, s, c), Technical(s.bars, c.detector, c.minimumScore);
            && (out.timing.Some? ==> verdict.Found?
                                     && (out.timing.value.reason == TimingSetupInvalid <==> verdict.setup.atr <= 0.000005))
            && (out.risk.NotSized? ==> out.risk.reason != InvalidOpportunitySetup && out.risk.reason != EntryBeyondStop)
  {
    var out, verdict := OutcomeOf(m, s, c), Technical(s.bars, c.detector, c.minimumScore);
    FoundIsProtective(s.bars, c.detector, c.minimumScore);
    FoundAtExtreme(s.bars, c.detector, c.minimumScore);
    hide Technical;
    if out.opportunity.Signalled? {
      var setup, timing := out.opportunity.setup, out.timing.value;
      ReportedIsOk(s.bars, verdict.setup);
      TimingReasonsOfSetup(setup, Some(out.opportunity.bar), s.timing, c.timing);
      if timing.status == Accepted {
        TimingRulesOutStopFailures(setup, Some(out.opportunity.bar), s.timing, c.timing, s.risk, c.risk);
        RiskReasons(setup, timing.quotePrice, s.risk, c.risk);
      }
    }
    hide EntryTiming.Evaluate, StructuralStop, SizeFromStop, Reported, SetupOk;
  }

  lemma TimingReasonsOfSetup(s: Setup, signalTime: Option<real>, m: TimingMarket, cfg: TimingConfig)
    requires cfg.Valid()
    ensures EntryTiming.Evaluate(s, signalTime, m, cfg).reason == TimingSetupInvalid <==> !SetupOk(s)
  {
  }

  lemma RiskReasons(setup: Setup, quoted: Option<real>, m: RiskMarket, cfg: RiskConfig)
    requires cfg.strictStructural
    ensures var r := RiskSizing.Evaluate(true, Some(setup), quoted, m, cfg);
            r.NotSized? && r.reason in {InvalidOpportunitySetup, EntryBeyondStop} ==>
              StructuralStop(setup, quoted, m, cfg) == Failure(r.reason)
  {
  }

  // ----- When a signal is given back, in prices -----

  /** The risk stage finds everything in order but the room in the portfolio. */
  ghost predicate LimitUsedUp(setup: Setup, quoted: Option<real>, m: RiskMarket, cfg: RiskConfig) {
    && StructuralStop(setup, quoted, m, cfg).Success?
    && (forall k | 0 <= k < 9 :: !GateCases(m, StructuralStop(setup, quoted, m, cfg).value.points, cfg)[k].0)
    && m.openRiskPercent.Some? && cfg.maxTotalRiskPercent <= m.openRiskPercent.value + 0.000000005
  }

  /** The entry may come later, or was timely and only the portfolio is full. */
  ghost predicate MayTradeLater(setup: Setup, bar: real, s: Snapshot, c: Settings)
    requires c.Valid() && TimingLaws.HasQuote(s.timing)
  {
    && TimingLaws.Reads(setup)
    && var q := Quote(s.timing.bid.value, s.timing.ask.value, s.timing.point.value);
       var age := SignalAge(Some(bar), s.timing);
       var quality := Quality(setup, q, age, s.timing, c.timing);
       || TimingLaws.MayComeLater(setup, q.bid, q.ask, q.point, age, quality, c.timing)
       || (&& EntryTiming.Evaluate(setup, Some(bar), s.timing, c.timing).status == Accepted
           && LimitUsedUp(setup, Some(q.Entry(setup.side)), s.risk, c.risk))
  }

  /** After an evaluation that signalled, on a quote, the memory has given the key back exactly when the
      trade may come later; otherwise it holds the key with this bar. */
  lemma SignalGivenBackExactly(m: seq<Entry<SignalKey, real>>, s: Snapshot, c: Settings)
    requires s.Valid() && c.Valid() && Distinct(m) && c.risk.strictStructural && TimingLaws.HasQuote(s.timing)
    requires OutcomeOf(m, s, c).opportunity.Signalled?
    ensures var out := OutcomeOf(m, s, c);
            var o := out.opportunity;
            Lookup(MemoryAfter(m, out), o.key) == if MayTradeLater(o.setup, o.bar, s, c) then None else Some(o.bar)
  {
    var out := OutcomeOf(m, s, c);
    var o := out.opportunity;
    SignalledIsStaged(m, s, c);
    hide OutcomeOf, EntryTiming.Evaluate, RiskSizing.Evaluate, MayTradeLater, Remembered, Forgotten, Lookup;
    DefersInPrices(o.setup, o.bar, s, c);
    DeferralGivesBack(m, Visit(o.key, o.bar, LaterOf(out)));
  }

  lemma SignalledIsStaged(m: seq<Entry<SignalKey, real>>, s: Snapshot, c: Settings)
    requires s.Valid() && c.Valid() && OutcomeOf(m, s, c).opportunity.Signalled?
    ensures var out := OutcomeOf(m, s, c);
            var o := out.opportunity;
            && !Duplicate(m, o.key, o.bar)
            && out.timing == Some(EntryTiming.Evaluate(o.setup, Some(o.bar), s.timing, c.timing))
            && out.risk == RiskSizing.Evaluate(out.timing.value.status == Accepted, Some(o.setup), out.timing.value.quotePrice, s.risk, c.risk)
  {
    hide Technical, EntryTiming.Evaluate, RiskSizing.Evaluate, Duplicate;
  }

  lemma DefersInPrices(setup: Setup, bar: real, s: Snapshot, c: Settings)
    requires c.Valid() && c.risk.strictStructural && TimingLaws.HasQuote(s.timing)
    ensures var timing := EntryTiming.Evaluate(setup, Some(bar), s.timing, c.timing);
            var risk := RiskSizing.Evaluate(timing.status == Accepted, Some(setup), timing.quotePrice, s.risk, c.risk);
            timing.status == Deferred || (risk.NotSized? && risk.status == Deferred) <==> MayTradeLater(setup, bar, s, c)
  {
    var timing := EntryTiming.Evaluate(setup, Some(bar), s.timing, c.timing);
    hide RiskSizing.Evaluate, StructuralStop, GateCases;
    DefersExactly(timing.status == Accepted, Some(setup), timing.quotePrice, s.risk, c.risk);
    TimingLaws.UnreadableExactly(setup, Some(bar), s.timing, c.timing);
    hide EntryTiming.Evaluate, TimingLaws.MayComeLater, Quality, SignalAge, TimingLaws.Reads;
    if TimingLaws.Reads(setup) {
      TimingLaws.DeferralExactly(setup, Some(bar), s.timing, c.timing);
      TimingLaws.QuotedExactly(setup, Some(bar), s.timing, c.timing);
    }
  }
}
