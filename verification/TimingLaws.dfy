/** Every answer of the timing stage in prices, spreads and ages: which condition rejects, which defers,
    and which comes first. A deferral gives the signal back, a rejection does not. */
module TimingLaws {
  import opened Wrappers
  import opened RealMath
  import opened Detector
  import opened EntryTiming

  // ----- What is read -----

  /** All prices positive, and the invalidation level on the losing side of the reference. */
  ghost predicate Reads(s: Setup) {
    && 0.0 < s.atr && 0.0 < s.reference && 0.0 < s.invalidation
    && (s.side == Buy ==> s.invalidation < s.reference) && (s.side == Sell ==> s.reference < s.invalidation)
  }

  ghost predicate NoQuote(m: TimingMarket) {
    m.bid.None? && m.ask.None? && m.point.None?
  }

  ghost predicate HasQuote(m: TimingMarket) {
    && m.bid.Some? && m.ask.Some? && m.point.Some?
    && 0.0 < m.bid.value <= m.ask.value && 0.0 < m.point.value
  }

  /** The age is the number of bar lengths between the signal's bar and the newest one. */
  lemma AgeExactly(signalTime: Option<real>, m: TimingMarket, age: real)
    ensures SignalAge(signalTime, m) == Some(age) <==>
            && signalTime.Some? && m.latestBarTime.Some? && m.barSeconds.Some? && 0.0 < m.barSeconds.value
            && age * m.barSeconds.value == m.latestBarTime.value - signalTime.value
  {
    if signalTime.Some? && m.latestBarTime.Some? && m.barSeconds.Some? && 0.0 < m.barSeconds.value {
      QuotientExactly(m.latestBarTime.value - signalTime.value, m.barSeconds.value, age);
    }
  }

  lemma QuotientExactly(x: real, y: real, q: real)
    requires 0.0 < y
    ensures x / y == q <==> q * y == x
  {
    var r := x / y;
    assert r * y == x;
    assert (r - q) * y == x - q * y;
  }

  function Times(x: real, y: real): real {
    x * y
  }

  // ----- Prices -----

  /** Distances in the trade direction: from the price that would close the trade to the invalidation, from
      the entry to the invalidation, and from the signal's close to the entry. */
  datatype Distances = Distances(exitAhead: real, room: real, chase: real, spread: real)

  function DistancesOf(s: Setup, bid: real, ask: real): Distances {
    if s.side == Buy then Distances(bid - s.invalidation, ask - s.invalidation, ask - s.reference, ask - bid)
    else Distances(s.invalidation - ask, s.invalidation - bid, s.reference - bid, ask - bid)
  }

  /** The first of these that holds is reported. */
  ghost function PriceFaults(d: Distances, atr: real, cfg: TimingConfig): seq<(bool, (Status, TimingReason))> {
    [ (d.exitAhead <= 0.0, (Rejected, SetupInvalidated)),
      (d.room < Times(cfg.minRiskRoomAtr, atr), (Rejected, TooCloseToInvalidation)),
      (Times(cfg.maxChaseAtr, atr) < d.chase, (Deferred, PriceExtendedFromSignal)),
      (Times(cfg.maxSpreadAtr, atr) < d.spread, (Deferred, SpreadTooWideForVolatility)),
      (Times(cfg.maxSpreadToRisk, d.room) < d.spread, (Deferred, SpreadTooLargeVsRisk)) ]
  }

  lemma GateInPrices(d: Distances, atr: real, cfg: TimingConfig)
    requires 0.0 < atr
    ensures d.room / atr < cfg.minRiskRoomAtr <==> d.room < Times(cfg.minRiskRoomAtr, atr)
    ensures d.chase / atr > cfg.maxChaseAtr <==> Times(cfg.maxChaseAtr, atr) < d.chase
    ensures d.spread / atr > cfg.maxSpreadAtr <==> Times(cfg.maxSpreadAtr, atr) < d.spread
    ensures 0.0 < d.room ==> (d.spread / d.room > cfg.maxSpreadToRisk <==> Times(cfg.maxSpreadToRisk, d.room) < d.spread)
  {
    RatioAgainst(d.room, atr, cfg.minRiskRoomAtr);
    RatioAgainst(d.chase, atr, cfg.maxChaseAtr);
    RatioAgainst(d.spread, atr, cfg.maxSpreadAtr);
    if 0.0 < d.room {
      RatioAgainst(d.spread, d.room, cfg.maxSpreadToRisk);
    }
  }

  lemma PriceAnswersExactly(s: Setup, q: Quote, cfg: TimingConfig)
    requires SetupOk(s) && q.Valid() && cfg.Valid()
    ensures var faults := PriceFaults(DistancesOf(s, q.bid, q.ask), s.atr, cfg);
            match PriceGate(s, q, cfg)
            case None => forall k | 0 <= k < 5 :: !faults[k].0
            case Some(answer) => FirstCase(faults, answer)
  {
    var d := DistancesOf(s, q.bid, q.ask);
    var faults := PriceFaults(d, s.atr, cfg);
    GateInPrices(d, s.atr, cfg);
    assert d.exitAhead <= d.room;
    hide Times;
    if d.exitAhead <= 0.0 {
      IsFirstCase(faults, 0);
    } else if d.room < Times(cfg.minRiskRoomAtr, s.atr) {
      IsFirstCase(faults, 1);
    } else if Times(cfg.maxChaseAtr, s.atr) < d.chase {
      IsFirstCase(faults, 2);
    } else if Times(cfg.maxSpreadAtr, s.atr) < d.spread {
      IsFirstCase(faults, 3);
    } else if Times(cfg.maxSpreadToRisk, d.room) < d.spread {
      IsFirstCase(faults, 4);
    }
  }

  // ----- The whole stage -----

  /** A setup that does not read, a broken quote and a missing required one are rejected. */
  lemma UnreadableExactly(s: Setup, signalTime: Option<real>, m: TimingMarket, cfg: TimingConfig)
    requires cfg.Valid()
    ensures var r := EntryTiming.Evaluate(s, signalTime, m, cfg);
            && (r.reason == TimingSetupInvalid <==> !Reads(s))
            && (r.reason == InvalidQuote <==> Reads(s) && !NoQuote(m) && !HasQuote(m))
            && (r.reason == QuoteRequired <==> Reads(s) && NoQuote(m) && cfg.requireQuote)
            && (r.reason in {TimingSetupInvalid, InvalidQuote, QuoteRequired} ==> r.status == Rejected && r.quotePrice == None)
  {
    hide PriceGate, QualityGate, FreshnessGate, SignalAge;
    assert SetupOk(s) <==> Reads(s);
    hide SetupOk, Reads, Ahead;
    if Reads(s) && (NoQuote(m) || HasQuote(m)) {
      LaterReasons(s, signalTime, m, cfg);
    }
    hide EntryTiming.Spread;
  }

  lemma LaterReasons(s: Setup, signalTime: Option<real>, m: TimingMarket, cfg: TimingConfig)
    requires cfg.Valid() && SetupOk(s)
    ensures forall age :: FreshnessGate(age, cfg).Some? ==> FreshnessGate(age, cfg).value !in {TimingSetupInvalid, InvalidQuote, QuoteRequired}
    ensures forall q: Quote | q.Valid() :: PriceGate(s, q, cfg).Some? ==>
              PriceGate(s, q, cfg).value.1 !in {TimingSetupInvalid, InvalidQuote, QuoteRequired}
    ensures forall q, age :: QualityGate(s, q, age, m, cfg).reason !in {TimingSetupInvalid, InvalidQuote, QuoteRequired}
  {
    hide ComputedQuality;
  }

  /** The conditions on a signal's age; ages are only missing where they are not required. */
  ghost predicate AgeMissing(age: Option<real>, cfg: TimingConfig) {
    age.None? && cfg.requireSignalTime
  }

  /** What is reported on a quote: the first case that applies. */
  ghost function QuotedCases(s: Setup, bid: real, ask: real, point: real, age: Option<real>, quality: real, cfg: TimingConfig)
    : seq<(bool, (Status, TimingReason))>
  {
    var d := DistancesOf(s, bid, ask);
    [ (Times(cfg.maximumSpreadPoints, point) < d.spread, (Deferred, SpreadOutOfRange)),
      (AgeMissing(age, cfg), (Rejected, SignalTimeUnavailable)),
      (age.Some? && age.value < 0.0, (Rejected, SignalTimeInvalid)),
      (age.Some? && cfg.maxSignalAgeBars < age.value, (Rejected, SignalExpired)),
      (d.exitAhead <= 0.0, (Rejected, SetupInvalidated)),
      (d.room < Times(cfg.minRiskRoomAtr, s.atr), (Rejected, TooCloseToInvalidation)),
      (Times(cfg.maxChaseAtr, s.atr) < d.chase, (Deferred, PriceExtendedFromSignal)),
      (Times(cfg.maxSpreadAtr, s.atr) < d.spread, (Deferred, SpreadTooWideForVolatility)),
      (Times(cfg.maxSpreadToRisk, d.room) < d.spread, (Deferred, SpreadTooLargeVsRisk)),
      (quality < 0.0 || 1.0 < quality || quality < cfg.minimumQuality, (Deferred, EntryQualityTooLow)),
      (true, (Accepted, EntryTimingApproved)) ]
  }

  lemma EvaluateUnfolds(s: Setup, signalTime: Option<real>, m: TimingMarket, cfg: TimingConfig)
    requires cfg.Valid() && Reads(s) && HasQuote(m)
    ensures SetupOk(s)
    ensures var q := Quote(m.bid.value, m.ask.value, m.point.value);
            var age, quality := SignalAge(signalTime, m), Quality(s, q, SignalAge(signalTime, m), m, cfg);
            var price := Some(if s.side == Buy then q.ask else q.bid);
            EntryTiming.Evaluate(s, signalTime, m, cfg)
            == if Times(cfg.maximumSpreadPoints, q.point) < q.ask - q.bid then Timing(Deferred, SpreadOutOfRange, price)
               else if FreshnessGate(age, cfg).Some? then Timing(Rejected, FreshnessGate(age, cfg).value, price)
               else if PriceGate(s, q, cfg).Some? then Timing(PriceGate(s, q, cfg).value.0, PriceGate(s, q, cfg).value.1, price)
               else if quality < 0.0 || 1.0 < quality || quality < cfg.minimumQuality then Timing(Deferred, EntryQualityTooLow, price)
               else Timing(Accepted, EntryTimingApproved, price)
  {
    var q := Quote(m.bid.value, m.ask.value, m.point.value);
    assert SetupOk(s);
    RatioAgainst(q.ask - q.bid, q.point, cfg.maximumSpreadPoints);
    assert 0.0 <= (q.ask - q.bid) / q.point;
    assert Times(cfg.maximumSpreadPoints, q.point) == cfg.maximumSpreadPoints * q.point;
    hide SignalAge, Times, SetupOk, Ahead, PriceGate, ComputedQuality, FreshnessGate;
  }

  lemma FreshnessCase(s: Setup, bid: real, ask: real, point: real, age: Option<real>, quality: real, cfg: TimingConfig)
    requires !(Times(cfg.maximumSpreadPoints, point) < ask - bid)
    ensures var cases := QuotedCases(s, bid, ask, point, age, quality, cfg);
            match FreshnessGate(age, cfg)
            case Some(reason) => FirstCase(cases, (Rejected, reason))
            case None => !cases[0].0 && !cases[1].0 && !cases[2].0 && !cases[3].0
  {
    var cases := QuotedCases(s, bid, ask, point, age, quality, cfg);
    hide Times;
    if FreshnessGate(age, cfg).Some? {
      IsFirstCase(cases, if age.None? then 1 else if age.value < 0.0 then 2 else 3);
    }
  }

  /** The price faults are the middle of the list. */
  lemma PriceCase(s: Setup, bid: real, ask: real, point: real, age: Option<real>, quality: real, cfg: TimingConfig,
                  answer: (Status, TimingReason))
    requires FirstCase(PriceFaults(DistancesOf(s, bid, ask), s.atr, cfg), answer)
    requires var cases := QuotedCases(s, bid, ask, point, age, quality, cfg); !cases[0].0 && !cases[1].0 && !cases[2].0 && !cases[3].0
    ensures FirstCase(QuotedCases(s, bid, ask, point, age, quality, cfg), answer)
  {
    var faults, cases := PriceFaults(DistancesOf(s, bid, ask), s.atr, cfg), QuotedCases(s, bid, ask, point, age, quality, cfg);
    hide Times, DistancesOf;
    var k :| 0 <= k < 5 && faults[k] == (true, answer) && forall j | 0 <= j < k :: !faults[j].0;
    assert cases[4] == faults[0] && cases[5] == faults[1] && cases[6] == faults[2] && cases[7] == faults[3] && cases[8] == faults[4];
    IsFirstCase(cases, 4 + k);
  }

  /** On a quote the first failing condition decides the status and the reason. */
  lemma QuotedExactly(s: Setup, signalTime: Option<real>, m: TimingMarket, cfg: TimingConfig)
    requires cfg.Valid() && Reads(s) && HasQuote(m)
    ensures var q := Quote(m.bid.value, m.ask.value, m.point.value);
            var age, r := SignalAge(signalTime, m), EntryTiming.Evaluate(s, signalTime, m, cfg);
            && FirstCase(QuotedCases(s, q.bid, q.ask, q.point, age, Quality(s, q, age, m, cfg), cfg), (r.status, r.reason))
            && r.quotePrice == Some(if s.side == Buy then q.ask else q.bid)
  {
    var q := Quote(m.bid.value, m.ask.value, m.point.value);
    var age := SignalAge(signalTime, m);
    var quality := Quality(s, q, age, m, cfg);
    EvaluateUnfolds(s, signalTime, m, cfg);
    PriceAnswersExactly(s, q, cfg);
    hide EntryTiming.Evaluate, SignalAge, Times, Quality, SetupOk, PriceGate, FreshnessGate, FirstCase;
    var cases := QuotedCases(s, q.bid, q.ask, q.point, age, quality, cfg);
    if cases[0].0 {
      IsFirstCase(cases, 0);
    } else {
      FreshnessCase(s, q.bid, q.ask, q.point, age, quality, cfg);
      if FreshnessGate(age, cfg).None? {
        if PriceGate(s, q, cfg).Some? {
          PriceCase(s, q.bid, q.ask, q.point, age, quality, cfg, PriceGate(s, q, cfg).value);
        } else {
          NoPriceCase(s, q.bid, q.ask, q.point, age, quality, cfg);
        }
      }
    }
  }

  lemma NoPriceCase(s: Setup, bid: real, ask: real, point: real, age: Option<real>, quality: real, cfg: TimingConfig)
    requires var faults := PriceFaults(DistancesOf(s, bid, ask), s.atr, cfg); forall k | 0 <= k < 5 :: !faults[k].0
    requires var cases := QuotedCases(s, bid, ask, point, age, quality, cfg); !cases[0].0 && !cases[1].0 && !cases[2].0 && !cases[3].0
    ensures FirstCase(QuotedCases(s, bid, ask, point, age, quality, cfg),
                      if quality < 0.0 || 1.0 < quality || quality < cfg.minimumQuality then (Deferred, EntryQualityTooLow)
                      else (Accepted, EntryTimingApproved))
  {
    var faults, cases := PriceFaults(DistancesOf(s, bid, ask), s.atr, cfg), QuotedCases(s, bid, ask, point, age, quality, cfg);
    hide Times, DistancesOf;
    assert !faults[0].0 && !faults[1].0 && !faults[2].0 && !faults[3].0 && !faults[4].0;
    assert cases[4] == faults[0] && cases[5] == faults[1] && cases[6] == faults[2] && cases[7] == faults[3] && cases[8] == faults[4];
    IsFirstCase(cases, if cases[9].0 then 9 else 10);
  }

  /** The entry may come later: the spread is too wide in points, or everything that only gets worse with
      time is in order and the price has run, the spread is wide for the trade, or the quality is low. */
  ghost predicate MayComeLater(s: Setup, bid: real, ask: real, point: real, age: Option<real>, quality: real, cfg: TimingConfig) {
    var d := DistancesOf(s, bid, ask);
    || Times(cfg.maximumSpreadPoints, point) < d.spread
    || (&& (if age.None? then !cfg.requireSignalTime else 0.0 <= age.value <= cfg.maxSignalAgeBars)
        && 0.0 < d.exitAhead && Times(cfg.minRiskRoomAtr, s.atr) <= d.room
        && (|| Times(cfg.maxChaseAtr, s.atr) < d.chase || Times(cfg.maxSpreadAtr, s.atr) < d.spread
            || Times(cfg.maxSpreadToRisk, d.room) < d.spread || !(cfg.minimumQuality <= quality <= 1.0)))
  }

  /** On a quote the stage defers exactly when the entry may come later, and rejects what it neither defers
      nor approves: an outdated signal and an invalidated setup. */
  lemma DeferralExactly(s: Setup, signalTime: Option<real>, m: TimingMarket, cfg: TimingConfig)
    requires cfg.Valid() && Reads(s) && HasQuote(m)
    ensures var q := Quote(m.bid.value, m.ask.value, m.point.value);
            var age := SignalAge(signalTime, m);
            EntryTiming.Evaluate(s, signalTime, m, cfg).status == Deferred <==>
            MayComeLater(s, q.bid, q.ask, q.point, age, Quality(s, q, age, m, cfg), cfg)
  {
    var q := Quote(m.bid.value, m.ask.value, m.point.value);
    var age, r := SignalAge(signalTime, m), EntryTiming.Evaluate(s, signalTime, m, cfg);
    var quality := Quality(s, q, age, m, cfg);
    QuotedExactly(s, signalTime, m, cfg);
    hide EntryTiming.Evaluate, SignalAge, Quality;
    FirstIsDeferred(s, q.bid, q.ask, q.point, age, quality, cfg, (r.status, r.reason));
  }

  lemma FirstIsDeferred(s: Setup, bid: real, ask: real, point: real, age: Option<real>, quality: real, cfg: TimingConfig,
                        answer: (Status, TimingReason))
    requires cfg.Valid() && FirstCase(QuotedCases(s, bid, ask, point, age, quality, cfg), answer)
    ensures answer.0 == Deferred <==> MayComeLater(s, bid, ask, point, age, quality, cfg)
  {
    hide Times, DistancesOf;
    var cases := QuotedCases(s, bid, ask, point, age, quality, cfg);
    var k :| 0 <= k < 11 && cases[k] == (true, answer) && forall j | 0 <= j < k :: !cases[j].0;
    assert k > 0 ==> !cases[0].0;
    assert k > 1 ==> !cases[1].0;
    assert k > 2 ==> !cases[2].0;
    assert k > 3 ==> !cases[3].0;
    assert k > 4 ==> !cases[4].0;
    assert k > 5 ==> !cases[5].0;
    assert k > 6 ==> !cases[6].0;
    assert k > 7 ==> !cases[7].0;
    assert k > 8 ==> !cases[8].0;
    assert k > 9 ==> !cases[9].0;
  }

  /** Without a quote, where none is required, only the reported spread, the age and the quality decide. */
  ghost function UnquotedCases(spread: Option<real>, age: Option<real>, quality: real, cfg: TimingConfig)
    : seq<(bool, (Status, TimingReason))>
  {
    [ (spread.None? || spread.value < 0.0 || cfg.maximumSpreadPoints < spread.value, (Deferred, SpreadOutOfRange)),
      (AgeMissing(age, cfg), (Rejected, SignalTimeUnavailable)),
      (age.Some? && age.value < 0.0, (Rejected, SignalTimeInvalid)),
      (age.Some? && cfg.maxSignalAgeBars < age.value, (Rejected, SignalExpired)),
      (quality < 0.0 || 1.0 < quality || quality < cfg.minimumQuality, (Deferred, EntryQualityTooLow)),
      (true, (Accepted, EntryTimingApproved)) ]
  }

  lemma UnquotedExactly(s: Setup, signalTime: Option<real>, m: TimingMarket, cfg: TimingConfig)
    requires cfg.Valid() && Reads(s) && NoQuote(m) && !cfg.requireQuote
    ensures var age, r := SignalAge(signalTime, m), EntryTiming.Evaluate(s, signalTime, m, cfg);
            var quality := if !cfg.ignoreSuppliedQuality && m.suppliedQuality.Some? then m.suppliedQuality.value
                           else ComputedQuality(s, None, if age.Some? then age.value else 0.0, cfg);
            && FirstCase(UnquotedCases(m.spreadPoints, age, quality, cfg), (r.status, r.reason)) && r.quotePrice == None
  {
    var age := SignalAge(signalTime, m);
    assert SetupOk(s);
    hide SignalAge, ComputedQuality, SetupOk, Ahead;
    var quality := if !cfg.ignoreSuppliedQuality && m.suppliedQuality.Some? then m.suppliedQuality.value
                   else ComputedQuality(s, None, if age.Some? then age.value else 0.0, cfg);
    var cases := UnquotedCases(m.spreadPoints, age, quality, cfg);
    var k := if cases[0].0 then 0 else if cases[1].0 then 1 else if cases[2].0 then 2 else if cases[3].0 then 3
             else if cases[4].0 then 4 else 5;
    IsFirstCase(cases, k);
  }

  /** Behind the gates the computed quality is 1 less what the spread, the chase and the age cost, each in
      proportion to the share of its limit that is used: at most 0.2, 0.175 and 0.25. */
  lemma QualityCosts(s: Setup, q: Quote, age: real, cfg: TimingConfig, spread: real, chase: real, stale: real)
    requires 0.0 < s.atr && cfg.Valid() && 0.0 <= spread <= 1.0 && 0.0 <= chase <= 1.0
    requires q.ask - q.bid == Times(spread, Times(cfg.maxSpreadAtr, s.atr))
    requires Max(Chase(s, q), 0.0) == Times(chase, cfg.maxChaseAtr) && age == Times(stale, cfg.maxSignalAgeBars + 1.0)
    ensures ComputedQuality(s, Some(q), age, cfg) == 1.0 - 0.2 * spread - 0.175 * chase - 0.25 * stale
  {
    ShareOf(spread, cfg.maxSpreadAtr, s.atr);
    QuotientExactly(Times(chase, cfg.maxChaseAtr), cfg.maxChaseAtr, chase);
    QuotientExactly(age, cfg.maxSignalAgeBars + 1.0, stale);
    hide Chase, Times;
  }

  lemma ShareOf(share: real, limit: real, atr: real)
    requires 0.0 < limit && 0.0 < atr
    ensures Times(share, Times(limit, atr)) / atr / limit == share
  {
    var p := share * limit;
    assert Times(share, Times(limit, atr)) == p * atr;
    QuotientExactly(Times(share, Times(limit, atr)), atr, p);
    QuotientExactly(p, limit, share);
  }
}
