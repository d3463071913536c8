/** Stage 2: is an approved setup timely enough to enter now? A chain of gates over a live quote. */
module EntryTiming {
  import opened Wrappers
  import opened RealMath
  import opened Detector

  datatype TimingConfig = TimingConfig(
    maxSignalAgeBars: real, maxChaseAtr: real, minRiskRoomAtr: real, maxSpreadAtr: real, maxSpreadToRisk: real,
    requireSignalTime: bool, ignoreSuppliedQuality: bool,
    minimumQuality: real, maximumSpreadPoints: real, requireQuote: bool)
  {
    /** The checks of the configuration's and the timer's constructors. */
    predicate Valid() {
      && 0.0 <= maxSignalAgeBars
      && 0.0 < maxChaseAtr && 0.0 < minRiskRoomAtr && 0.0 < maxSpreadAtr && 0.0 < maxSpreadToRisk
      && 0.0 <= minimumQuality <= 1.0 && 0.0 < maximumSpreadPoints
    }
  }

  /** The quote and clock of one evaluation; None is a value not supplied. */
  datatype TimingMarket = TimingMarket(
    bid: Option<real>, ask: Option<real>, point: Option<real>, spreadPoints: Option<real>,
    suppliedQuality: Option<real>, latestBarTime: Option<real>, barSeconds: Option<real>)

  datatype Quote = Quote(bid: real, ask: real, point: real) {
    predicate Valid() {
      0.0 < bid <= ask && 0.0 < point
    }

    /** The price a market order in this direction fills at. */
    function Entry(side: Side): real {
      if side == Buy then ask else bid
    }

    /** The price that closes it again. */
    function Exit(side: Side): real {
      if side == Buy then bid else ask
    }
  }

  datatype TimingReason =
    | TimingSetupInvalid | InvalidQuote | QuoteRequired | SpreadOutOfRange
    | SignalTimeUnavailable | SignalTimeInvalid | SignalExpired
    | SetupInvalidated | TooCloseToInvalidation | PriceExtendedFromSignal
    | SpreadTooWideForVolatility | SpreadTooLargeVsRisk | EntryQualityTooLow | EntryTimingApproved

  datatype Timing = Timing(status: Status, reason: TimingReason, quotePrice: Option<real>)

  function Sign(side: Side): real {
    if side == Buy then 1.0 else -1.0
  }

  /** Distance from b up to a in the trade direction. */
  function Ahead(side: Side, a: real, b: real): real {
    (a - b) * Sign(side)
  }

  predicate SetupOk(s: Setup) {
    0.0 < s.atr && 0.0 < s.reference && 0.0 < s.invalidation && 0.0 < Ahead(s.side, s.reference, s.invalidation)
  }

  function ReadQuote(m: TimingMarket): Result<Option<Quote>, TimingReason> {
    match (m.bid, m.ask, m.point)
    case (None, None, None) => Success(None)
    case (Some(bid), Some(ask), Some(point)) =>
      if Quote(bid, ask, point).Valid() then Success(Some(Quote(bid, ask, point))) else Failure(InvalidQuote)
    case _ => Failure(InvalidQuote)
  }

  /** Completed bars between the signal bar and the newest bar. */
  function SignalAge(signalTime: Option<real>, m: TimingMarket): Option<real> {
    var signal :- signalTime;
    var latest :- m.latestBarTime;
    var interval :- m.barSeconds;
    if interval <= 0.0 then None else Some((latest - signal) / interval)
  }

  function Spread(q: Option<Quote>, m: TimingMarket): Option<real>
    requires q.Some? ==> q.value.Valid()
  {
    if q.Some? then Some((q.value.ask - q.value.bid) / q.value.point) else m.spreadPoints
  }

  /** The first failing price gate. */
  function PriceGate(s: Setup, q: Quote, cfg: TimingConfig): Option<(Status, TimingReason)>
    requires SetupOk(s) && q.Valid() && cfg.Valid()
  {
    var room := Ahead(s.side, q.Entry(s.side), s.invalidation);
    if Ahead(s.side, q.Exit(s.side), s.invalidation) <= 0.0 then Some((Rejected, SetupInvalidated))
    else if room / s.atr < cfg.minRiskRoomAtr then Some((Rejected, TooCloseToInvalidation))
    else if Chase(s, q) > cfg.maxChaseAtr then Some((Deferred, PriceExtendedFromSignal))
    else if (q.ask - q.bid) / s.atr > cfg.maxSpreadAtr then Some((Deferred, SpreadTooWideForVolatility))
    else
      assert 0.0 < room;
      if (q.ask - q.bid) / room > cfg.maxSpreadToRisk then Some((Deferred, SpreadTooLargeVsRisk)) else None
  }

  function Chase(s: Setup, q: Quote): real
    requires 0.0 < s.atr
  {
    Ahead(s.side, q.Entry(s.side), s.reference) / s.atr
  }

  function ComputedQuality(s: Setup, q: Option<Quote>, age: real, cfg: TimingConfig): real
    requires 0.0 < s.atr && cfg.Valid()
  {
    var freshness := 1.0 - age / (cfg.maxSignalAgeBars + 1.0);
    var spreadScore := match q case None => 0.75
                               case Some(x) => 1.0 - 0.5 * Clip((x.ask - x.bid) / s.atr / cfg.maxSpreadAtr);
    var location := match q case None => 0.75
                            case Some(x) => 1.0 - 0.5 * Clip(Max(Chase(s, x), 0.0) / cfg.maxChaseAtr);
    0.4 * spreadScore + 0.35 * location + 0.25 * freshness
  }

  function QualityGate(s: Setup, q: Option<Quote>, age: real, m: TimingMarket, cfg: TimingConfig): Timing
    requires 0.0 < s.atr && cfg.Valid()
  {
    var quality :=
      if !cfg.ignoreSuppliedQuality && m.suppliedQuality.Some? then m.suppliedQuality.value
      else ComputedQuality(s, q, age, cfg);
    var price := if q.Some? then Some(q.value.Entry(s.side)) else None;
    if !(0.0 <= quality <= 1.0) || quality < cfg.minimumQuality then Timing(Deferred, EntryQualityTooLow, price)
    else Timing(Accepted, EntryTimingApproved, price)
  }

  function FreshnessGate(age: Option<real>, cfg: TimingConfig): Option<TimingReason> {
    if age.None? then (if cfg.requireSignalTime then Some(SignalTimeUnavailable) else None)
    else if age.value < 0.0 then Some(SignalTimeInvalid)
    else if age.value > cfg.maxSignalAgeBars then Some(SignalExpired)
    else None
  }

  /** The verdict of the timing stage on a structured setup. */
  function Evaluate(s: Setup, signalTime: Option<real>, m: TimingMarket, cfg: TimingConfig): Timing
    requires cfg.Valid()
  {
    if !SetupOk(s) then Timing(Rejected, TimingSetupInvalid, None)
    else
      match ReadQuote(m)
      case Failure(reason) => Timing(Rejected, reason, None)
      case Success(q) =>
        if q.None? && cfg.requireQuote then Timing(Rejected, QuoteRequired, None)
        else
          var price := if q.Some? then Some(q.value.Entry(s.side)) else None;
          var spread := Spread(q, m);
          if spread.None? || spread.value < 0.0 || spread.value > cfg.maximumSpreadPoints then
            Timing(Deferred, SpreadOutOfRange, price)
          else
            var age := SignalAge(signalTime, m);
            match FreshnessGate(age, cfg)
            case Some(reason) => Timing(Rejected, reason, price)
            case None =>
              var gate := if q.Some? then PriceGate(s, q.value, cfg) else None;
              match gate
              case Some((status, reason)) => Timing(status, reason, price)
              case None => QualityGate(s, q, if age.Some? then age.value else 0.0, m, cfg)
  }

  // ----- Laws -----

  /** An approval on a quote leaves the entry at least minRiskRoomAtr average ranges on the
      protective side of the invalidation level, and reports that entry price; the price the position
      would exit at is on that side too. */
  lemma ApprovalLeavesRoom(s: Setup, signalTime: Option<real>, m: TimingMarket, cfg: TimingConfig)
    requires cfg.Valid() && cfg.requireQuote
    requires Evaluate(s, signalTime, m, cfg).status == Accepted
    ensures SetupOk(s)
    ensures m.bid.Some? && m.ask.Some? && m.point.Some? && Quote(m.bid.value, m.ask.value, m.point.value).Valid()
    ensures var entry := Quote(m.bid.value, m.ask.value, m.point.value).Entry(s.side);
            && Evaluate(s, signalTime, m, cfg).quotePrice == Some(entry)
            && 0.0 < entry
            && cfg.minRiskRoomAtr * s.atr <= Ahead(s.side, entry, s.invalidation)
    ensures 0.0 < Ahead(s.side, Quote(m.bid.value, m.ask.value, m.point.value).Exit(s.side), s.invalidation)
  {
  }

  /** The quality an evaluation ranks by. */
  function Quality(s: Setup, q: Quote, age: Option<real>, m: TimingMarket, cfg: TimingConfig): real
    requires 0.0 < s.atr && cfg.Valid()
  {
    if !cfg.ignoreSuppliedQuality && m.suppliedQuality.Some? then m.suppliedQuality.value
    else ComputedQuality(s, Some(q), if age.Some? then age.value else 0.0, cfg)
  }

  /** What a tradable moment is, in prices and without an order among the conditions. */
  ghost predicate Tradable(s: Setup, q: Quote, age: Option<real>, quality: real, cfg: TimingConfig) {
    && q.ask - q.bid <= cfg.maximumSpreadPoints * q.point
    && (if age.None? then !cfg.requireSignalTime else 0.0 <= age.value <= cfg.maxSignalAgeBars)
    && PricesOk(Ahead(s.side, q.Exit(s.side), s.invalidation), Ahead(s.side, q.Entry(s.side), s.invalidation),
                Ahead(s.side, q.Entry(s.side), s.reference), q.ask - q.bid, s.atr, cfg)
    && cfg.minimumQuality <= quality <= 1.0
  }

  /** The price conditions, with room and chase measured from the entry price. */
  ghost predicate PricesOk(exitAhead: real, room: real, chase: real, spread: real, atr: real, cfg: TimingConfig) {
    && 0.0 < exitAhead && cfg.minRiskRoomAtr * atr <= room && chase <= cfg.maxChaseAtr * atr
    && spread <= cfg.maxSpreadAtr * atr && spread <= cfg.maxSpreadToRisk * room
  }

  lemma RatiosExactly(exitAhead: real, room: real, chase: real, spread: real, atr: real, cfg: TimingConfig)
    requires 0.0 < atr && 0.0 < room
    ensures PricesOk(exitAhead, room, chase, spread, atr, cfg) <==>
            && 0.0 < exitAhead && !(room / atr < cfg.minRiskRoomAtr) && !(chase / atr > cfg.maxChaseAtr)
            && !(spread / atr > cfg.maxSpreadAtr) && !(spread / room > cfg.maxSpreadToRisk)
  {
    assert room / atr < cfg.minRiskRoomAtr <==> room < cfg.minRiskRoomAtr * atr by { RatioAgainst(room, atr, cfg.minRiskRoomAtr); }
    assert chase / atr > cfg.maxChaseAtr <==> chase > cfg.maxChaseAtr * atr by { RatioAgainst(chase, atr, cfg.maxChaseAtr); }
    assert spread / atr > cfg.maxSpreadAtr <==> spread > cfg.maxSpreadAtr * atr by { RatioAgainst(spread, atr, cfg.maxSpreadAtr); }
    assert spread / room > cfg.maxSpreadToRisk <==> spread > cfg.maxSpreadToRisk * room by { RatioAgainst(spread, room, cfg.maxSpreadToRisk); }
  }

  lemma PriceGateExactly(s: Setup, q: Quote, cfg: TimingConfig)
    requires SetupOk(s) && q.Valid() && cfg.Valid()
    ensures PriceGate(s, q, cfg) == None <==>
            PricesOk(Ahead(s.side, q.Exit(s.side), s.invalidation), Ahead(s.side, q.Entry(s.side), s.invalidation),
                     Ahead(s.side, q.Entry(s.side), s.reference), q.ask - q.bid, s.atr, cfg)
  {
    var exitAhead, room := Ahead(s.side, q.Exit(s.side), s.invalidation), Ahead(s.side, q.Entry(s.side), s.invalidation);
    assert exitAhead <= room;
    hide Ahead, Quote.Entry, Quote.Exit;
    if 0.0 < exitAhead {
      RatiosExactly(exitAhead, room, Ahead(s.side, q.Entry(s.side), s.reference), q.ask - q.bid, s.atr, cfg);
      hide PricesOk;
    }
  }

  /** Past the quote, the verdict is the conjunction of the gates. */
  lemma AcceptedExactly(s: Setup, signalTime: Option<real>, m: TimingMarket, q: Quote, cfg: TimingConfig)
    requires cfg.Valid() && SetupOk(s) && q.Valid() && ReadQuote(m) == Success(Some(q))
    ensures var age := SignalAge(signalTime, m);
            Evaluate(s, signalTime, m, cfg).status == Accepted <==>
            && 0.0 <= Spread(Some(q), m).value <= cfg.maximumSpreadPoints
            && FreshnessGate(age, cfg) == None && PriceGate(s, q, cfg) == None
            && cfg.minimumQuality <= Quality(s, q, age, m, cfg) <= 1.0
  {
    assert Spread(Some(q), m).Some?;
    assert 0.0 <= cfg.minimumQuality;
    hide ReadQuote, SignalAge, ComputedQuality, Spread, FreshnessGate;
    assert PriceGate(s, q, cfg).Some? ==> PriceGate(s, q, cfg).value.0 != Accepted;
    hide PriceGate;
  }

  /** With a valid required quote, approval is exactly tradability. */
  lemma ApprovalExactly(s: Setup, signalTime: Option<real>, m: TimingMarket, q: Quote, cfg: TimingConfig)
    requires cfg.Valid() && cfg.requireQuote && SetupOk(s) && q.Valid()
    requires m.bid == Some(q.bid) && m.ask == Some(q.ask) && m.point == Some(q.point)
    ensures var age := SignalAge(signalTime, m);
            Evaluate(s, signalTime, m, cfg).status == Accepted <==> Tradable(s, q, age, Quality(s, q, age, m, cfg), cfg)
  {
    assert ReadQuote(m) == Success(Some(q));
    AcceptedExactly(s, signalTime, m, q, cfg);
    PriceGateExactly(s, q, cfg);
    RatioAgainst(q.ask - q.bid, q.point, cfg.maximumSpreadPoints);
    assert 0.0 <= (q.ask - q.bid) / q.point;
    hide Evaluate, ReadQuote, PriceGate, SignalAge, Quality, Ahead, Quote.Entry, Quote.Exit, PricesOk;
  }

  /** A quality computed behind the gates is above three eighths and at most 1. */
  lemma ComputedQualityRange(s: Setup, q: Quote, age: real, cfg: TimingConfig)
    requires SetupOk(s) && q.Valid() && cfg.Valid() && 0.0 <= age <= cfg.maxSignalAgeBars
    ensures 0.375 < ComputedQuality(s, Some(q), age, cfg) <= 1.0
  {
    var n := cfg.maxSignalAgeBars + 1.0;
    assert age < n;
    assert 0.0 <= age / n < 1.0;
  }

  /** A wider spread, a longer chase or an older signal never raises the computed quality. */
  lemma ComputedQualityMonotone(s: Setup, q: Quote, p: Quote, age: real, older: real, cfg: TimingConfig)
    requires SetupOk(s) && q.Valid() && p.Valid() && cfg.Valid() && age <= older
    requires q.ask - q.bid <= p.ask - p.bid && Chase(s, q) <= Chase(s, p)
    ensures ComputedQuality(s, Some(p), older, cfg) <= ComputedQuality(s, Some(q), age, cfg)
  {
    DivideMonotone(age, older, cfg.maxSignalAgeBars + 1.0);
    DivideMonotone(q.ask - q.bid, p.ask - p.bid, s.atr);
    DivideMonotone((q.ask - q.bid) / s.atr, (p.ask - p.bid) / s.atr, cfg.maxSpreadAtr);
    DivideMonotone(Max(Chase(s, q), 0.0), Max(Chase(s, p), 0.0), cfg.maxChaseAtr);
    hide Chase;
  }
}
