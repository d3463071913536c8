/** The composition of the stages: opportunity, entry timing, risk; and the rule that a deferred
    trade gives its signal back to the detector. */
module Pipeline {
  import opened Wrappers
  import opened Indicators
  import opened Regime
  import opened Detector
  import opened OrderedMemory
  import opened SignalHistory
  import opened SignalVisits
  import opened EntryTiming
  import opened RiskSizing

  // ----- The pipeline -----

  datatype SignalKey = SignalKey(symbol: string, timeframe: string, side: Side, kind: Kind, anchorTime: real)

  /** The forecasts, when consulted, can only veto. */
  datatype Forecast = NotConsulted | Agrees | Vetoes(status: Status)

  datatype Snapshot = Snapshot(bars: Bars, symbol: string, timeframe: string, forecast: Forecast,
                               timing: TimingMarket, risk: RiskMarket)
  {
    ghost predicate Valid() {
      bars.Shaped() && bars.Count() > 0
    }
  }

  datatype Settings = Settings(detector: Config, minimumScore: real, timing: TimingConfig, risk: RiskConfig) {
    predicate Valid() {
      0 < detector.breakoutLookback && detector.breakoutRetestToleranceAtr > 0.0 && timing.Valid() && risk.Valid()
    }
  }

  datatype Opportunity =
    | NoSetup(verdict: Verdict)
    | DuplicateSignal(key: SignalKey)
    | ForecastVeto(status: Status)
    | Signalled(setup: Setup, key: SignalKey, bar: real)

  function KeyOf(s: Snapshot, setup: Setup): SignalKey {
    SignalKey(s.symbol, s.timeframe, setup.side, setup.kind, setup.anchorTime)
  }

  function BarOf(s: Snapshot): real
    requires s.bars.times != []
  {
    s.bars.times[|s.bars.times| - 1]
  }

  /** The setup as the later stages read it: invalidation price and range are rounded to 5 digits. */
  function Reported(setup: Setup): Setup {
    setup.(invalidation := Round5(setup.invalidation), atr := Round5(setup.atr))
  }

  function Admit(m: seq<Entry<SignalKey, real>>, s: Snapshot, verdict: Verdict): Opportunity
    requires s.bars.times != []
  {
    if !verdict.Found? then NoSetup(verdict)
    else
      var key, bar := KeyOf(s, verdict.setup), BarOf(s);
      if Duplicate(m, key, bar) then DuplicateSignal(key)
      else if s.forecast.Vetoes? then ForecastVeto(s.forecast.status)
      else Signalled(Reported(verdict.setup), key, bar)
  }

  datatype Outcome = Outcome(opportunity: Opportunity, timing: Option<Timing>, risk: Risk) {
    predicate Approved() {
      opportunity.Signalled? && timing.Some? && timing.value.status == Accepted && risk.Sized?
    }

    /** Some stage after the opportunity says "not now". */
    predicate Defers() {
      (timing.Some? && timing.value.status == Deferred) || (risk.NotSized? && risk.status == Deferred)
    }

    function Action(): Option<Side> {
      if Approved() then Some(opportunity.setup.side) else None
    }
  }

  function StagesAfter(o: Opportunity, s: Snapshot, c: Settings): Outcome
    requires c.Valid()
  {
    if !o.Signalled? then
      Outcome(o, None, RiskSizing.Evaluate(false, None, None, s.risk, c.risk))
    else
      var timing := EntryTiming.Evaluate(o.setup, Some(o.bar), s.timing, c.timing);
      var risk := RiskSizing.Evaluate(timing.status == Accepted, Some(o.setup), timing.quotePrice, s.risk, c.risk);
      Outcome(o, Some(timing), risk)
  }

  function LaterOf(out: Outcome): Later {
    if out.Approved() then AllApprove else if out.Defers() then SomeDefer else OnlyReject
  }

  function OutcomeOf(m: seq<Entry<SignalKey, real>>, s: Snapshot, c: Settings): Outcome
    requires s.Valid() && c.Valid()
  {
    StagesAfter(Admit(m, s, Technical(s.bars, c.detector, c.minimumScore)), s, c)
  }

  function MemoryAfter(m: seq<Entry<SignalKey, real>>, out: Outcome): seq<Entry<SignalKey, real>> {
    if out.opportunity.Signalled? then VisitStep(m, Visit(out.opportunity.key, out.opportunity.bar, LaterOf(out))) else m
  }

  class SignalFlow {
    const settings: Settings
    const store: SignalStore<SignalKey>

    constructor (settings: Settings, store: SignalStore<SignalKey>)
      ensures this.settings == settings && this.store == store
    {
      this.settings := settings;
      this.store := store;
    }

    method Opportunity(s: Snapshot) returns (o: Opportunity)
      requires s.Valid() && settings.Valid()
      modifies store
      ensures o == Admit(old(store.entries), s, Technical(s.bars, settings.detector, settings.minimumScore))
      ensures store.entries == if o.Signalled? then Remembered(old(store.entries), o.key, o.bar, CAPACITY) else old(store.entries)
    {
      var ind := ComputeIndicators(s.bars, settings.detector);
      IndicationWired(s.bars, settings.detector);
      var verdict := Judged(s.bars, ind, settings.detector, settings.minimumScore);
      hide IndicationOf, Judged;
      if !verdict.Found? {
        return NoSetup(verdict);
      }
      var key, bar := KeyOf(s, verdict.setup), BarOf(s);
      var earlier := store.Get(key);
      if earlier.Some? && earlier != Some(bar) {
        return DuplicateSignal(key);
      }
      if s.forecast.Vetoes? {
        return ForecastVeto(s.forecast.status);
      }
      store.Accept(key, bar);
      return Signalled(Reported(verdict.setup), key, bar);
    }

    /** Evaluate the stages in order; give the signal back when a later stage deferred. */
    method Run(s: Snapshot) returns (out: Outcome)
      requires s.Valid() && settings.Valid()
      modifies store
      ensures out == OutcomeOf(old(store.entries), s, settings)
      ensures store.entries == MemoryAfter(old(store.entries), out)
    {
      hide Technical;
      var o := Opportunity(s);
      out := StagesAfter(o, s, settings);
      hide EntryTiming.Evaluate, RiskSizing.Evaluate;
      if o.Signalled? && !out.Approved() {
        if out.Defers() {
          var _ := store.Release(o.key, Some(o.bar));
        }
      }
    }
  }

  // ----- Runs of the pipeline are runs of visits -----

  ghost predicate AllValid(ss: seq<Snapshot>) {
    forall i | 0 <= i < |ss| :: ss[i].Valid()
  }

  ghost function RunAll(ss: seq<Snapshot>, c: Settings): seq<Entry<SignalKey, real>>
    requires AllValid(ss) && c.Valid()
  {
    if ss == [] then []
    else
      var m := RunAll(ss[..|ss| - 1], c);
      MemoryAfter(m, OutcomeOf(m, ss[|ss| - 1], c))
  }

  /** The signal a snapshot brings to the memory, whatever the memory holds. */
  function Offered(s: Snapshot, c: Settings): Option<(SignalKey, real)>
    requires s.bars.Shaped() && s.bars.Count() > 0 && c.Valid()
  {
    var verdict := Technical(s.bars, c.detector, c.minimumScore);
    if verdict.Found? && !s.forecast.Vetoes? then Some((KeyOf(s, verdict.setup), BarOf(s))) else None
  }

  function VisitAt(m: seq<Entry<SignalKey, real>>, s: Snapshot, c: Settings): Visit<SignalKey>
    requires s.bars.Shaped() && s.bars.Count() > 0 && c.Valid()
  {
    match Offered(s, c)
    case None => Idle
    case Some((key, bar)) => Visit(key, bar, LaterOf(OutcomeOf(m, s, c)))
  }

  /** One visit per snapshot. */
  ghost function VisitsOf(ss: seq<Snapshot>, c: Settings): (vs: seq<Visit<SignalKey>>)
    requires AllValid(ss) && c.Valid()
    ensures |vs| == |ss|
  {
    if ss == [] then []
    else VisitsOf(ss[..|ss| - 1], c) + [VisitAt(RunAll(ss[..|ss| - 1], c), ss[|ss| - 1], c)]
  }

  /** An offer is signalled unless the memory holds its key with another bar. */
  lemma OfferExactly(m: seq<Entry<SignalKey, real>>, s: Snapshot, c: Settings)
    requires s.Valid() && c.Valid()
    ensures var out := OutcomeOf(m, s, c);
            && (out.opportunity.Signalled? <==>
                Offered(s, c).Some? && !Duplicate(m, Offered(s, c).value.0, Offered(s, c).value.1))
            && (out.opportunity.Signalled? ==> Offered(s, c) == Some((out.opportunity.key, out.opportunity.bar)))
            && (out.Approved() ==> out.opportunity.Signalled?)
            && MemoryAfter(m, out) == VisitStep(m, VisitAt(m, s, c))
  {
    OutcomeOpportunity(m, s, c);
    hide Technical, StagesAfter, Duplicate, Remembered, Forgotten;
  }

  lemma {:induction false} RunsAreVisits(ss: seq<Snapshot>, c: Settings)
    requires AllValid(ss) && c.Valid()
    ensures RunAll(ss, c) == Visits(VisitsOf(ss, c))
  {
    hide OutcomeOf, VisitStep, VisitAt;
    if ss != [] {
      var before := ss[..|ss| - 1];
      RunsAreVisits(before, c);
      OfferExactly(RunAll(before, c), ss[|ss| - 1], c);
      assert VisitsOf(ss, c)[..|ss| - 1] == VisitsOf(before, c);
    }
  }

  ghost function OutcomeAt(ss: seq<Snapshot>, n: nat, c: Settings): Outcome
    requires AllValid(ss) && c.Valid() && n < |ss|
  {
    OutcomeOf(RunAll(ss[..n], c), ss[n], c)
  }

  lemma {:induction false} VisitsAlign(ss: seq<Snapshot>, n: nat, c: Settings)
    requires AllValid(ss) && c.Valid() && n <= |ss|
    ensures VisitsOf(ss, c)[..n] == VisitsOf(ss[..n], c)
    ensures n < |ss| ==> VisitsOf(ss, c)[n] == VisitAt(RunAll(ss[..n], c), ss[n], c)
    decreases |ss|
  {
    hide VisitAt, RunAll;
    if n == |ss| {
      assert ss[..n] == ss;
    } else {
      var front := ss[..|ss| - 1];
      VisitsAlign(front, n, c);
      assert front[..n] == ss[..n];
      assert n < |front| ==> front[n] == ss[n];
    }
  }

  /** What the abstract visit says about the evaluation with its number. */
  lemma EvaluationIsVisit(ss: seq<Snapshot>, n: nat, c: Settings)
    requires AllValid(ss) && c.Valid() && n < |ss|
    ensures var vs, out := VisitsOf(ss, c), OutcomeAt(ss, n, c);
            && (vs[n].Visit? <==> Offered(ss[n], c).Some?)
            && (vs[n].Visit? ==> Offered(ss[n], c) == Some((vs[n].key, vs[n].bar)) && vs[n].later == LaterOf(out))
            && (Admitted(vs, n) <==> out.opportunity.Signalled?)
            && (Admitted(vs, n) ==> out.opportunity.key == vs[n].key && out.opportunity.bar == vs[n].bar)
            && (ApprovedAt(vs, n) <==> out.Approved())
  {
    VisitsAlign(ss, n, c);
    RunsAreVisits(ss[..n], c);
    OfferExactly(RunAll(ss[..n], c), ss[n], c);
    hide OutcomeOf, Offered, VisitsOf, RunAll, Duplicate, Visits;
  }

  // ----- When a signal is taken up on another bar -----

  /** Evaluation j signals the approved signal of evaluation i on another bar. */
  ghost predicate SignalsAgain(ss: seq<Snapshot>, i: nat, j: nat, c: Settings)
    requires AllValid(ss) && c.Valid() && i < |ss| && OutcomeAt(ss, i, c).opportunity.Signalled? && j < |ss|
  {
    var first, again := OutcomeAt(ss, i, c).opportunity, OutcomeAt(ss, j, c).opportunity;
    i < j && again.Signalled? && again.key == first.key && again.bar != first.bar
  }

  /** A snapshot offers the same signal on the same bar. */
  ghost predicate OffersSame(ss: seq<Snapshot>, i: nat, e: nat, c: Settings)
    requires AllValid(ss) && c.Valid() && i < |ss| && OutcomeAt(ss, i, c).opportunity.Signalled? && e < |ss|
  {
    Offered(ss[e], c) == Some((OutcomeAt(ss, i, c).opportunity.key, OutcomeAt(ss, i, c).opportunity.bar))
  }

  ghost predicate Deferred(ss: seq<Snapshot>, d: nat, c: Settings)
    requires AllValid(ss) && c.Valid() && d < |ss|
  {
    LaterOf(OutcomeAt(ss, d, c)) == SomeDefer
  }

  /** Evaluation d of the same bar was deferred, none of that bar since was anything else, and snapshot e
      offers the signal on another bar. */
  ghost predicate ReopenedBy(ss: seq<Snapshot>, i: nat, d: nat, e: nat, c: Settings)
    requires AllValid(ss) && c.Valid() && i < |ss| && OutcomeAt(ss, i, c).opportunity.Signalled? && e < |ss|
  {
    var first := OutcomeAt(ss, i, c).opportunity;
    && i < d < e && OffersSame(ss, i, d, c) && Deferred(ss, d, c)
    && (forall x | d < x < e && OffersSame(ss, i, x, c) :: Deferred(ss, x, c))
    && Offered(ss[e], c).Some? && Offered(ss[e], c).value.0 == first.key && Offered(ss[e], c).value.1 != first.bar
  }

  lemma AgainIsAdmitted(ss: seq<Snapshot>, i: nat, j: nat, c: Settings)
    requires AllValid(ss) && c.Valid() && i < |ss| && OutcomeAt(ss, i, c).Approved() && j < |ss|
    ensures ApprovedAt(VisitsOf(ss, c), i)
    ensures SignalsAgain(ss, i, j, c) <==> OtherAdmitted(VisitsOf(ss, c), i, j)
  {
    EvaluationIsVisit(ss, i, c);
    EvaluationIsVisit(ss, j, c);
    hide VisitsOf, OutcomeAt, Offered, Visits;
  }

  lemma ReopenedIsReopens(ss: seq<Snapshot>, i: nat, d: nat, e: nat, c: Settings)
    requires AllValid(ss) && c.Valid() && i < |ss| && OutcomeAt(ss, i, c).Approved() && d < e < |ss|
    ensures ApprovedAt(VisitsOf(ss, c), i)
    ensures ReopenedBy(ss, i, d, e, c) <==> Reopens(VisitsOf(ss, c), i, d, e)
  {
    hide VisitsOf, OutcomeAt, Offered, Visits, LaterOf;
    var vs := VisitsOf(ss, c);
    EvaluationIsVisit(ss, i, c);
    EvaluationIsVisit(ss, e, c);
    forall x | d <= x < e
      ensures OffersSame(ss, i, x, c) <==> IsVisit(vs[x], vs[i].key, vs[i].bar)
      ensures IsVisit(vs[x], vs[i].key, vs[i].bar) ==> (Deferred(ss, x, c) <==> vs[x].later == SomeDefer)
    {
      EvaluationIsVisit(ss, x, c);
    }
    hide Admitted, ApprovedAt, IsVisit, OffersSame, Deferred;
  }

  /** Over every run of evaluations with at most 512 signals: after an approval, its signal is taken up on
      another bar exactly when another bar offers it after an evaluation of its own bar was deferred and
      none of that bar since was kept. */
  lemma SignalTakenAgainExactly(ss: seq<Snapshot>, i: nat, n: nat, c: Settings)
    requires AllValid(ss) && c.Valid() && i < n <= |ss| && OutcomeAt(ss, i, c).Approved()
    requires |KeysSeen(VisitsOf(ss, c))| <= CAPACITY
    ensures (exists j | i < j < n :: SignalsAgain(ss, i, j, c)) <==> (exists d, e | i < d < e < n :: ReopenedBy(ss, i, d, e, c))
  {
    AgainIsAdmitted(ss, i, i, c);
    var vs := VisitsOf(ss, c);
    hide VisitsOf, OutcomeAt, KeysSeen, ApprovedAt;
    OtherBarAdmittedExactly(vs, i, n);
    forall j | i < j < n
      ensures SignalsAgain(ss, i, j, c) <==> OtherAdmitted(vs, i, j)
    {
      AgainIsAdmitted(ss, i, j, c);
    }
    forall d, e | i < d < e < n
      ensures ReopenedBy(ss, i, d, e, c) <==> Reopens(vs, i, d, e)
    {
      ReopenedIsReopens(ss, i, d, e, c);
    }
    hide SignalsAgain, OtherAdmitted, ReopenedBy, Reopens;
  }

  lemma OutcomeOpportunity(m: seq<Entry<SignalKey, real>>, s: Snapshot, c: Settings)
    requires s.Valid() && c.Valid()
    ensures OutcomeOf(m, s, c).opportunity == Admit(m, s, Technical(s.bars, c.detector, c.minimumScore))
  {
    hide Technical, EntryTiming.Evaluate, RiskSizing.Evaluate;
  }
}
