/** Accepted thresholds are a fixpoint of validation, every stored set builds the three stages, and on
    them an evaluation can fail only through the listed divisions by zero. */
module ThresholdLaws {
  import opened Wrappers
  import opened Indicators
  import opened Regime
  import opened Detector
  import opened DetectorLaws
  import opened EntryTiming
  import opened RiskSizing
  import opened RiskLaws
  import opened Thresholds

  // ----- What validation accepts -----

  /** The last submitted value of a key. */
  function Submitted(updates: seq<Update>, k: Key): Option<real> {
    if updates == [] then None
    else if updates[|updates| - 1].key == Some(k) then updates[|updates| - 1].raw
    else Submitted(updates[..|updates| - 1], k)
  }

  lemma {:induction false} OverlaidExactly(base: Values, updates: seq<Update>)
    requires Total(base)
    ensures Overlaid(base, updates).Some? <==> forall u | u in updates :: Editable(u)
    ensures Overlaid(base, updates).Some? ==>
              forall k: Key :: k in Overlaid(base, updates).value && Overlaid(base, updates).value[k]
                               == if Submitted(updates, k).Some? then Submitted(updates, k).value else base[k]
  {
    hide InRange;
    if updates != [] {
      var front, last := updates[..|updates| - 1], updates[|updates| - 1];
      OverlaidExactly(base, front);
      assert updates == front + [last];
    }
  }

  lemma {:induction false} SubmittedInRange(updates: seq<Update>, k: Key)
    requires forall u | u in updates :: Editable(u)
    ensures Submitted(updates, k).Some? ==> InRange(k, Submitted(updates, k).value)
  {
    hide InRange;
    if updates != [] {
      var front, last := updates[..|updates| - 1], updates[|updates| - 1];
      assert last in updates;
      SubmittedInRange(front, k);
    }
  }

  /** Total, in range, and consistent. */
  ghost predicate Sound(v: Values) {
    Total(v) && (forall k: Key :: InRange(k, v[k])) && Consistent(v)
  }

  predicate SpecSound(s: Spec) {
    && s.low <= s.demo <= s.high && s.low <= s.standard <= s.high
    && (s.whole ==> IsWhole(s.demo) && IsWhole(s.standard))
  }

  lemma SpecsSound(k: Key)
    ensures SpecSound(SpecOf(k))
  {
  }

  lemma DefaultInRange(p: Profile, k: Key)
    ensures InRange(k, DefaultsFor(p)[k])
  {
    hide SpecOf, IsWhole;
    SpecsSound(k);
  }

  lemma DefaultAt(p: Profile, k: Key, demo: real, standard: real)
    requires SpecOf(k).demo == demo && SpecOf(k).standard == standard
    ensures k in DefaultsFor(p) && DefaultsFor(p)[k] == if p == Demo then demo else standard
  {
  }

  lemma DefaultsConsistent(p: Profile)
    ensures Total(DefaultsFor(p)) && Consistent(DefaultsFor(p))
  {
    DefaultsTotal(p);
    hide DefaultsFor, Total;
    DefaultAt(p, AdxRanging, 8.0, 10.0);
    DefaultAt(p, AdxTrending, 10.0, 12.0);
    DefaultAt(p, MinRetracement, 0.05, 0.20);
    DefaultAt(p, MaxRetracement, 0.95, 0.82);
    DefaultAt(p, AtrRatioMin, 0.6, 0.6);
    DefaultAt(p, AtrRatioMax, 2.5, 2.5);
    DefaultAt(p, MinStopAtr, 0.5, 0.5);
    DefaultAt(p, MaxStopAtr, 3.5, 3.5);
    DefaultAt(p, MaximumRiskPercent, 0.5, 0.5);
    DefaultAt(p, MaxTotalRiskPercent, 2.0, 2.0);
    DefaultAt(p, MinRewardRisk, 1.2, 1.2);
    DefaultAt(p, TargetRewardRisk, 1.25, 1.25);
    hide SpecOf;
  }

  lemma DefaultsSound(p: Profile)
    ensures Sound(DefaultsFor(p))
  {
    DefaultsConsistent(p);
    hide DefaultsFor, InRange, Consistent;
    forall k: Key
      ensures InRange(k, DefaultsFor(p)[k])
    {
      DefaultInRange(p, k);
    }
  }

  /** Acceptance, without the loop: every entry is editable and the overlaid values are consistent; the
      result holds for every key its last submitted value or else the profile's default. */
  lemma ValidatedExactly(updates: seq<Update>, p: Profile)
    ensures Validated(updates, p).Some? <==>
            (forall u | u in updates :: Editable(u)) && Overlaid(DefaultsFor(p), updates).Some?
            && Total(Overlaid(DefaultsFor(p), updates).value) && Consistent(Overlaid(DefaultsFor(p), updates).value)
    ensures Validated(updates, p).Some? ==>
              && Sound(Validated(updates, p).value)
              && forall k: Key :: Validated(updates, p).value[k]
                                  == if Submitted(updates, k).Some? then Submitted(updates, k).value else DefaultsFor(p)[k]
  {
    DefaultsSound(p);
    hide DefaultsFor, Consistent, InRange, Editable;
    OverlaidExactly(DefaultsFor(p), updates);
    if forall u | u in updates :: Editable(u) {
      forall k: Key
        ensures Submitted(updates, k).Some? ==> InRange(k, Submitted(updates, k).value)
      {
        SubmittedInRange(updates, k);
      }
    }
  }

  /** The submission lists exactly these values. */
  ghost predicate Lists(updates: seq<Update>, v: Values) {
    && (forall u | u in updates :: u.key.Some? && u.key.value in v && u.raw == Some(v[u.key.value]))
    && forall k: Key :: Submitted(updates, k).Some?
  }

  lemma {:induction false} ListedValue(updates: seq<Update>, v: Values, k: Key)
    requires Total(v) && forall u | u in updates :: u.key.Some? && u.raw == Some(v[u.key.value])
    ensures Submitted(updates, k).Some? ==> Submitted(updates, k).value == v[k]
  {
    if updates != [] {
      assert updates[|updates| - 1] in updates;
      ListedValue(updates[..|updates| - 1], v, k);
    }
  }

  /** Fixpoint: submitting an accepted set of values again, under either profile, yields the same values. */
  lemma AcceptedIsFixpoint(updates: seq<Update>, p: Profile, again: seq<Update>, q: Profile)
    requires Validated(updates, p).Some? && Lists(again, Validated(updates, p).value)
    ensures Validated(again, q) == Validated(updates, p)
  {
    var v := Validated(updates, p).value;
    ValidatedExactly(updates, p);
    hide Validated, DefaultsFor, Consistent, InRange;
    SoundIsFixpoint(v, again, q);
  }

  lemma SoundIsFixpoint(v: Values, again: seq<Update>, q: Profile)
    requires Sound(v) && Lists(again, v)
    ensures Validated(again, q) == Some(v)
  {
    DefaultsSound(q);
    hide DefaultsFor, Consistent, InRange;
    OverlaidExactly(DefaultsFor(q), again);
    var r := Overlaid(DefaultsFor(q), again);
    assert forall u | u in again :: Editable(u);
    forall k: Key
      ensures k in r.value && r.value[k] == v[k]
    {
      ListedValue(again, v, k);
    }
    assert r.value.Keys == v.Keys;
    assert r.value == v;
  }

  // ----- What is ever stored -----

  datatype Event = Post(profile: Profile, updates: seq<Update>) | Reset(profile: Profile)

  /** The stored row of each profile; None: no values stored. */
  function Next(saved: map<Profile, Values>, e: Event): map<Profile, Values> {
    match e
    case Reset(p) => saved - {p}
    case Post(p, updates) =>
      var v := Validated(updates, p);
      if v.Some? then saved[p := v.value] else saved
  }

  function Run(events: seq<Event>): map<Profile, Values> {
    if events == [] then map[] else Next(Run(events[..|events| - 1]), events[|events| - 1])
  }

  /** What the pipeline is built from: the defaults, overlaid with the stored values without further checks. */
  function Effective(saved: map<Profile, Values>, p: Profile): Values {
    if p in saved then DefaultsFor(p) + saved[p] else DefaultsFor(p)
  }

  lemma {:induction false} StoredIsSound(events: seq<Event>, p: Profile)
    ensures p in Run(events) ==> Sound(Run(events)[p])
  {
    hide Sound, Validated;
    if events != [] {
      var last := events[|events| - 1];
      StoredIsSound(events[..|events| - 1], p);
      if last.Post? {
        ValidatedExactly(last.updates, last.profile);
      }
    }
  }

  /** Whatever is stored relates the thresholds that limit each other the right way round. */
  lemma StoredIsOrdered(events: seq<Event>, p: Profile)
    requires p in Run(events)
    ensures Total(Run(events)[p])
    ensures var v := Run(events)[p];
            && v[AdxRanging] <= v[AdxTrending] && v[MinRetracement] < v[MaxRetracement] && v[AtrRatioMin] < v[AtrRatioMax]
            && v[MinStopAtr] < v[MaxStopAtr] && v[MaximumRiskPercent] <= v[MaxTotalRiskPercent]
            && v[MinRewardRisk] <= v[TargetRewardRisk]
  {
    StoredIsSound(events, p);
    hide Run, InRange;
  }

  lemma OverlayTotal(base: Values, v: Values)
    requires Total(v)
    ensures base + v == v
  {
  }

  lemma EffectiveIsSound(events: seq<Event>, p: Profile)
    ensures Sound(Effective(Run(events), p))
  {
    StoredIsSound(events, p);
    DefaultsSound(p);
    hide Run, DefaultsFor, InRange, Consistent, Total;
    if p in Run(events) {
      OverlayTotal(DefaultsFor(p), Run(events)[p]);
    }
  }

  // ----- The stages built from them -----

  const MIN_BARS := 100

  function Count(x: real): nat {
    if x.Floor < 0 then 0 else x.Floor
  }

  function DetectorConfig(v: Values, lowestSincePriorHigh: bool): Config
    requires Total(v)
  {
    Config(MIN_BARS, 500, 20, 50, 14, 14, 14, 3, 10,
           v[AdxTrending], v[AdxRanging], v[MinEmaSeparationAtr], v[SupportToleranceAtr], Count(v[RegimeLookback]),
           100, v[AtrRatioMin], v[AtrRatioMax], v[MinImpulseAtr], v[MinRetracement], v[MaxRetracement],
           v[ZoneToleranceAtr], Count(v[MaxBarsSincePullbackLow]), v[RsiOverbought],
           Count(v[BreakoutLookback]), v[BreakoutBufferAtr], v[BreakoutRetestToleranceAtr], Count(v[BreakoutMaxRetestBars]),
           lowestSincePriorHigh, true, true)
  }

  function TimerConfig(v: Values, ignoreSuppliedQuality: bool): TimingConfig
    requires Total(v)
  {
    TimingConfig(v[MaxSignalAgeBars], v[MaxChaseAtr], v[MinRiskRoomAtr], v[MaxSpreadAtr], v[MaxSpreadToRisk],
                 true, ignoreSuppliedQuality, v[MinimumQuality], v[MaximumSpreadPoints], true)
  }

  function SizerConfig(v: Values, shortStopSpreadAdjust: bool): RiskConfig
    requires Total(v)
  {
    RiskConfig(v[StopBufferAtr], v[MinStopAtr], v[MaxStopAtr], v[MinRewardRisk], v[TargetRewardRisk],
               v[MaxTotalRiskPercent], true, shortStopSpreadAdjust, v[MaximumRiskPercent])
  }

  /** The checks of the detector's configuration that concern these fields. */
  predicate DetectorBuilds(c: Config, minimumScore: real) {
    && 5 <= c.breakoutLookback && 0.0 <= c.breakoutBufferAtr && 0.0 < c.breakoutRetestToleranceAtr
    && 1 <= c.breakoutMaxRetestBars && c.fastEma < c.slowEma && 1 <= c.slopeLookback && 1 <= c.regimeLookback
    && 2 * c.slowEma <= c.minBars && 3 * c.adxPeriod <= c.minBars && c.atrBaselineBars / 2 <= c.minBars <= c.maxBars
    && 0.0 < c.minRetracement < c.maxRetracement < 1.0
    && 0.0 < c.adxRanging <= c.adxTrending && 0.0 < c.atrRatioMin < c.atrRatioMax
    && 0.0 <= minimumScore <= 1.0
  }

  lemma Bounds(v: Values, k: Key, low: real, high: real)
    requires Sound(v) && SpecOf(k).low == low && SpecOf(k).high == high
    ensures k in v && low <= v[k] <= high
  {
  }

  lemma CountBounds(x: real, low: nat, high: nat)
    requires low as real <= x <= high as real
    ensures low <= Count(x) <= high
  {
  }

  lemma DetectorAccepts(v: Values, lowest: bool)
    requires Sound(v)
    ensures DetectorBuilds(DetectorConfig(v, lowest), v[MinimumScore])
    ensures forall b: Bars | b.Shaped() && MIN_BARS <= b.Count() :: EnoughHistory(b, DetectorConfig(v, lowest))
  {
    assert Total(v) && Consistent(v);
    hide Sound, InRange, Total, Count;
    Bounds(v, BreakoutLookback, 5.0, 100.0);
    Bounds(v, BreakoutBufferAtr, 0.0, 2.0);
    Bounds(v, BreakoutRetestToleranceAtr, 0.05, 3.0);
    Bounds(v, BreakoutMaxRetestBars, 1.0, 30.0);
    Bounds(v, RegimeLookback, 1.0, 50.0);
    Bounds(v, MinRetracement, 0.01, 0.8);
    Bounds(v, MaxRetracement, 0.2, 0.99);
    Bounds(v, AdxRanging, 3.0, 45.0);
    Bounds(v, AtrRatioMin, 0.1, 3.0);
    Bounds(v, MinimumScore, 0.1, 0.95);
    Bounds(v, MinImpulseAtr, 0.1, 10.0);
    Bounds(v, ZoneToleranceAtr, 0.05, 3.0);
    hide SpecOf;
    CountBounds(v[BreakoutLookback], 5, 100);
    CountBounds(v[BreakoutMaxRetestBars], 1, 30);
    CountBounds(v[RegimeLookback], 1, 50);
  }

  lemma TimerAccepts(v: Values, ignore: bool)
    requires Sound(v)
    ensures TimerConfig(v, ignore).Valid()
  {
    hide Sound, InRange, Consistent, Total;
    Bounds(v, MaxSignalAgeBars, 0.0, 10.0);
    Bounds(v, MaxChaseAtr, 0.05, 5.0);
    Bounds(v, MinRiskRoomAtr, 0.01, 3.0);
    Bounds(v, MaxSpreadAtr, 0.01, 2.0);
    Bounds(v, MaxSpreadToRisk, 0.01, 2.0);
    Bounds(v, MinimumQuality, 0.05, 0.95);
    Bounds(v, MaximumSpreadPoints, 1.0, 1000.0);
    hide SpecOf;
  }

  lemma RiskConsistent(v: Values)
    requires Sound(v)
    ensures v[MinStopAtr] < v[MaxStopAtr] && v[MinRewardRisk] <= v[TargetRewardRisk]
  {
  }

  lemma SizerAccepts(v: Values, adjust: bool)
    requires Sound(v)
    ensures SizerConfig(v, adjust).Valid()
  {
    hide Sound, InRange, Total;
    RiskConsistent(v);
    hide Consistent;
    Bounds(v, StopBufferAtr, 0.0, 2.0);
    Bounds(v, MinStopAtr, 0.1, 5.0);
    Bounds(v, MinRewardRisk, 1.2, 3.0);
    Bounds(v, MaxTotalRiskPercent, 0.25, 5.0);
    Bounds(v, MaximumRiskPercent, 0.1, 2.0);
    hide SpecOf;
  }

  /** Whatever was posted and reset before, the stored thresholds build all three stages. */
  lemma StagesAlwaysBuild(events: seq<Event>, p: Profile, lowest: bool, ignore: bool, adjust: bool)
    ensures var v := Effective(Run(events), p);
            && Total(v)
            && DetectorBuilds(DetectorConfig(v, lowest), v[MinimumScore])
            && TimerConfig(v, ignore).Valid()
            && SizerConfig(v, adjust).Valid()
  {
    EffectiveIsSound(events, p);
    var v := Effective(Run(events), p);
    hide Effective, Run, DetectorConfig, TimerConfig, SizerConfig, DetectorBuilds, Consistent, InRange;
    DetectorAccepts(v, lowest);
    TimerAccepts(v, ignore);
    SizerAccepts(v, adjust);
  }

  /** The series is long enough, every index read is in range, and the evaluation raises exactly in the
      listed cases. */
  ghost predicate RaisesOnlyByDivision(b: Bars, cfg: Config, minimumScore: real) {
    && EnoughHistory(b, cfg)
    && var ind, t := IndicationOf(b, cfg), b.Count() - 1;
       && cfg.regimeLookback <= t < |ind.atr| && t < |ind.adx| && t < |ind.rsi|
       && (Technical(b, cfg, minimumScore).Raised? <==>
           ind.atr[t].Some? && ind.adx[t].Some? && ind.rsi[t].Some? && 0.0 < ind.atr[t].value
           && DividesByZero(ind, cfg, t, ind.atr[t].value))
  }

  lemma RaisesOnHistory(cfg: Config, minimumScore: real, b: Bars)
    requires EnoughHistory(b, cfg)
    ensures RaisesOnlyByDivision(b, cfg, minimumScore)
  {
    hide IndicationOf, Technical, DividesByZero;
    IndicationWired(b, cfg);
    RaisesExactly(b, cfg, minimumScore);
  }

  /** With accepted thresholds this holds on every series of the minimum length. */
  lemma AcceptedThresholdsRaiseExactly(v: Values, lowest: bool, b: Bars)
    requires Sound(v) && b.Shaped() && MIN_BARS <= b.Count()
    ensures RaisesOnlyByDivision(b, DetectorConfig(v, lowest), v[MinimumScore])
  {
    hide RaisesOnlyByDivision, InRange, Consistent;
    DetectorAccepts(v, lowest);
    RaisesOnHistory(DetectorConfig(v, lowest), v[MinimumScore], b);
  }

  // ----- The defaults -----

  /** The standard defaults leave an approved entry the minimum stop distance; the demo defaults do not. */
  lemma DefaultRoom()
    ensures Total(DefaultsFor(Standard)) && Total(DefaultsFor(Demo))
    ensures var s, d := DefaultsFor(Standard), DefaultsFor(Demo);
            && s[MinRiskRoomAtr] + s[StopBufferAtr] >= s[MinStopAtr]
            && d[MinRiskRoomAtr] + d[StopBufferAtr] < d[MinStopAtr]
  {
    DefaultsTotal(Standard);
    DefaultsTotal(Demo);
    hide DefaultsFor;
    forall p
      ensures MinRiskRoomAtr in DefaultsFor(p) && StopBufferAtr in DefaultsFor(p) && MinStopAtr in DefaultsFor(p)
              && DefaultsFor(p)[MinRiskRoomAtr] == (if p == Demo then 0.15 else 0.25)
              && DefaultsFor(p)[StopBufferAtr] == 0.25 && DefaultsFor(p)[MinStopAtr] == 0.5
    {
      DefaultAt(p, MinRiskRoomAtr, 0.15, 0.25);
      DefaultAt(p, StopBufferAtr, 0.25, 0.25);
      DefaultAt(p, MinStopAtr, 0.5, 0.5);
    }
  }

  /** So under the standard profile the timing stage rules out every stop failure but one that is too wide. */
  lemma StandardRoom(ignore: bool, adjust: bool)
    ensures Total(DefaultsFor(Standard))
    ensures var timing, cfg := TimerConfig(DefaultsFor(Standard), ignore), SizerConfig(DefaultsFor(Standard), adjust);
            && timing.Valid() && timing.requireQuote && cfg.Valid()
            && timing.minRiskRoomAtr + cfg.stopBufferAtr >= cfg.minStopAtr
  {
    DefaultsSound(Standard);
    DefaultRoom();
    hide DefaultsFor, Sound, Total;
    TimerAccepts(DefaultsFor(Standard), ignore);
    SizerAccepts(DefaultsFor(Standard), adjust);
  }

  /** An entry the timing stage approved under the standard defaults is never refused for a stop that is
      too tight, nor for an invalid setup or an entry beyond the stop. */
  lemma StandardNeverTooTight(ignore: bool, adjust: bool, s: Setup, signalTime: Option<real>, t: TimingMarket, m: RiskMarket)
    requires SameQuote(t, m)
    ensures Total(DefaultsFor(Standard)) && TimerConfig(DefaultsFor(Standard), ignore).Valid()
    ensures var verdict := EntryTiming.Evaluate(s, signalTime, t, TimerConfig(DefaultsFor(Standard), ignore));
            var stop := StructuralStop(s, verdict.quotePrice, m, SizerConfig(DefaultsFor(Standard), adjust));
            verdict.status == Accepted && stop.Failure? ==> stop.error == StopTooWide
  {
    StandardRoom(ignore, adjust);
    var timing, cfg := TimerConfig(DefaultsFor(Standard), ignore), SizerConfig(DefaultsFor(Standard), adjust);
    hide *;
    if EntryTiming.Evaluate(s, signalTime, t, timing).status == Accepted {
      TimingRulesOutStopFailures(s, signalTime, t, timing, m, cfg);
    }
  }
}
