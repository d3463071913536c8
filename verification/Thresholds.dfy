/** The editable strategy thresholds: what an accepted set of values looks like, and that every set the
    endpoint can ever have stored builds all three stages. */
module Thresholds {
  import opened Wrappers

  datatype Profile = Demo | Standard

  datatype Key =
    | MinimumScore | AdxTrending | AdxRanging | RegimeLookback | MinEmaSeparationAtr | SupportToleranceAtr
    | AtrRatioMin | AtrRatioMax | MinImpulseAtr | MinRetracement | MaxRetracement | ZoneToleranceAtr
    | MaxBarsSincePullbackLow | RsiOverbought | BreakoutLookback | BreakoutBufferAtr | BreakoutRetestToleranceAtr
    | BreakoutMaxRetestBars
    | MinimumQuality | MaximumSpreadPoints | MaxSignalAgeBars | MaxChaseAtr | MinRiskRoomAtr | MaxSpreadAtr | MaxSpreadToRisk
    | StopBufferAtr | MinStopAtr | MaxStopAtr | MaximumRiskPercent | MaxTotalRiskPercent | TargetRewardRisk | MinRewardRisk

  datatype Spec = Spec(low: real, high: real, whole: bool, demo: real, standard: real)

  /** Bounds, whether the step is 1, and the two default values. */
  function SpecOf(k: Key): Spec {
    match k
    case MinimumScore => Spec(0.10, 0.95, false, 0.42, 0.55)
    case AdxTrending => Spec(5.0, 50.0, false, 10.0, 12.0)
    case AdxRanging => Spec(3.0, 45.0, false, 8.0, 10.0)
    case RegimeLookback => Spec(1.0, 50.0, true, 8.0, 8.0)
    case MinEmaSeparationAtr => Spec(0.01, 2.0, false, 0.06, 0.20)
    case SupportToleranceAtr => Spec(0.05, 3.0, false, 1.0, 0.65)
    case AtrRatioMin => Spec(0.1, 3.0, false, 0.6, 0.6)
    case AtrRatioMax => Spec(0.2, 6.0, false, 2.5, 2.5)
    case MinImpulseAtr => Spec(0.1, 10.0, false, 0.8, 1.5)
    case MinRetracement => Spec(0.01, 0.8, false, 0.05, 0.20)
    case MaxRetracement => Spec(0.2, 0.99, false, 0.95, 0.82)
    case ZoneToleranceAtr => Spec(0.05, 3.0, false, 0.9, 0.40)
    case MaxBarsSincePullbackLow => Spec(1.0, 100.0, true, 16.0, 8.0)
    case RsiOverbought => Spec(55.0, 95.0, true, 85.0, 75.0)
    case BreakoutLookback => Spec(5.0, 100.0, true, 12.0, 20.0)
    case BreakoutBufferAtr => Spec(0.0, 2.0, false, 0.0, 0.10)
    case BreakoutRetestToleranceAtr => Spec(0.05, 3.0, false, 0.5, 0.25)
    case BreakoutMaxRetestBars => Spec(1.0, 30.0, true, 6.0, 3.0)
    case MinimumQuality => Spec(0.05, 0.95, false, 0.42, 0.55)
    case MaximumSpreadPoints => Spec(1.0, 1000.0, true, 100.0, 80.0)
    case MaxSignalAgeBars => Spec(0.0, 10.0, false, 1.5, 1.0)
    case MaxChaseAtr => Spec(0.05, 5.0, false, 0.85, 0.5)
    case MinRiskRoomAtr => Spec(0.01, 3.0, false, 0.15, 0.25)
    case MaxSpreadAtr => Spec(0.01, 2.0, false, 0.30, 0.20)
    case MaxSpreadToRisk => Spec(0.01, 2.0, false, 0.40, 0.25)
    case StopBufferAtr => Spec(0.0, 2.0, false, 0.25, 0.25)
    case MinStopAtr => Spec(0.1, 5.0, false, 0.5, 0.5)
    case MaxStopAtr => Spec(0.5, 10.0, false, 3.5, 3.5)
    case MaximumRiskPercent => Spec(0.1, 2.0, false, 0.5, 0.5)
    case MaxTotalRiskPercent => Spec(0.25, 5.0, false, 2.0, 2.0)
    case TargetRewardRisk => Spec(1.2, 5.0, false, 1.25, 1.25)
    case MinRewardRisk => Spec(1.2, 3.0, false, 1.2, 1.2)
  }

  type Values = map<Key, real>

  function DefaultsFor(p: Profile): Values {
    map k: Key :: if p == Demo then SpecOf(k).demo else SpecOf(k).standard
  }

  /** One submitted entry: key is None for an unknown group or key, raw for what is not a number. */
  datatype Update = Update(key: Option<Key>, raw: Option<real>)

  predicate IsWhole(x: real) {
    x.Floor as real == x
  }

  predicate InRange(k: Key, x: real) {
    SpecOf(k).low <= x <= SpecOf(k).high && (SpecOf(k).whole ==> IsWhole(x))
  }

  predicate Editable(u: Update) {
    u.key.Some? && u.raw.Some? && InRange(u.key.value, u.raw.value)
  }

  predicate Total(v: Values) {
    forall k: Key :: k in v
  }

  /** The checks that relate two thresholds. */
  predicate Consistent(v: Values)
    requires Total(v)
  {
    && v[AdxRanging] <= v[AdxTrending]
    && v[MinRetracement] < v[MaxRetracement]
    && v[AtrRatioMin] < v[AtrRatioMax]
    && v[MinStopAtr] < v[MaxStopAtr]
    && v[MaximumRiskPercent] <= v[MaxTotalRiskPercent]
    && v[MinRewardRisk] <= v[TargetRewardRisk]
  }

  /** The defaults overlaid with the updates in turn; None once an update is refused. */
  function Overlaid(base: Values, updates: seq<Update>): Option<Values> {
    if updates == [] then Some(base)
    else
      var v :- Overlaid(base, updates[..|updates| - 1]);
      var u := updates[|updates| - 1];
      if Editable(u) then Some(v[u.key.value := u.raw.value]) else None
  }

  lemma {:induction false} OverlaidTotal(base: Values, updates: seq<Update>)
    requires Total(base)
    ensures Overlaid(base, updates).Some? ==> Total(Overlaid(base, updates).value)
  {
    if updates != [] {
      OverlaidTotal(base, updates[..|updates| - 1]);
    }
  }

  function Validated(updates: seq<Update>, p: Profile): Option<Values> {
    var v :- Overlaid(DefaultsFor(p), updates);
    OverlaidTotal(DefaultsFor(p), updates);
    if Consistent(v) then Some(v) else None
  }

  lemma {:induction false} NoneStays(base: Values, updates: seq<Update>, n: nat)
    requires n <= |updates| && Overlaid(base, updates[..n]).None?
    ensures Overlaid(base, updates).None?
    decreases |updates| - n
  {
    if n == |updates| {
      assert updates[..n] == updates;
    } else {
      assert updates[..n + 1][..n] == updates[..n];
      NoneStays(base, updates, n + 1);
    }
  }

  method ValidateValues(updates: seq<Update>, p: Profile) returns (r: Option<Values>)
    ensures r == Validated(updates, p)
  {
    hide Editable, Consistent, DefaultsFor;
    var result := DefaultsFor(p);
    for i := 0 to |updates|
      invariant Overlaid(DefaultsFor(p), updates[..i]) == Some(result)
    {
      var u := updates[i];
      assert updates[..i + 1][..i] == updates[..i];
      if !Editable(u) {
        NoneStays(DefaultsFor(p), updates, i + 1);
        return None;
      }
      EditableHasValues(u);
      result := result[u.key.value := u.raw.value];
    }
    assert updates[..|updates|] == updates;
    DefaultsTotal(p);
    OverlaidTotal(DefaultsFor(p), updates);
    r := if Consistent(result) then Some(result) else None;
  }

  lemma EditableHasValues(u: Update)
    requires Editable(u)
    ensures u.key.Some? && u.raw.Some?
  {
  }

  lemma DefaultsTotal(p: Profile)
    ensures Total(DefaultsFor(p))
  {
  }
}
