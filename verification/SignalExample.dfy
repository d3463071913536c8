/** Two snapshots of one rising series, a bar apart, that both offer one breakout and are both approvable:
    the instance on which a wide quote makes the pipeline trade one signal twice. */
module SignalExample {
  import opened Wrappers
  import opened RealMath
  import opened Indicators
  import opened IndicatorLaws
  import opened Regime
  import opened Detector
  import opened DetectorLaws
  import opened EntryTiming
  import opened RiskSizing
  import opened Pipeline
  import opened SignalReopened
  import opened ThresholdLaws

  // Bar 5 closes beyond the five highs before it; bar 6 comes back to the level of 15 and holds it.
  const HIGH: seq<real> := [11.0, 12.0, 13.0, 14.0, 15.0, 19.0, 18.5, 21.0, 23.0]
  const LOW: seq<real> := [9.0, 10.0, 11.0, 12.0, 13.0, 15.0, 15.0, 19.0, 21.0]
  const CLOSE: seq<real> := [10.0, 11.0, 12.0, 13.0, 14.0, 17.0, 18.0, 20.0, 22.0]

  /** The series when bar t was the newest. */
  function Series(t: nat): Bars
    requires t < 9
  {
    Bars(seq(t + 1, i => 900.0 * i as real), HIGH[..t + 1], LOW[..t + 1], CLOSE[..t + 1])
  }

  function ExampleConfig(): Config {
    Config(4, 500, 1, 2, 1, 1, 1, 10, 1,
           12.0, 10.0, 0.2, 0.65, 1,
           1, 0.6, 2.5, 1.5, 0.2, 0.82,
           0.4, 8, 100.0,
           5, 0.1, 0.25, 3,
           false, true, true)
  }

  function ExampleSettings(): Settings {
    Settings(ExampleConfig(), 0.55,
             TimingConfig(1.0, 0.5, 0.25, 0.2, 0.25, true, true, 0.3, 80.0, true),
             RiskConfig(0.25, 0.5, 3.5, 1.2, 1.25, 2.0, true, true, 0.5))
  }

  /** Bar t on a quote without spread at its close, with a balance of which half a percent buys one lot. */
  function SnapshotAt(t: nat): Snapshot
    requires t < 9
  {
    var price := Some(CLOSE[t]);
    Snapshot(Series(t), "XAUUSD", "M15", NotConsulted,
             TimingMarket(price, price, Some(1.0), None, None, Some(900.0 * t as real), Some(900.0)),
             RiskMarket(price, price, Some(1.0), None, Some(200.0 * (CLOSE[t] - 14.25)), Some(0.5), Some(1.0), Some(1.0), Some(1.0), Some(10.0),
                        None, None, None, None))
  }

  // ----- Indicators of period 1 and 2 -----

  lemma WilderOne(s: seq<real>, first: nat, i: nat)
    requires first <= i < |s|
    ensures WilderAt(s, 1, first, i) == s[i]
  {
    if i == first {
      assert Sum(s, first, first + 1) == Sum(s, first, first) + s[first];
    }
  }

  lemma SmoothOne(s: seq<real>, i: nat)
    requires 1 <= i < |s|
    ensures SmoothAt(s, 1, i) == s[i]
  {
    if i == 1 {
      assert Sum(s, 1, 2) == Sum(s, 1, 1) + s[1];
    }
  }

  lemma EmaOne(values: seq<real>, i: nat)
    requires i < |values|
    ensures EmaAt(values, 1, i) == values[i]
  {
  }

  /** On rising values the average of period 2 rises, and stays a third of the last step behind. */
  lemma {:induction false} RisingEma(values: seq<real>, i: nat)
    requires i < |values| && forall j | 0 < j <= i :: values[j - 1] < values[j]
    ensures EmaAt(values, 2, i) <= values[i]
    ensures i > 0 ==> EmaAt(values, 2, i - 1) < EmaAt(values, 2, i) <= values[i] - (values[i] - values[i - 1]) / 3.0
  {
    if i > 0 {
      RisingEma(values, i - 1);
      assert EmaAt(values, 2, i) == 2.0 / 3.0 * values[i] + 1.0 / 3.0 * EmaAt(values, 2, i - 1);
    }
  }

  // ----- The readings -----

  /** What the newest bar t reads. */
  ghost predicate Reads(b: Bars, ind: Indication, t: nat) {
    && b.Shaped() && b.Count() == t + 1 && 6 < t
    && |ind.emaFast| == |ind.emaSlow| == |ind.atr| == |ind.adx| == |ind.rsi| == t + 1
    && ind.swingHighs == [] && ind.swingLows == []
    && ind.atr[t] == Some(3.0) && ind.atr[t - 1].Some? && 0.0 < ind.atr[t - 1].value
    && ind.atr[5].Some? && 0.0 < ind.atr[5].value <= 5.0 && ind.atr[6].Some? && 0.0 < ind.atr[6].value
    && ind.adx[t] == Some(100.0) && ind.adx[t - 1].Some?
    && ind.rsi[t].Some? && ind.rsi[t].value <= 100.0
    && ind.emaFast[t] == b.close[t]
    && ind.emaSlow[t - 2] < ind.emaSlow[t - 1] < ind.emaSlow[t] <= b.close[t] - 0.6
  }

  lemma RangeReadings(t: nat)
    requires t == 7 || t == 8
    ensures var b, tr := Series(t), TrueRangeOf(Series(t));
            |tr| == t + 1 && tr[t] == 3.0 && 0.0 < tr[t - 1] && tr[5] == 5.0 && 0.0 < tr[6]
  {
  }

  lemma MovementReadings(t: nat)
    requires t == 7 || t == 8
    ensures DxAt(Series(t), 1, t) == 100.0
  {
    var b := Series(t);
    RangeReadings(t);
    SmoothOne(TrueRangeOf(b), t);
    SmoothOne(PlusDmOf(b), t);
    SmoothOne(MinusDmOf(b), t);
    assert PlusDmAt(b, t) > 0.0 && MinusDmAt(b, t) == 0.0;
    hide SmoothAt, TrueRangeOf;
    OneSided(3.0, PlusDmAt(b, t));
  }

  lemma OneSided(tr: real, plus: real)
    requires 0.0 < tr && 0.0 < plus
    ensures DxFrom(tr, plus, 0.0) == 100.0
  {
    var di := 100.0 * plus / tr;
    assert 0.0 < di && 100.0 * di / di == 100.0;
  }

  lemma SeriesReads(t: nat)
    requires t == 7 || t == 8
    ensures Reads(Series(t), IndicationOf(Series(t), ExampleConfig()), t)
  {
    var b, cfg := Series(t), ExampleConfig();
    var tr := TrueRangeOf(b);
    RangeReadings(t);
    WilderOne(tr, 0, t);
    WilderOne(tr, 0, t - 1);
    WilderOne(tr, 0, 5);
    WilderOne(tr, 0, 6);
    MovementReadings(t);
    WilderOne(DxOf(b, 1), 1, t);
    RsiRange(b.close, 1, t);
    EmaOne(b.close, t);
    RisingEma(b.close, t);
    RisingEma(b.close, t - 1);
    NoEdgePivots(b.high, 10, 0, b.Count());
    NoEdgePivots(b.low, 10, 0, b.Count());
    hide WilderAt, EmaAt, DxAt, TrueRangeAt, RsiAt, SwingHighs, SwingLows;
  }

  // ----- The regime and the shared gates -----

  lemma RegimesNow(b: Bars, ind: Indication, t: nat)
    requires Reads(b, ind, t)
    ensures var cfg := ExampleConfig();
            var now, before := ClassifyRegime(b, ind, t, cfg), ClassifyRegime(b, ind, t - 1, cfg);
            now.Some? && now.value.trend == Bullish && before.Some? && before.value.trend != Bearish
  {
    var cfg := ExampleConfig();
    assert KnownAt(ind.swingHighs, 10, t) == [] && KnownAt(ind.swingHighs, 10, t - 1) == [];
    DirectionalLabelExactly(3.0, b.close[t], ind.emaFast[t], ind.emaSlow[t], ind.emaSlow[t - 1], 100.0, Unknown, cfg);
    DirectionalLabelExactly(ind.atr[t - 1].value, b.close[t - 1], ind.emaFast[t - 1], ind.emaSlow[t - 1], ind.emaSlow[t - 2],
                            ind.adx[t - 1].value, Unknown, cfg);
    hide RegimeOf, KnownAt;
  }

  lemma ContextNow(b: Bars, ind: Indication, t: nat)
    requires Reads(b, ind, t)
    ensures var c := ContextOf(b, ind, ExampleConfig(), t, 3.0, 100.0, ind.rsi[t].value);
            && c.Some? && c.value.atr == 3.0 && c.value.rsi == ind.rsi[t].value
            && c.value.regime.trend == Bullish && c.value.previous.trend != Bearish
            && c.value.atrRatio == c.value.strength == c.value.volatility == 1.0
  {
    RegimesNow(b, ind, t);
    hide ClassifyRegime;
    assert Newest(ind.atr, 1) == [Some(3.0)];
    assert Defined([Some(3.0)]) == [3.0] && Sorted([3.0]) == [3.0];
    hide Newest, Defined, Sorted;
  }

  // ----- The breakout -----

  lemma LevelIs(high: seq<real>, lo: nat, top: real, at: nat)
    requires lo + 5 <= |high| && lo <= at < lo + 5 && high[at] == top && forall j | lo <= j < lo + 5 :: high[j] <= top
    ensures Highest(high, lo, lo + 5) == top
  {
  }

  lemma BreakoutAtFive(t: nat, ind: Indication, v: View)
    requires (t == 7 || t == 8) && Reads(Series(t), ind, t) && v == Orient(Series(t), ind, Buy)
    ensures BreakoutAt(v, ind.atr, ExampleConfig(), 0.75, t, 5) == Some(Breakout(5, 6, 15.0))
  {
    LevelIs(v.high, 0, 15.0, 4);
    assert BreakoutLevel(v, ExampleConfig(), 5) == 15.0;
    hide BreakoutLevel, Highest;
    assert IsRetest(v, 0.75, 15.0, t, 6);
  }

  lemma NoBreakoutAtSix(ind: Indication, v: View)
    requires Reads(Series(8), ind, 8) && v == Orient(Series(8), ind, Buy)
    ensures BreakoutAt(v, ind.atr, ExampleConfig(), 0.75, 8, 6) == None
  {
    LevelIs(v.high, 1, 19.0, 5);
    assert BreakoutLevel(v, ExampleConfig(), 6) == 19.0;
    hide BreakoutLevel, Highest;
  }

  lemma BreakoutFound(t: nat, ind: Indication, v: View)
    requires (t == 7 || t == 8) && Reads(Series(t), ind, t) && v == Orient(Series(t), ind, Buy)
    ensures CanSearch(v, ind.atr, ExampleConfig(), t)
    ensures SearchBreakout(v, ind.atr, ExampleConfig(), 3.0, t) == Some(Breakout(5, 6, 15.0))
  {
    hide BreakoutAt;
    BreakoutAtFive(t, ind, v);
    if t == 8 {
      NoBreakoutAtSix(ind, v);
    }
    assert Tolerance(ExampleConfig(), 3.0) == 0.75;
  }

  // ----- The verdict -----

  /** The setup bar t finds: the breakout of bar 5, retested at 15. */
  ghost predicate IsSetup(s: Setup, t: nat)
    requires t < 9
  {
    && s.kind == BreakoutRetest && s.side == Buy && s.anchorTime == 4500.0
    && s.reference == CLOSE[t] && s.invalidation == 15.0 && s.atr == 3.0
  }

  lemma ScoreAtLeast(parts: Components)
    requires InUnit(parts) && parts.strength == parts.pullback == parts.volatility == 1.0
    ensures 0.55 <= parts.Score()
  {
  }

  lemma BreakoutJudged(t: nat, c: Context, v: View)
    requires t < 9 && 6 < t && v.low == Series(t).low && v.close == Series(t).close
    requires c.atr == 3.0 && c.rsi <= 100.0 && c.strength == c.volatility == 1.0
    ensures var parts := Components(TrendComponent(Buy, c.regime), c.strength, 0.0, 0.0, c.volatility);
            var verdict := JudgeBreakout(Series(t), c, ExampleConfig(), Buy, 0.55, v, Breakout(5, 6, 15.0), parts);
            verdict.Found? && IsSetup(verdict.setup, t)
  {
    TrendInUnit(Buy, c.regime);
    MomentumInUnit(c.rsi, (v.close[t] - 15.0) / c.atr);
    var scored := Components(TrendComponent(Buy, c.regime), 1.0, 1.0, MomentumComponent(c.rsi, (v.close[t] - 15.0) / c.atr), 1.0);
    ScoreAtLeast(scored);
    hide TrendComponent, MomentumComponent;
  }

  lemma SeriesJudged(t: nat, ind: Indication)
    requires (t == 7 || t == 8) && Reads(Series(t), ind, t)
    ensures Wired(Series(t), ind, ExampleConfig())
    ensures var verdict := Judged(Series(t), ind, ExampleConfig(), 0.55);
            verdict.Found? && IsSetup(verdict.setup, t)
  {
    var b, cfg := Series(t), ExampleConfig();
    var v := Orient(b, ind, Buy);
    ContextNow(b, ind, t);
    var c := ContextOf(b, ind, cfg, t, 3.0, 100.0, ind.rsi[t].value).value;
    BreakoutFound(t, ind, v);
    BreakoutJudged(t, c, v);
    hide ContextOf, SearchBreakout, JudgeBreakout, TrendComponent;
  }

  lemma SetupFound(t: nat)
    requires t == 7 || t == 8
    ensures Series(t).Shaped()
    ensures var verdict := Technical(Series(t), ExampleConfig(), 0.55);
            verdict.Found? && IsSetup(verdict.setup, t)
  {
    SeriesReads(t);
    hide IndicationOf, Judged, Reads, IsSetup;
    SeriesJudged(t, IndicationOf(Series(t), ExampleConfig()));
  }

  // ----- Timing and sizing -----

  lemma RoundingKeeps(s: Setup, t: nat)
    requires t < 9 && IsSetup(s, t)
    ensures IsSetup(Reported(s), t)
  {
    assert Nearest(15.0 * 100000.0) == 1500000 && Nearest(3.0 * 100000.0) == 300000;
  }

  lemma TimingApproves(s: Setup, t: nat)
    requires (t == 7 || t == 8) && IsSetup(s, t)
    ensures var timing := EntryTiming.Evaluate(s, Some(900.0 * t as real), SnapshotAt(t).timing, ExampleSettings().timing);
            timing.status == Accepted && timing.quotePrice == Some(CLOSE[t])
  {
    var m, cfg, q := SnapshotAt(t).timing, ExampleSettings().timing, Quote(CLOSE[t], CLOSE[t], 1.0);
    ComputedQualityRange(s, q, 0.0, cfg);
    ApprovalExactly(s, Some(900.0 * t as real), m, q, cfg);
    hide ComputedQuality;
    assert SignalAge(Some(900.0 * t as real), m) == Some(0.0);
    ApprovalLeavesRoom(s, Some(900.0 * t as real), m, cfg);
    hide EntryTiming.Evaluate;
  }

  lemma OneLot(perLot: real)
    requires 0.0 < perLot
    ensures Volume(perLot, perLot, 1.0, 10.0) == 1.0
  {
    assert perLot / perLot == 1.0;
    assert Steps(1.0, 1.0) == 1;
    assert Nearest(Scaled(1.0)) == 100000000;
  }

  lemma SizingApproves(s: Setup, t: nat, distance: real)
    requires (t == 7 || t == 8) && IsSetup(s, t) && distance == CLOSE[t] - 14.25
    ensures RiskSizing.Evaluate(true, Some(s), Some(CLOSE[t]), SnapshotAt(t).risk, ExampleSettings().risk).Sized?
  {
    var m, cfg := SnapshotAt(t).risk, ExampleSettings().risk;
    assert StructuralStop(s, Some(CLOSE[t]), m, cfg) == Success(Stop(14.25, distance));
    var i := Inputs(200.0 * distance, 0.5, distance, 1.0, 1.0, 1.0, 10.0, None);
    assert Gather(m, distance) == Some(i) && Budget(i.balance, Percent(i, cfg)) == distance && i.RiskPerLot() == distance;
    OneLot(distance);
    hide StructuralStop, Volume, Gather, Budget, Percent;
  }

  // ----- The two snapshots -----

  const SIGNAL := SignalKey("XAUUSD", "M15", Buy, BreakoutRetest, 4500.0)

  lemma StagesApprove(setup: Setup, t: nat)
    requires (t == 7 || t == 8) && IsSetup(setup, t)
    ensures ExampleSettings().Valid()
    ensures StagesAfter(Signalled(setup, SIGNAL, 900.0 * t as real), SnapshotAt(t), ExampleSettings()).Approved()
  {
    TimingApproves(setup, t);
    SizingApproves(setup, t, CLOSE[t] - 14.25);
    hide EntryTiming.Evaluate, RiskSizing.Evaluate, IsSetup;
  }

  lemma FoundIsApprovable(s: Snapshot, c: Settings)
    requires s.Valid() && c.Valid() && !s.forecast.Vetoes?
    requires var verdict := Technical(s.bars, c.detector, c.minimumScore);
             verdict.Found?
             && StagesAfter(Signalled(Reported(verdict.setup), KeyOf(s, verdict.setup), BarOf(s)), s, c).Approved()
    ensures Approvable(s, c)
    ensures Offered(s, c) == Some((KeyOf(s, Technical(s.bars, c.detector, c.minimumScore).setup), BarOf(s)))
  {
    hide Technical, StagesAfter, Reported;
    OutcomeOpportunity([], s, c);
  }

  lemma SnapshotNames(setup: Setup, t: nat)
    requires t < 9 && IsSetup(setup, t)
    ensures SnapshotAt(t).Valid() && KeyOf(SnapshotAt(t), setup) == SIGNAL && BarOf(SnapshotAt(t)) == 900.0 * t as real
  {
  }

  lemma SnapshotApprovable(t: nat)
    requires t == 7 || t == 8
    ensures ExampleSettings().Valid() && Approvable(SnapshotAt(t), ExampleSettings())
    ensures Offered(SnapshotAt(t), ExampleSettings()) == Some((SIGNAL, 900.0 * t as real))
  {
    var c := ExampleSettings();
    assert c.detector == ExampleConfig() && c.minimumScore == 0.55 && SnapshotAt(t).bars == Series(t);
    SetupFound(t);
    var setup := Technical(Series(t), ExampleConfig(), 0.55).setup;
    hide Technical, StagesAfter, Reported, IsSetup, Series, ExampleConfig, Approvable, Offered, KeyOf, BarOf;
    RoundingKeeps(setup, t);
    StagesApprove(Reported(setup), t);
    SnapshotNames(setup, t);
    FoundIsApprovable(SnapshotAt(t), c);
  }

  /** Bar 7 is approved. Bar 8 by itself is the same signal on another bar and refused. But after bar 7
      is evaluated a second time, on a wide quote, bar 8 is approved on the signal already traded. */
  lemma SignalTradedTwice()
    ensures var c, first, second := ExampleSettings(), SnapshotAt(7), SnapshotAt(8);
            && DetectorBuilds(c.detector, c.minimumScore) && c.Valid() && first.timing.bid.Some? && first.timing.point.Some?
            && AllValid([first, second]) && AllValid([first, Widened(first, c), second])
            && RefusedAfter([first, second], c)
            && ApprovedAgain([first, Widened(first, c), second], c)
  {
    SnapshotApprovable(7);
    SnapshotApprovable(8);
    hide Approvable, Offered, RefusedAfter, ApprovedAgain;
    WideQuoteReopens(SnapshotAt(7), SnapshotAt(8), ExampleSettings());
  }
}
