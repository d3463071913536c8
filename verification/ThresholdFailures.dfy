/** The three constants an evaluation divides by the distance to are ordinary threshold values: the
    endpoint accepts each of them, and with the first one every series of real candles fails. */
module ThresholdFailures {
  import opened Wrappers
  import opened RealMath
  import opened Indicators
  import opened Regime
  import opened Detector
  import opened Thresholds
  import opened ThresholdLaws

  function Edit(k: Key, x: real): Update {
    Update(Some(k), Some(x))
  }

  /** A weak-trend threshold of 35, below a trend threshold of 40. */
  const WEAK_TREND_35 := [Edit(AdxTrending, 40.0), Edit(AdxRanging, 35.0)]

  lemma OneEdit(base: Values, u: Update)
    requires Editable(u)
    ensures Overlaid(base, [u]) == Some(base[u.key.value := u.raw.value])
  {
    assert Overlaid(base, []) == Some(base);
    assert [u][..0] == [];
  }

  lemma TwoEdits(base: Values, u: Update, w: Update)
    requires Editable(u) && Editable(w)
    ensures Overlaid(base, [u, w]) == Some(base[u.key.value := u.raw.value][w.key.value := w.raw.value])
  {
    OneEdit(base, u);
    assert [u, w][..1] == [u];
  }

  /** A submission whose overlaid values are consistent is accepted. */
  lemma Accepts(p: Profile, updates: seq<Update>, v: Values)
    requires (forall u | u in updates :: Editable(u)) && Overlaid(DefaultsFor(p), updates) == Some(v)
    requires Total(v) && Consistent(v)
    ensures Validated(updates, p) == Some(v) && Sound(v)
  {
    ValidatedExactly(updates, p);
    hide Overlaid, DefaultsFor, Consistent, Editable, Sound, Total;
  }

  lemma AcceptsThirtyFive(p: Profile)
    ensures var v := Validated(WEAK_TREND_35, p); v.Some? && Sound(v.value) && v.value[AdxRanging] == 35.0
  {
    var base := DefaultsFor(p);
    var v := base[AdxTrending := 40.0][AdxRanging := 35.0];
    DefaultsConsistent(p);
    TwoEdits(base, Edit(AdxTrending, 40.0), Edit(AdxRanging, 35.0));
    assert forall u | u in WEAK_TREND_35 :: Editable(u);
    hide DefaultsFor, Overlaid, SpecOf, Sound, Validated;
    Accepts(p, WEAK_TREND_35, v);
  }

  lemma AcceptsAtrRatio(p: Profile, k: Key, x: real)
    requires (k == AtrRatioMin && x == 0.8) || (k == AtrRatioMax && x == 1.6)
    ensures var v := Validated([Edit(k, x)], p); v.Some? && Sound(v.value) && v.value[k] == x
  {
    var base := DefaultsFor(p);
    DefaultsConsistent(p);
    DefaultAt(p, AtrRatioMin, 0.6, 0.6);
    DefaultAt(p, AtrRatioMax, 2.5, 2.5);
    OneEdit(base, Edit(k, x));
    hide DefaultsFor, Overlaid, SpecOf, Sound, Validated;
    Accepts(p, [Edit(k, x)], base[k := x]);
  }

  /** Under either profile the endpoint accepts all three. */
  lemma DivisorsAreAccepted(p: Profile)
    ensures var v := Validated(WEAK_TREND_35, p); v.Some? && Sound(v.value) && v.value[AdxRanging] == 35.0
    ensures var v := Validated([Edit(AtrRatioMin, 0.8)], p); v.Some? && Sound(v.value) && v.value[AtrRatioMin] == 0.8
    ensures var v := Validated([Edit(AtrRatioMax, 1.6)], p); v.Some? && Sound(v.value) && v.value[AtrRatioMax] == 1.6
  {
    AcceptsThirtyFive(p);
    AcceptsAtrRatio(p, AtrRatioMin, 0.8);
    AcceptsAtrRatio(p, AtrRatioMax, 1.6);
    hide Validated, Sound;
  }

  // ----- A series that fails -----

  lemma {:induction false} SumPositive(s: seq<real>, lo: nat, hi: nat)
    requires lo < hi <= |s| && forall j | lo <= j < hi :: 0.0 < s[j]
    ensures 0.0 < Sum(s, lo, hi)
  {
    if lo + 1 < hi {
      SumPositive(s, lo, hi - 1);
    } else {
      assert Sum(s, lo, lo) == 0.0;
    }
  }

  lemma NextPositive(before: real, x: real, period: Period)
    requires 0.0 < before && 0.0 < x
    ensures 0.0 < WilderNext(before, x, period)
  {
    MulNonNegative(before, (period - 1) as real);
  }

  lemma {:induction false} WilderPositive(s: seq<real>, period: Period, first: nat, i: nat)
    requires period <= first + 1 && first <= i < |s| && forall j | 0 <= j <= i :: 0.0 < s[j]
    ensures 0.0 < WilderAt(s, period, first, i)
  {
    hide WilderNext;
    if i == first {
      SumPositive(s, first + 1 - period, first + 1);
    } else {
      WilderPositive(s, period, first, i - 1);
      NextPositive(WilderAt(s, period, first, i - 1), s[i], period);
    }
  }

  /** Every candle has a range. */
  ghost predicate HasRanges(b: Bars)
    requires b.Shaped()
  {
    forall i | 0 <= i < b.Count() :: b.low[i] < b.high[i]
  }

  /** All readings exist at the newest bar, and the range is positive. */
  ghost predicate ReadableNow(b: Bars, cfg: Config)
    requires b.Shaped()
  {
    var ind, t := IndicationOf(b, cfg), b.Count() - 1;
    && 0 <= t < |ind.atr| && t < |ind.adx| && t < |ind.rsi|
    && ind.atr[t].Some? && ind.adx[t].Some? && ind.rsi[t].Some? && 0.0 < ind.atr[t].value
  }

  lemma RangesAreReadable(b: Bars, cfg: Config)
    requires b.Shaped() && MIN_BARS <= b.Count() && HasRanges(b)
    requires cfg.atrPeriod == cfg.adxPeriod == cfg.rsiPeriod == 14
    ensures ReadableNow(b, cfg)
  {
    WilderPositive(TrueRangeOf(b), 14, 13, b.Count() - 1);
    hide WilderAt;
  }

  lemma ThirtyFiveDivides(b: Bars, cfg: Config, minimumScore: real)
    requires b.Shaped() && RaisesOnlyByDivision(b, cfg, minimumScore) && ReadableNow(b, cfg) && cfg.adxRanging == 35.0
    ensures Technical(b, cfg, minimumScore).Raised?
  {
    hide IndicationOf, Technical;
  }

  /** With a weak-trend threshold of 35 every evaluation of enough real candles raises. */
  lemma ThirtyFiveAlwaysRaises(v: Values, lowest: bool, b: Bars)
    requires Sound(v) && v[AdxRanging] == 35.0
    requires b.Shaped() && MIN_BARS <= b.Count() && HasRanges(b)
    ensures RaisesOnlyByDivision(b, DetectorConfig(v, lowest), v[MinimumScore])
    ensures Technical(b, DetectorConfig(v, lowest), v[MinimumScore]).Raised?
  {
    AcceptedThresholdsRaiseExactly(v, lowest, b);
    var cfg := DetectorConfig(v, lowest);
    assert cfg.adxRanging == 35.0 && cfg.atrPeriod == cfg.adxPeriod == cfg.rsiPeriod == 14;
    hide *;
    RangesAreReadable(b, cfg);
    ThirtyFiveDivides(b, cfg, v[MinimumScore]);
  }

  /** A hundred equal candles. */
  function Flat(): Bars {
    Bars(seq(100, i => i as real), seq(100, _ => 2.0), seq(100, _ => 1.0), seq(100, _ => 1.5))
  }

  /** So one accepted submission is enough to make the detector raise on a flat series. */
  lemma AcceptedThresholdsCanRaise(p: Profile, lowest: bool)
    ensures var v := Validated(WEAK_TREND_35, p);
            && v.Some? && Sound(v.value)
            && RaisesOnlyByDivision(Flat(), DetectorConfig(v.value, lowest), v.value[MinimumScore])
            && Technical(Flat(), DetectorConfig(v.value, lowest), v.value[MinimumScore]).Raised?
  {
    DivisorsAreAccepted(p);
    assert HasRanges(Flat());
    hide Validated, Technical;
    ThirtyFiveAlwaysRaises(Validated(WEAK_TREND_35, p).value, lowest, Flat());
  }
}
