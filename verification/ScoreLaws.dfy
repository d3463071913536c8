/** What the score rewards: the weight of every component, where each is full and where it is lost, and
    that it changes in proportion between the two; and the median behind the volatility ratio. */
module ScoreLaws {
  import opened Wrappers
  import opened RealMath
  import opened Regime
  import opened Detector

  lemma ScoreDifference(p: Components, q: Components)
    ensures q.Score() - p.Score()
            == 0.25 * (q.trend - p.trend) + 0.20 * (q.strength - p.strength) + 0.25 * (q.pullback - p.pullback)
               + 0.15 * (q.momentum - p.momentum) + 0.15 * (q.volatility - p.volatility)
  {
  }

  /** The five weights: a full score is 1, an empty one 0, and raising one component by d adds its weight
      times d. */
  lemma ScoreWeights(p: Components, d: real)
    ensures Components(1.0, 1.0, 1.0, 1.0, 1.0).Score() == 1.0 && Components(0.0, 0.0, 0.0, 0.0, 0.0).Score() == 0.0
    ensures p.(trend := p.trend + d).Score() - p.Score() == 0.25 * d
    ensures p.(strength := p.strength + d).Score() - p.Score() == 0.20 * d
    ensures p.(pullback := p.pullback + d).Score() - p.Score() == 0.25 * d
    ensures p.(momentum := p.momentum + d).Score() - p.Score() == 0.15 * d
    ensures p.(volatility := p.volatility + d).Score() - p.Score() == 0.15 * d
  {
    assert Components(0.0, 0.0, 0.0, 0.0, 0.0).Score() == 0.0;
    hide Components.Score;
    ScoreDifference(Components(0.0, 0.0, 0.0, 0.0, 0.0), Components(1.0, 1.0, 1.0, 1.0, 1.0));
    ScoreDifference(p, p.(trend := p.trend + d));
    ScoreDifference(p, p.(strength := p.strength + d));
    ScoreDifference(p, p.(pullback := p.pullback + d));
    ScoreDifference(p, p.(momentum := p.momentum + d));
    ScoreDifference(p, p.(volatility := p.volatility + d));
  }

  /** A trend against the side, or none, scores nothing; one with the side is full exactly when the averages
      are a range apart, the slow one moved half a range, and the structure agrees, and loses in proportion. */
  lemma TrendExactly(side: Side, r: Regime)
    requires r.separation.Some? && r.slope.Some?
    ensures var x := TrendComponent(side, r);
            var aligned := r.bias == if side == Buy then Bull else Bear;
            var agrees := r.structure == if side == Buy then Rising else Falling;
            var apart, moved := Abs(r.separation.value), Abs(r.slope.value);
            && (!aligned ==> x == 0.0)
            && (x == 1.0 <==> aligned && agrees && 1.0 <= apart && 0.5 <= moved)
            && (aligned && apart <= 1.0 && moved <= 0.5 ==>
                  x == 0.5 * apart + 0.5 * moved + (if agrees then 0.25 else if r.structure in {Mixed, Unknown} then 0.125 else 0.0))
  {
  }

  /** The strength is lost at the ranging threshold and full at 35. */
  lemma StrengthExactly(adx: real, cfg: Config)
    requires cfg.adxRanging < 35.0
    ensures var x := StrengthComponent(adx, cfg);
            && x.Some?
            && (x.value == 0.0 <==> adx <= cfg.adxRanging) && (x.value == 1.0 <==> 35.0 <= adx)
            && (cfg.adxRanging <= adx <= 35.0 ==> x.value * (35.0 - cfg.adxRanging) == adx - cfg.adxRanging)
  {
    RampExactly(adx - cfg.adxRanging, 35.0 - cfg.adxRanging);
  }

  /** A clipped ratio: lost at 0, full at the whole, in proportion between. */
  lemma RampExactly(part: real, whole: real)
    requires 0.0 < whole
    ensures Clip(part / whole) == 0.0 <==> part <= 0.0
    ensures Clip(part / whole) == 1.0 <==> whole <= part
    ensures 0.0 <= part <= whole ==> Clip(part / whole) * whole == part
  {
    RatioAgainst(part, whole, 0.0);
    RatioAgainst(part, whole, 1.0);
    DivideMul(part, whole);
  }

  /** Volatility is full between 0.8 and 1.6 times its baseline, and lost at the configured limits. */
  lemma VolatilityExactly(ratio: real, cfg: Config)
    requires cfg.atrRatioMin < 0.8 && 1.6 < cfg.atrRatioMax
    ensures var x := VolatilityComponent(ratio, cfg);
            && x.Some?
            && (x.value == 1.0 <==> 0.8 <= ratio <= 1.6) && (x.value == 0.0 <==> ratio <= cfg.atrRatioMin || cfg.atrRatioMax <= ratio)
            && (cfg.atrRatioMin <= ratio < 0.8 ==> x.value * (0.8 - cfg.atrRatioMin) == ratio - cfg.atrRatioMin)
            && (1.6 < ratio <= cfg.atrRatioMax ==> x.value * (cfg.atrRatioMax - 1.6) == cfg.atrRatioMax - ratio)
  {
    RampExactly(ratio - cfg.atrRatioMin, 0.8 - cfg.atrRatioMin);
    RampExactly(cfg.atrRatioMax - ratio, cfg.atrRatioMax - 1.6);
    hide Clip;
  }

  /** A pullback is worth most at half the impulse and on the fast average: a third of the impulse off costs
      its whole depth, 0.6, and stopping the whole tolerance above the average costs 0.2. */
  lemma PullbackExactly(retracement: real, gap: real, cfg: Config)
    requires 0.0 < cfg.zoneToleranceAtr && 0.0 <= gap
    ensures var x := PullbackComponent(retracement, gap, cfg);
            && x.Some?
            && (x.value == 1.0 <==> retracement == 0.5 && gap == 0.0)
            && (Abs(retracement - 0.5) <= 0.35 && gap <= cfg.zoneToleranceAtr ==>
                  (1.0 - x.value - 0.6 * Abs(retracement - 0.5) / 0.35) * cfg.zoneToleranceAtr == 0.2 * gap)
            && (0.35 <= Abs(retracement - 0.5) && cfg.zoneToleranceAtr <= gap ==> x.value == 0.2)
  {
    RampExactly(Abs(retracement - 0.5), 0.35);
    RampExactly(gap, cfg.zoneToleranceAtr);
    hide Clip;
    var x := Clip(gap / cfg.zoneToleranceAtr);
    if Abs(retracement - 0.5) <= 0.35 && gap <= cfg.zoneToleranceAtr {
      assert x * cfg.zoneToleranceAtr == gap;
      assert 1.0 - PullbackComponent(retracement, gap, cfg).value - 0.6 * Abs(retracement - 0.5) / 0.35 == 0.2 * x;
    }
  }

  /** Momentum is full with an index between 45 and 65 and a bounce of a whole range; the index is lost at
      30 and at 75, the bounce at zero. */
  lemma MomentumExactly(rsi: real, bounce: real)
    ensures var x := MomentumComponent(rsi, bounce);
            && (x == 1.0 <==> 45.0 <= rsi <= 65.0 && 1.0 <= bounce)
            && (x == 0.0 <==> (rsi <= 30.0 || 75.0 <= rsi) && bounce <= 0.0)
            && (45.0 <= rsi <= 65.0 && 0.0 <= bounce <= 1.0 ==> x == 0.7 + 0.3 * bounce)
            && (30.0 <= rsi <= 45.0 && bounce <= 0.0 ==> x * 15.0 == 0.7 * (rsi - 30.0))
            && (65.0 <= rsi <= 75.0 && bounce <= 0.0 ==> x * 10.0 == 0.7 * (75.0 - rsi))
  {
  }

  // ----- The median -----

  ghost predicate Ascending(s: seq<real>) {
    forall i, j | 0 <= i < j < |s| :: s[i] <= s[j]
  }

  lemma {:induction false} InsertKeeps(x: real, sorted: seq<real>)
    ensures multiset(InsertSorted(x, sorted)) == multiset(sorted) + multiset{x}
  {
    if sorted != [] && sorted[0] < x {
      InsertKeeps(x, sorted[1..]);
      assert sorted == [sorted[0]] + sorted[1..];
    }
  }

  lemma AscendingCons(x: real, rest: seq<real>)
    requires Ascending(rest) && forall i | 0 <= i < |rest| :: x <= rest[i]
    ensures Ascending([x] + rest)
  {
  }

  lemma {:induction false} InsertAscends(x: real, sorted: seq<real>)
    requires Ascending(sorted)
    ensures Ascending(InsertSorted(x, sorted))
  {
    if sorted == [] || x <= sorted[0] {
      AscendingCons(x, sorted);
    } else {
      var tail := sorted[1..];
      assert Ascending(tail);
      InsertAscends(x, tail);
      InsertKeeps(x, tail);
      var rest := InsertSorted(x, tail);
      forall i | 0 <= i < |rest|
        ensures sorted[0] <= rest[i]
      {
        assert rest[i] in multiset(rest);
        assert rest[i] == x || rest[i] in tail;
      }
      AscendingCons(sorted[0], rest);
    }
  }

  lemma {:induction false} SortedExactly(s: seq<real>)
    ensures Ascending(Sorted(s)) && multiset(Sorted(s)) == multiset(s)
  {
    if s != [] {
      SortedExactly(s[1..]);
      InsertAscends(s[0], Sorted(s[1..]));
      InsertKeeps(s[0], Sorted(s[1..]));
      assert s == [s[0]] + s[1..];
    }
  }

  /** An ascending rearrangement of the values, and half of the sum of its two middle ones. */
  lemma MedianExactly(s: seq<real>)
    ensures s == [] <==> Median(s).None?
    ensures s != [] ==>
              exists order :: Ascending(order) && multiset(order) == multiset(s) && |order| == |s|
                              && 2.0 * Median(s).value == order[(|s| - 1) / 2] + order[|s| / 2]
  {
    SortedExactly(s);
    assert |Sorted(s)| == |multiset(Sorted(s))|;
    assert |s| == |multiset(s)|;
    if s != [] {
      assert Ascending(Sorted(s)) && multiset(Sorted(s)) == multiset(s);
    }
  }

  /** The baseline is the median of the defined ranges among the newest ones: every value as often as it
      stands in the list. */
  lemma {:induction false} DefinedExactly(s: seq<Option<real>>, x: real)
    ensures multiset(Defined(s))[x] == multiset(s)[Some(x)]
  {
    if s != [] {
      DefinedExactly(s[1..], x);
      assert s == [s[0]] + s[1..];
    }
  }

  lemma NewestExactly<T>(s: seq<T>, n: nat)
    requires 0 < n
    ensures |Newest(s, n)| == (if |s| < n then |s| else n) && exists older :: s == older + Newest(s, n)
  {
    assert s == s[..|s| - |Newest(s, n)|] + Newest(s, n);
  }
}
