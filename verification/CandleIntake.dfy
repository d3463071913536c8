/** Validation of the candle sets of one telemetry request: all of them, or none. */
module CandleIntake {
  import opened Wrappers
  import opened Candles

  const SECOND := 1_000_000
  const MAX_SETS := 4
  const MAX_SET_BARS := 512
  const MAX_TOTAL_BARS := 2048

  /** A submitted candle. stamp is None without a zoned time, candle is None without finite numbers. */
  datatype Bar = Bar(closed: bool, stamp: Option<int>, candle: Option<Candle>)

  /** bars is None when the field is not a list. */
  datatype BarSet = BarSet(timeframe: string, bars: Option<seq<Bar>>)

  /** Timeframe names are matched in upper case. */
  function TimeframeNamed(name: string): (t: Option<Timeframe>)
    ensures t.Some? ==> !t.value.Other?
  {
    if name in ["M1", "m1"] then Some(M1)
    else if name in ["M5", "m5"] then Some(M5)
    else if name in ["M15", "m15"] then Some(M15)
    else if name in ["H1", "h1"] then Some(H1)
    else None
  }

  function Interval(t: Timeframe): (seconds: int)
    requires !t.Other?
    ensures seconds > 0 && seconds % 60 == 0
  {
    match t
    case M1 => 60
    case M5 => 300
    case M15 => 900
    case H1 => 3600
  }

  /** Whole seconds since the epoch, truncated toward zero. */
  function EpochSeconds(stamp: int): int {
    if stamp >= 0 then stamp / SECOND else -((-stamp) / SECOND)
  }

  /** The clock's seconds and microseconds read zero, and the epoch second is a multiple of the interval. */
  predicate Aligned(stamp: int, t: Timeframe)
    requires !t.Other?
  {
    && (stamp / SECOND) % 60 == 0
    && stamp % SECOND == 0
    && EpochSeconds(stamp) % Interval(t) == 0
  }

  /** The three tests together say that the stamp is a whole number of intervals, before the epoch too. */
  lemma AlignedExactly(stamp: int, t: Timeframe)
    requires !t.Other?
    ensures Aligned(stamp, t) <==> exists k :: stamp == Boundary(t, k)
  {
    if Aligned(stamp, t) {
      var q := stamp / SECOND;
      WholeSeconds(q, stamp);
      assert stamp == Boundary(t, q / Interval(t));
    }
    if k :| stamp == Boundary(t, k) {
      BoundaryAligned(t, k);
    }
  }

  function Boundary(t: Timeframe, k: int): int
    requires !t.Other?
  {
    k * Interval(t) * SECOND
  }

  lemma WholeSeconds(q: int, stamp: int)
    requires stamp == q * SECOND
    ensures stamp / SECOND == q && stamp % SECOND == 0 && EpochSeconds(stamp) == q
  {
  }

  lemma BoundaryAligned(t: Timeframe, k: int)
    requires !t.Other?
    ensures Aligned(Boundary(t, k), t)
  {
    hide EpochSeconds;
    match t {
      case M1 => WholeSeconds(60 * k, Boundary(t, k));
      case M5 => WholeSeconds(300 * k, Boundary(t, k));
      case M15 => WholeSeconds(900 * k, Boundary(t, k));
      case H1 => WholeSeconds(3600 * k, Boundary(t, k));
    }
  }

  predicate ValidBar(b: Bar, t: Timeframe)
    requires !t.Other?
  {
    b.closed && b.stamp.Some? && Aligned(b.stamp.value, t) && b.candle.Some? && Sound(b.candle.value)
  }

  /** A candle is valid exactly when it is completed, stands at a boundary of its timeframe, all its prices
      are positive, open and close lie between low and high, and its volume is not negative. */
  lemma ValidBarExactly(b: Bar, t: Timeframe)
    requires !t.Other?
    ensures ValidBar(b, t) <==>
            && b.closed && (exists k :: b.stamp == Some(Boundary(t, k))) && b.candle.Some?
            && var c := b.candle.value;
               && 0.0 < c.low <= c.open <= c.high && c.low <= c.close <= c.high && 0.0 <= c.volume
  {
    if b.stamp.Some? {
      AlignedExactly(b.stamp.value, t);
    }
    hide Aligned, Boundary;
  }

  // ----- What the loops compute -----

  datatype Feed = Feed(source: string, symbol: string)

  function KeyOf(feed: Feed, t: Timeframe, b: Bar): BarKey
    requires b.stamp.Some?
  {
    BarKey(feed.source, feed.symbol, t, b.stamp.value)
  }

  /** The candles seen after one more set; None once a candle is invalid or contradicts an earlier one. */
  function WithBars(feed: Feed, t: Timeframe, seen: map<BarKey, Candle>, bars: seq<Bar>): Option<map<BarKey, Candle>>
    requires !t.Other?
  {
    if bars == [] then Some(seen)
    else
      var before :- WithBars(feed, t, seen, bars[..|bars| - 1]);
      AddBar(feed, t, before, bars[|bars| - 1])
  }

  function AddBar(feed: Feed, t: Timeframe, seen: map<BarKey, Candle>, b: Bar): Option<map<BarKey, Candle>>
    requires !t.Other?
  {
    if !ValidBar(b, t) then None
    else
      var key := KeyOf(feed, t, b);
      if key in seen && seen[key] != b.candle.value then None else Some(seen[key := b.candle.value])
  }

  function Timeframes(sets: seq<BarSet>): set<Timeframe> {
    set s | s in sets && TimeframeNamed(s.timeframe).Some? :: TimeframeNamed(s.timeframe).value
  }

  function TotalBars(sets: seq<BarSet>): nat {
    if sets == [] then 0
    else
      var last := sets[|sets| - 1];
      TotalBars(sets[..|sets| - 1]) + if last.bars.Some? then |last.bars.value| else 0
  }

  /** The checks on a set as such, after the earlier ones. */
  predicate SetAdmitted(earlier: seq<BarSet>, s: BarSet) {
    && TimeframeNamed(s.timeframe).Some?
    && TimeframeNamed(s.timeframe).value !in Timeframes(earlier)
    && s.bars.Some? && |s.bars.value| <= MAX_SET_BARS
    && TotalBars(earlier) + |s.bars.value| <= MAX_TOTAL_BARS
  }

  function WithSets(feed: Feed, sets: seq<BarSet>): Option<map<BarKey, Candle>> {
    if sets == [] then Some(map[])
    else
      var earlier, s := sets[..|sets| - 1], sets[|sets| - 1];
      var seen :- WithSets(feed, earlier);
      if SetAdmitted(earlier, s) then WithBars(feed, TimeframeNamed(s.timeframe).value, seen, s.bars.value) else None
  }

  function Normalized(feed: Feed, sets: seq<BarSet>): Option<map<BarKey, Candle>> {
    if |sets| > MAX_SETS then None else WithSets(feed, sets)
  }

  // ----- The loops -----

  method Normalize(feed: Feed, sets: seq<BarSet>) returns (r: Option<map<BarKey, Candle>>)
    ensures r == Normalized(feed, sets)
  {
    hide AddBar;
    if |sets| > MAX_SETS {
      return None;
    }
    var seen: map<BarKey, Candle> := map[];
    var timeframes: set<Timeframe> := {};
    var total := 0;
    for i := 0 to |sets|
      invariant WithSets(feed, sets[..i]) == Some(seen)
      invariant timeframes == Timeframes(sets[..i]) && total == TotalBars(sets[..i])
    {
      var s := sets[i];
      assert sets[..i + 1][..i] == sets[..i] && sets[..i + 1][i] == s;
      var name := TimeframeNamed(s.timeframe);
      var admitted := && name.Some? && name.value !in timeframes && s.bars.Some?
                      && |s.bars.value| <= MAX_SET_BARS && total + |s.bars.value| <= MAX_TOTAL_BARS;
      assert admitted == SetAdmitted(sets[..i], s);
      if !admitted {
        NoneStays(feed, sets, i + 1);
        return None;
      }
      ghost var before := seen;
      for j := 0 to |s.bars.value|
        invariant WithBars(feed, name.value, before, s.bars.value[..j]) == Some(seen)
      {
        var bars := s.bars.value;
        assert bars[..j + 1][..j] == bars[..j] && bars[..j + 1][j] == bars[j];
        var added := AddBar(feed, name.value, seen, bars[j]);
        if added.None? {
          NoneStaysInSet(feed, name.value, before, bars, j + 1);
          NoneStays(feed, sets, i + 1);
          return None;
        }
        seen := added.value;
      }
      assert s.bars.value[..|s.bars.value|] == s.bars.value;
      TimeframesGrow(sets[..i], s);
      assert sets[..i] + [s] == sets[..i + 1];
      timeframes := timeframes + {name.value};
      total := total + |s.bars.value|;
    }
    assert sets[..|sets|] == sets;
    r := Some(seen);
  }

  lemma {:induction false} NoneStays(feed: Feed, sets: seq<BarSet>, n: nat)
    requires n <= |sets| && WithSets(feed, sets[..n]).None?
    ensures WithSets(feed, sets).None?
    decreases |sets| - n
  {
    if n == |sets| {
      assert sets[..n] == sets;
    } else {
      assert sets[..n + 1][..n] == sets[..n];
      NoneStays(feed, sets, n + 1);
    }
  }

  lemma {:induction false} NoneStaysInSet(feed: Feed, t: Timeframe, seen: map<BarKey, Candle>, bars: seq<Bar>, n: nat)
    requires !t.Other? && n <= |bars| && WithBars(feed, t, seen, bars[..n]).None?
    ensures WithBars(feed, t, seen, bars).None?
    decreases |bars| - n
  {
    if n == |bars| {
      assert bars[..n] == bars;
    } else {
      assert bars[..n + 1][..n] == bars[..n];
      NoneStaysInSet(feed, t, seen, bars, n + 1);
    }
  }

  lemma TimeframesGrow(earlier: seq<BarSet>, s: BarSet)
    requires TimeframeNamed(s.timeframe).Some?
    ensures Timeframes(earlier + [s]) == Timeframes(earlier) + {TimeframeNamed(s.timeframe).value}
  {
  }

  // ----- What is accepted, said without the loops -----

  ghost predicate SetShape(s: BarSet) {
    && TimeframeNamed(s.timeframe).Some? && s.bars.Some? && |s.bars.value| <= MAX_SET_BARS
    && forall j | 0 <= j < |s.bars.value| :: ValidBar(s.bars.value[j], TimeframeNamed(s.timeframe).value)
  }

  /** Two candles of a set at one time are the same candle. */
  ghost predicate NoConflict(bars: seq<Bar>) {
    forall j, k | 0 <= j < k < |bars| && bars[j].stamp == bars[k].stamp :: bars[j].candle == bars[k].candle
  }

  ghost predicate DistinctTimeframes(sets: seq<BarSet>) {
    forall i, k | 0 <= i < k < |sets| :: TimeframeNamed(sets[i].timeframe) != TimeframeNamed(sets[k].timeframe)
  }

  ghost predicate Acceptable(sets: seq<BarSet>) {
    && DistinctTimeframes(sets)
    && forall i | 0 <= i < |sets| :: SetShape(sets[i]) && NoConflict(sets[i].bars.value)
  }

  /** Some candle of the sets has this key and these values. */
  ghost predicate Submitted(feed: Feed, sets: seq<BarSet>, key: BarKey, c: Candle) {
    exists i, j | 0 <= i < |sets| && sets[i].bars.Some? && 0 <= j < |sets[i].bars.value| ::
      IsBar(feed, sets[i], sets[i].bars.value[j], key, c)
  }

  predicate IsBar(feed: Feed, s: BarSet, b: Bar, key: BarKey, c: Candle) {
    && TimeframeNamed(s.timeframe).Some? && b.stamp.Some?
    && key == KeyOf(feed, TimeframeNamed(s.timeframe).value, b) && b.candle == Some(c)
  }

  // ----- The loops compute exactly that -----

  lemma {:induction false} BarsExactly(feed: Feed, t: Timeframe, seen: map<BarKey, Candle>, bars: seq<Bar>)
    requires !t.Other? && forall key | key in seen :: key.timeframe != t
    ensures WithBars(feed, t, seen, bars).Some? <==>
            (forall j | 0 <= j < |bars| :: ValidBar(bars[j], t)) && NoConflict(bars)
    ensures WithBars(feed, t, seen, bars).Some? ==>
              forall key, c :: Has(WithBars(feed, t, seen, bars).value, key, c) <==>
                               Has(seen, key, c) || InSet(feed, t, bars, key, c)
  {
    hide ValidBar;
    if bars != [] {
      var front, last := bars[..|bars| - 1], bars[|bars| - 1];
      BarsExactly(feed, t, seen, front);
      if WithBars(feed, t, seen, front).Some? {
        AddBarExactly(feed, t, seen, WithBars(feed, t, seen, front).value, front, last);
        assert front + [last] == bars;
      } else {
        ConflictStays(front, last);
        assert front + [last] == bars;
        assert forall j | 0 <= j < |front| :: front[j] == bars[j];
      }
    }
  }

  ghost predicate Has(m: map<BarKey, Candle>, key: BarKey, c: Candle) {
    key in m && m[key] == c
  }

  ghost predicate InSet(feed: Feed, t: Timeframe, bars: seq<Bar>, key: BarKey, c: Candle) {
    exists j | 0 <= j < |bars| && bars[j].stamp.Some? :: key == KeyOf(feed, t, bars[j]) && bars[j].candle == Some(c)
  }

  lemma InSetGrows(feed: Feed, t: Timeframe, front: seq<Bar>, last: Bar, key: BarKey, c: Candle)
    requires last.stamp.Some? && last.candle.Some?
    ensures InSet(feed, t, front + [last], key, c) <==>
            InSet(feed, t, front, key, c) || (key == KeyOf(feed, t, last) && last.candle == Some(c))
  {
    var all := front + [last];
    assert forall j | 0 <= j < |front| :: all[j] == front[j];
    assert all[|front|] == last;
  }

  /** A candle that contradicts none of the set is compared with what its key already holds. */
  lemma ConflictExactly(feed: Feed, t: Timeframe, seen: map<BarKey, Candle>, before: map<BarKey, Candle>,
                        front: seq<Bar>, last: Bar)
    requires forall key | key in seen :: key.timeframe != t
    requires forall key, c :: Has(before, key, c) <==> Has(seen, key, c) || InSet(feed, t, front, key, c)
    requires NoConflict(front) && last.stamp.Some? && last.candle.Some?
    requires forall j | 0 <= j < |front| :: front[j].stamp.Some? && front[j].candle.Some?
    ensures KeyOf(feed, t, last) in before && before[KeyOf(feed, t, last)] != last.candle.value <==>
            !NoConflict(front + [last])
  {
    var key, all := KeyOf(feed, t, last), front + [last];
    assert all[|front|] == last && forall j | 0 <= j < |front| :: all[j] == front[j];
    if key in before {
      assert Has(before, key, before[key]);
      var j :| 0 <= j < |front| && key == KeyOf(feed, t, front[j]) && front[j].candle == Some(before[key]);
      assert all[j].stamp == all[|front|].stamp;
    }
    forall j | 0 <= j < |front| && front[j].stamp == last.stamp
      ensures key in before && Some(before[key]) == front[j].candle
    {
      assert InSet(feed, t, front, key, front[j].candle.value);
      assert Has(before, key, front[j].candle.value);
    }
  }

  lemma AddBarExactly(feed: Feed, t: Timeframe, seen: map<BarKey, Candle>, before: map<BarKey, Candle>,
                      front: seq<Bar>, last: Bar)
    requires !t.Other? && forall key | key in seen :: key.timeframe != t
    requires forall key, c :: Has(before, key, c) <==> Has(seen, key, c) || InSet(feed, t, front, key, c)
    requires NoConflict(front) && forall j | 0 <= j < |front| :: ValidBar(front[j], t)
    ensures AddBar(feed, t, before, last).Some? <==> ValidBar(last, t) && NoConflict(front + [last])
    ensures AddBar(feed, t, before, last).Some? ==>
              forall key, c :: Has(AddBar(feed, t, before, last).value, key, c) <==>
                               Has(seen, key, c) || InSet(feed, t, front + [last], key, c)
  {
    if ValidBar(last, t) {
      ConflictExactly(feed, t, seen, before, front, last);
      hide NoConflict, Aligned, Sound;
      var own := KeyOf(feed, t, last);
      if AddBar(feed, t, before, last).Some? {
        var after := AddBar(feed, t, before, last).value;
        assert after == before[own := last.candle.value];
        forall key, c
          ensures Has(after, key, c) <==> Has(seen, key, c) || InSet(feed, t, front + [last], key, c)
        {
          InSetGrows(feed, t, front, last, key, c);
          hide InSet;
          assert Has(after, key, c) <==> Has(before, key, c) || (key == own && last.candle == Some(c));
        }
      }
    }
  }

  lemma ConflictStays(front: seq<Bar>, last: Bar)
    ensures NoConflict(front + [last]) ==> NoConflict(front)
  {
    assert forall j | 0 <= j < |front| :: (front + [last])[j] == front[j];
  }

  lemma {:induction false} TotalIsBounded(sets: seq<BarSet>)
    requires forall i | 0 <= i < |sets| :: sets[i].bars.Some? ==> |sets[i].bars.value| <= MAX_SET_BARS
    ensures TotalBars(sets) <= MAX_SET_BARS * |sets|
  {
    if sets != [] {
      TotalIsBounded(sets[..|sets| - 1]);
    }
  }

  /** The request's candles are accepted exactly when every set is well shaped, of its own timeframe, and
      free of conflicts. The limit on the total can never refuse anything the other limits admit. */
  lemma {:induction false} SetsExactly(feed: Feed, sets: seq<BarSet>)
    requires |sets| <= MAX_SETS
    ensures WithSets(feed, sets).Some? <==> Acceptable(sets)
    ensures WithSets(feed, sets).Some? ==>
              forall key, c :: Has(WithSets(feed, sets).value, key, c) <==> Submitted(feed, sets, key, c)
  {
    if sets != [] {
      var earlier, s := sets[..|sets| - 1], sets[|sets| - 1];
      SetsExactly(feed, earlier);
      assert earlier + [s] == sets;
      AcceptableGrows(earlier, s);
      if WithSets(feed, earlier).Some? {
        AddSetExactly(feed, WithSets(feed, earlier).value, earlier, s);
      }
    }
  }

  lemma AcceptableGrows(earlier: seq<BarSet>, s: BarSet)
    ensures Acceptable(earlier + [s]) <==>
            Acceptable(earlier) && SetShape(s) && NoConflict(s.bars.value) && NewTimeframe(earlier, s)
  {
    hide SetShape, NoConflict, TimeframeNamed;
    var all := earlier + [s];
    assert all[|earlier|] == s && forall i | 0 <= i < |earlier| :: all[i] == earlier[i];
  }

  ghost predicate NewTimeframe(earlier: seq<BarSet>, s: BarSet) {
    forall i | 0 <= i < |earlier| :: TimeframeNamed(earlier[i].timeframe) != TimeframeNamed(s.timeframe)
  }

  lemma AdmittedExactly(earlier: seq<BarSet>, s: BarSet)
    requires Acceptable(earlier) && |earlier| < MAX_SETS
    ensures SetAdmitted(earlier, s) <==>
            TimeframeNamed(s.timeframe).Some? && s.bars.Some? && |s.bars.value| <= MAX_SET_BARS && NewTimeframe(earlier, s)
  {
    hide TimeframeNamed;
    TotalIsBounded(earlier);
    if TimeframeNamed(s.timeframe).Some? {
      var t := TimeframeNamed(s.timeframe).value;
      if t in Timeframes(earlier) {
        var e :| e in earlier && TimeframeNamed(e.timeframe).Some? && TimeframeNamed(e.timeframe).value == t;
        var i :| 0 <= i < |earlier| && earlier[i] == e;
        assert !NewTimeframe(earlier, s);
      }
      if i :| 0 <= i < |earlier| && TimeframeNamed(earlier[i].timeframe) == TimeframeNamed(s.timeframe) {
        assert earlier[i] in earlier;
        assert t in Timeframes(earlier);
      }
    }
  }

  lemma SubmittedGrows(feed: Feed, earlier: seq<BarSet>, s: BarSet, key: BarKey, c: Candle)
    requires TimeframeNamed(s.timeframe).Some? && s.bars.Some?
    ensures Submitted(feed, earlier + [s], key, c) <==>
            Submitted(feed, earlier, key, c)
            || InSet(feed, TimeframeNamed(s.timeframe).value, s.bars.value, key, c)
  {
    hide TimeframeNamed;
    var all := earlier + [s];
    assert all[|earlier|] == s && forall i | 0 <= i < |earlier| :: all[i] == earlier[i];
    if Submitted(feed, all, key, c) {
      var i, j :| 0 <= i < |all| && all[i].bars.Some? && 0 <= j < |all[i].bars.value|
                  && IsBar(feed, all[i], all[i].bars.value[j], key, c);
      if i < |earlier| {
        assert IsBar(feed, earlier[i], earlier[i].bars.value[j], key, c);
      }
    }
    if Submitted(feed, earlier, key, c) {
      var i, j :| 0 <= i < |earlier| && earlier[i].bars.Some? && 0 <= j < |earlier[i].bars.value|
                  && IsBar(feed, earlier[i], earlier[i].bars.value[j], key, c);
      assert IsBar(feed, all[i], all[i].bars.value[j], key, c);
    }
    if InSet(feed, TimeframeNamed(s.timeframe).value, s.bars.value, key, c) {
      var j :| 0 <= j < |s.bars.value| && s.bars.value[j].stamp.Some?
               && key == KeyOf(feed, TimeframeNamed(s.timeframe).value, s.bars.value[j])
               && s.bars.value[j].candle == Some(c);
      assert IsBar(feed, all[|earlier|], all[|earlier|].bars.value[j], key, c);
    }
  }

  /** No candle seen so far has a timeframe that a new set brings. */
  lemma SeenIsOlder(feed: Feed, earlier: seq<BarSet>, s: BarSet, seen: map<BarKey, Candle>, key: BarKey)
    requires TimeframeNamed(s.timeframe).Some? && NewTimeframe(earlier, s) && key in seen
    requires forall k, c :: Has(seen, k, c) <==> Submitted(feed, earlier, k, c)
    ensures key.timeframe != TimeframeNamed(s.timeframe).value
  {
    hide TimeframeNamed;
    assert Has(seen, key, seen[key]);
    var i, j :| 0 <= i < |earlier| && earlier[i].bars.Some? && 0 <= j < |earlier[i].bars.value|
                && IsBar(feed, earlier[i], earlier[i].bars.value[j], key, seen[key]);
  }

  lemma AddSetExactly(feed: Feed, seen: map<BarKey, Candle>, earlier: seq<BarSet>, s: BarSet)
    requires Acceptable(earlier) && |earlier| < MAX_SETS && WithSets(feed, earlier) == Some(seen)
    requires forall key, c :: Has(seen, key, c) <==> Submitted(feed, earlier, key, c)
    ensures WithSets(feed, earlier + [s]).Some? <==> SetShape(s) && NoConflict(s.bars.value) && NewTimeframe(earlier, s)
    ensures WithSets(feed, earlier + [s]).Some? ==>
              forall key, c :: Has(WithSets(feed, earlier + [s]).value, key, c) <==>
                               Submitted(feed, earlier + [s], key, c)
  {
    hide NewTimeframe, NoConflict, ValidBar, Submitted, TimeframeNamed, SetAdmitted, Acceptable, InSet;
    assert (earlier + [s])[..|earlier|] == earlier;
    AdmittedExactly(earlier, s);
    if SetAdmitted(earlier, s) {
      var t := TimeframeNamed(s.timeframe).value;
      forall key | key in seen
        ensures key.timeframe != t
      {
        SeenIsOlder(feed, earlier, s, seen, key);
      }
      BarsExactly(feed, t, seen, s.bars.value);
      forall key, c
        ensures Submitted(feed, earlier + [s], key, c) <==>
                Submitted(feed, earlier, key, c) || InSet(feed, t, s.bars.value, key, c)
      {
        SubmittedGrows(feed, earlier, s, key, c);
      }
    }
  }

  /** The whole normalisation: all or nothing, and exactly the submitted candles. */
  lemma NormalizedExactly(feed: Feed, sets: seq<BarSet>)
    ensures Normalized(feed, sets).Some? <==> |sets| <= MAX_SETS && Acceptable(sets)
    ensures Normalized(feed, sets).Some? ==>
              forall key, c :: Has(Normalized(feed, sets).value, key, c) <==> Submitted(feed, sets, key, c)
  {
    hide Acceptable, Submitted, WithSets;
    if |sets| <= MAX_SETS {
      SetsExactly(feed, sets);
    }
  }
}
