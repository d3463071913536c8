/** Performance of a set of closed trades: one pass over the results in closing order, against
    definitions that range over all pairs and all blocks. */
module Statistics {
  import opened Wrappers
  import opened RealMath
  import opened Learning

  // ----- Closing order -----

  /** Records without a closing time come last. */
  predicate Before(a: Record, b: Record) {
    a.closedAt.Some? && (b.closedAt.None? || a.closedAt.value < b.closedAt.value)
  }

  /** Insert after everything that is not later. */
  function Insert(sorted: seq<Record>, r: Record): seq<Record> {
    if sorted == [] || !Before(r, sorted[|sorted| - 1]) then sorted + [r]
    else Insert(sorted[..|sorted| - 1], r) + [sorted[|sorted| - 1]]
  }

  function Ordered(records: seq<Record>): seq<Record> {
    if records == [] then [] else Insert(Ordered(records[..|records| - 1]), records[|records| - 1])
  }

  ghost predicate InOrder(records: seq<Record>) {
    forall i, j | 0 <= i < j < |records| :: !Before(records[j], records[i])
  }

  /** The records with this closing time, in their order. */
  function ClosedAt(records: seq<Record>, time: Option<real>): seq<Record> {
    if records == [] then []
    else if records[|records| - 1].closedAt == time then ClosedAt(records[..|records| - 1], time) + [records[|records| - 1]]
    else ClosedAt(records[..|records| - 1], time)
  }

  lemma {:induction false} InsertKeeps(sorted: seq<Record>, r: Record)
    ensures multiset(Insert(sorted, r)) == multiset(sorted) + multiset{r}
  {
    if sorted != [] && Before(r, sorted[|sorted| - 1]) {
      var front, last := sorted[..|sorted| - 1], sorted[|sorted| - 1];
      InsertKeeps(front, r);
      assert front + [last] == sorted;
    }
  }

  lemma {:induction false} InsertInOrder(sorted: seq<Record>, r: Record)
    requires InOrder(sorted)
    ensures InOrder(Insert(sorted, r))
  {
    hide Before;
    if sorted == [] {
    } else if !Before(r, sorted[|sorted| - 1]) {
      LastIsLatest(sorted, r);
    } else {
      var front, last := sorted[..|sorted| - 1], sorted[|sorted| - 1];
      InsertInOrder(front, r);
      var inner := Insert(front, r);
      NotBoth(r, last);
      forall i | 0 <= i < |inner|
        ensures !Before(last, inner[i])
      {
        InsertKeeps(front, r);
        assert inner[i] in multiset(inner);
        assert inner[i] in front || inner[i] == r;
      }
    }
  }

  lemma NotBoth(a: Record, b: Record)
    requires Before(a, b)
    ensures !Before(b, a)
  {
  }

  lemma LastIsLatest(sorted: seq<Record>, r: Record)
    requires InOrder(sorted) && sorted != [] && !Before(r, sorted[|sorted| - 1])
    ensures InOrder(sorted + [r])
  {
  }

  lemma ClosedAtGrows(front: seq<Record>, last: Record, time: Option<real>)
    ensures ClosedAt(front + [last], time) == if last.closedAt == time then ClosedAt(front, time) + [last] else ClosedAt(front, time)
  {
  }

  lemma {:induction false} InsertAfterTies(sorted: seq<Record>, r: Record, time: Option<real>)
    ensures ClosedAt(Insert(sorted, r), time) == if r.closedAt == time then ClosedAt(sorted, time) + [r] else ClosedAt(sorted, time)
  {
    if sorted == [] || !Before(r, sorted[|sorted| - 1]) {
      ClosedAtGrows(sorted, r, time);
    } else {
      var front, last := sorted[..|sorted| - 1], sorted[|sorted| - 1];
      InsertAfterTies(front, r, time);
      ClosedAtGrows(Insert(front, r), last, time);
      ClosedAtGrows(front, last, time);
      assert front + [last] == sorted;
    }
  }

  /** Sorting keeps the records, orders them by closing time, and keeps ties in order of insertion. */
  lemma {:induction false} OrderedExactly(records: seq<Record>, time: Option<real>)
    ensures InOrder(Ordered(records)) && multiset(Ordered(records)) == multiset(records)
    ensures ClosedAt(Ordered(records), time) == ClosedAt(records, time)
  {
    if records != [] {
      var front, last := records[..|records| - 1], records[|records| - 1];
      OrderedExactly(front, time);
      InsertKeeps(Ordered(front), last);
      InsertInOrder(Ordered(front), last);
      InsertAfterTies(Ordered(front), last, time);
      hide InOrder, Insert;
      assert front + [last] == records;
    }
  }

  function Results(records: seq<Record>): seq<real> {
    seq(|records|, i requires 0 <= i < |records| => records[i].pnl)
  }

  // ----- Drawdown and losing streaks, by definition -----

  /** Equity after i trades. */
  function Equity(pnls: seq<real>, i: nat): real
    requires i <= |pnls|
  {
    Sum(pnls, 0, i)
  }

  ghost predicate IsPeak(pnls: seq<real>, n: nat, peak: real)
    requires n <= |pnls|
  {
    && (forall i | 0 <= i <= n :: Equity(pnls, i) <= peak)
    && exists i :: 0 <= i <= n && Equity(pnls, i) == peak
  }

  function Fall(pnls: seq<real>, i: nat, j: nat): real
    requires i <= |pnls| && j <= |pnls|
  {
    Equity(pnls, i) - Equity(pnls, j)
  }

  /** The largest fall of equity from any point to any later one. */
  ghost predicate IsMaxDrawdown(pnls: seq<real>, n: nat, drawdown: real)
    requires n <= |pnls|
  {
    && (forall i, j | 0 <= i <= j <= n :: Fall(pnls, i, j) <= drawdown)
    && exists i, j :: 0 <= i <= j <= n && Fall(pnls, i, j) == drawdown
  }

  ghost predicate LosingBlock(pnls: seq<real>, lo: nat, hi: nat) {
    lo <= hi <= |pnls| && forall k | lo <= k < hi :: pnls[k] < 0.0
  }

  /** The longest losing block that ends at n. */
  ghost predicate Trailing(pnls: seq<real>, n: nat, streak: nat)
    requires n <= |pnls|
  {
    streak <= n && LosingBlock(pnls, n - streak, n) && (streak < n ==> pnls[n - streak - 1] >= 0.0)
  }

  /** The length of the longest contiguous block of losses. */
  ghost predicate IsLongestStreak(pnls: seq<real>, n: nat, longest: nat)
    requires n <= |pnls|
  {
    && (forall lo: nat, hi: nat | LosingBlock(pnls, lo, hi) && hi <= n :: hi - lo <= longest)
    && exists lo: nat, hi: nat :: LosingBlock(pnls, lo, hi) && hi <= n && hi - lo == longest
  }

  // ----- The statistics -----

  function Positive(pnls: seq<real>): seq<real> {
    if pnls == [] then []
    else if pnls[|pnls| - 1] > 0.0 then Positive(pnls[..|pnls| - 1]) + [pnls[|pnls| - 1]]
    else Positive(pnls[..|pnls| - 1])
  }

  function Negative(pnls: seq<real>): seq<real> {
    if pnls == [] then []
    else if pnls[|pnls| - 1] < 0.0 then Negative(pnls[..|pnls| - 1]) + [pnls[|pnls| - 1]]
    else Negative(pnls[..|pnls| - 1])
  }

  function Total(s: seq<real>): real {
    Sum(s, 0, |s|)
  }

  datatype Stats = Stats(trades: nat, wins: nat, losses: nat, breakeven: int, winRate: Option<real>, grossProfit: real,
                         grossLoss: real, profitFactor: Option<real>, expectancy: Option<real>,
                         averageWin: Option<real>, averageLoss: Option<real>, payoffRatio: Option<real>,
                         breakevenWinRate: Option<real>, netPnl: real, maxDrawdown: real, longestLosingStreak: nat)

  function Ratio(x: real, n: nat): Option<real> {
    if n == 0 then None else Some(x / n as real)
  }

  function Quotient(x: real, y: real): Option<real> {
    if y == 0.0 then None else Some(x / y)
  }

  /** Everything but the two pass-computed figures. */
  function StatsOf(pnls: seq<real>, drawdown: real, longest: nat): Stats {
    var wins, losses := Positive(pnls), Negative(pnls);
    var profit, loss := Total(wins), -Total(losses);
    var averageWin, averageLoss := Ratio(profit, |wins|), Ratio(loss, |losses|);
    Stats(|pnls|, |wins|, |losses|, |pnls| - |wins| - |losses|, Ratio(|wins| as real, |pnls|), profit, loss,
          Quotient(profit, loss), Ratio(Total(pnls), |pnls|), averageWin, averageLoss,
          if averageWin.None? || averageLoss.None? then None else Quotient(averageWin.value, averageLoss.value),
          if averageWin.None? || averageLoss.None? then None else BreakevenRate(averageWin.value, averageLoss.value),
          Total(pnls), drawdown, longest)
  }

  function BreakevenRate(averageWin: real, averageLoss: real): Option<real> {
    if averageWin + averageLoss == 0.0 then None else Some(averageLoss / (averageWin + averageLoss))
  }

  method StatsFor(records: seq<Record>) returns (s: Stats)
    ensures s == StatsOf(Results(Ordered(records)), s.maxDrawdown, s.longestLosingStreak)
    ensures var pnls := Results(Ordered(records));
            IsMaxDrawdown(pnls, |pnls|, s.maxDrawdown) && IsLongestStreak(pnls, |pnls|, s.longestLosingStreak)
  {
    hide StatsOf, Ordered;
    var pnls := Results(Ordered(records));
    var drawdown, longest := DrawdownAndStreak(pnls);
    s := StatsOf(pnls, drawdown, longest);
    StatsKeep(pnls, drawdown, longest);
  }

  lemma StatsKeep(pnls: seq<real>, drawdown: real, longest: nat)
    ensures StatsOf(pnls, drawdown, longest).maxDrawdown == drawdown
    ensures StatsOf(pnls, drawdown, longest).longestLosingStreak == longest
  {
  }

  /** One pass, with a running peak and a running streak. */
  method DrawdownAndStreak(pnls: seq<real>) returns (drawdown: real, longest: nat)
    ensures IsMaxDrawdown(pnls, |pnls|, drawdown)
    ensures IsLongestStreak(pnls, |pnls|, longest)
  {
    var equity, peak := 0.0, 0.0;
    var streak := 0;
    drawdown, longest := 0.0, 0;
    hide Equity, Trailing, IsPeak, IsMaxDrawdown, LosingBlock, IsLongestStreak, Fall;
    NoTrades(pnls);
    for i := 0 to |pnls|
      invariant equity == Equity(pnls, i) && IsPeak(pnls, i, peak) && IsMaxDrawdown(pnls, i, drawdown)
      invariant Trailing(pnls, i, streak)
      invariant IsLongestStreak(pnls, i, longest)
    {
      ghost var oldPeak, oldDrawdown, oldLongest, oldStreak := peak, drawdown, longest, streak;
      equity := equity + pnls[i];
      peak := Max(peak, equity);
      drawdown := Max(drawdown, peak - equity);
      streak := if pnls[i] < 0.0 then streak + 1 else 0;
      longest := if longest < streak then streak else longest;
      EquityStep(pnls, i);
      PeakStep(pnls, i, oldPeak);
      DrawdownStep(pnls, i, peak, oldDrawdown);
      StreakStep(pnls, i, oldStreak, oldLongest);
    }
  }

  lemma EquityStep(pnls: seq<real>, i: nat)
    requires i < |pnls|
    ensures Equity(pnls, i + 1) == Equity(pnls, i) + pnls[i]
  {
  }

  lemma NoTrades(pnls: seq<real>)
    ensures Equity(pnls, 0) == 0.0
    ensures IsPeak(pnls, 0, 0.0) && IsMaxDrawdown(pnls, 0, 0.0) && IsLongestStreak(pnls, 0, 0) && Trailing(pnls, 0, 0)
  {
    assert Equity(pnls, 0) == 0.0 && Fall(pnls, 0, 0) == 0.0;
    assert LosingBlock(pnls, 0, 0);
  }

  lemma PeakStep(pnls: seq<real>, i: nat, peak: real)
    requires i < |pnls| && IsPeak(pnls, i, peak)
    ensures IsPeak(pnls, i + 1, Max(peak, Equity(pnls, i + 1)))
  {
  }

  lemma DrawdownStep(pnls: seq<real>, i: nat, peak: real, drawdown: real)
    requires i < |pnls| && IsPeak(pnls, i + 1, peak) && IsMaxDrawdown(pnls, i, drawdown)
    ensures IsMaxDrawdown(pnls, i + 1, Max(drawdown, peak - Equity(pnls, i + 1)))
  {
    hide Equity;
    var high :| 0 <= high <= i + 1 && Equity(pnls, high) == peak;
    assert Fall(pnls, high, i + 1) == peak - Equity(pnls, i + 1);
    var a, b :| 0 <= a <= b <= i && Fall(pnls, a, b) == drawdown;
    var now := Max(drawdown, peak - Equity(pnls, i + 1));
    assert Fall(pnls, a, b) == now || Fall(pnls, high, i + 1) == now;
    forall x, y | 0 <= x <= y <= i + 1
      ensures Fall(pnls, x, y) <= now
    {
      if y == i + 1 {
        assert Equity(pnls, x) <= peak;
      }
    }
  }

  lemma StreakStep(pnls: seq<real>, i: nat, streak: nat, longest: nat)
    requires i < |pnls| && Trailing(pnls, i, streak) && IsLongestStreak(pnls, i, longest)
    ensures var now := if pnls[i] < 0.0 then streak + 1 else 0;
            Trailing(pnls, i + 1, now)
            && IsLongestStreak(pnls, i + 1, if longest < now then now else longest)
  {
  }
}
