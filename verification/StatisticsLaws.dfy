/** What the reported figures say about each other: order of delivery, win-rate evidence, break-even. */
module StatisticsLaws {
  import opened Wrappers
  import opened RealMath
  import opened Learning
  import opened Statistics

  // ----- The order of delivery does not matter -----

  /** Trades with one closing time are one record. */
  ghost predicate NoTies(records: seq<Record>) {
    forall a, b | a in records && b in records && a.closedAt == b.closedAt :: a == b
  }

  lemma {:induction false} SortedIsUnique(a: seq<Record>, b: seq<Record>)
    requires InOrder(a) && InOrder(b) && multiset(a) == multiset(b) && NoTies(a)
    ensures a == b
  {
    hide Before;
    SameLength(a, b);
    if a != [] {
      var n := |a| - 1;
      SameLast(a, b);
      FrontKeeps(a, a[..n], a[n]);
      FrontKeeps(b, b[..n], b[n]);
      forall x | x in a[..n]
        ensures x in a
      {
      }
      SortedIsUnique(a[..n], b[..n]);
    }
  }

  lemma SameLength(a: seq<Record>, b: seq<Record>)
    requires multiset(a) == multiset(b)
    ensures |a| == |b|
  {
    assert |multiset(a)| == |a| && |multiset(b)| == |b|;
  }

  lemma FrontKeeps(s: seq<Record>, front: seq<Record>, last: Record)
    requires s != [] && front == s[..|s| - 1] && last == s[|s| - 1]
    ensures s == front + [last] && multiset(front) == multiset(s) - multiset{last}
  {
  }

  lemma SameLast(a: seq<Record>, b: seq<Record>)
    requires InOrder(a) && InOrder(b) && multiset(a) == multiset(b) && NoTies(a) && a != [] && |a| == |b|
    ensures a[|a| - 1] == b[|b| - 1]
  {
    var x, y := a[|a| - 1], b[|b| - 1];
    assert x in multiset(b) && y in multiset(a);
    var i :| 0 <= i < |b| && b[i] == x;
    var j :| 0 <= j < |a| && a[j] == y;
    if i < |b| - 1 && j < |a| - 1 {
      assert !Before(y, x) && !Before(x, y);
      Unordered(x, y);
    }
  }

  lemma Unordered(x: Record, y: Record)
    requires !Before(x, y) && !Before(y, x)
    ensures x.closedAt == y.closedAt
  {
  }

  /** However the outcomes arrived, the results are taken in the same order. */
  lemma DeliveryOrderIrrelevant(a: seq<Record>, b: seq<Record>)
    requires multiset(a) == multiset(b) && NoTies(a)
    ensures Ordered(a) == Ordered(b)
  {
    OrderedExactly(a, None);
    OrderedExactly(b, None);
    forall r | r in Ordered(a)
      ensures r in a
    {
      assert r in multiset(Ordered(a));
    }
    SortedIsUnique(Ordered(a), Ordered(b));
  }

  // ----- Break-even -----

  lemma SumAppend(s: seq<real>, x: real)
    ensures Total(s + [x]) == Total(s) + x
  {
    SumAgree(s + [x], s, 0, |s|);
  }

  lemma {:induction false} SignsSplit(pnls: seq<real>)
    ensures Total(pnls) == Total(Positive(pnls)) + Total(Negative(pnls))
    ensures |Positive(pnls)| + |Negative(pnls)| <= |pnls|
    ensures |Positive(pnls)| > 0 ==> Total(Positive(pnls)) > 0.0
    ensures |Negative(pnls)| > 0 ==> Total(Negative(pnls)) < 0.0
  {
    hide Total;
    if pnls == [] {
      NothingTotal();
    } else {
      var front, x := pnls[..|pnls| - 1], pnls[|pnls| - 1];
      SignsSplit(front);
      assert front + [x] == pnls;
      SumAppend(front, x);
      SumAppend(Positive(front), x);
      SumAppend(Negative(front), x);
      NothingTotal();
    }
  }

  lemma NothingTotal()
    ensures Total([]) == 0.0
  {
  }

  /** The win rate is below the reported break-even rate exactly when the net result is below what the
      break-even trades would have lost at the average loss. So a negative expectancy always shows, and
      it is the only thing that shows when there are no break-even trades. */
  lemma ExpectancyAgainstBreakeven(pnls: seq<real>, drawdown: real, longest: nat)
    requires |Positive(pnls)| > 0 && |Negative(pnls)| > 0
    ensures var s := StatsOf(pnls, drawdown, longest);
            && s.breakevenWinRate.Some? && 0.0 < s.breakevenWinRate.value < 1.0
            && (s.winRate.value < s.breakevenWinRate.value <==> s.netPnl < s.breakeven as real * s.averageLoss.value)
            && (s.expectancy.value < 0.0 ==> s.winRate.value < s.breakevenWinRate.value)
            && (s.breakeven == 0 ==> (s.expectancy.value < 0.0 <==> s.winRate.value < s.breakevenWinRate.value))
            && s.profitFactor.Some? && (s.profitFactor.value < 1.0 <==> s.netPnl < 0.0)
            && s.payoffRatio.Some? && s.breakevenWinRate.value * (1.0 + s.payoffRatio.value) == 1.0
  {
    hide Total, Positive, Negative;
    SignsSplit(pnls);
    var profit, loss := Total(Positive(pnls)), -Total(Negative(pnls));
    RatioAgainst(profit, loss, 1.0);
    PayoffAgainstBreakeven(profit / |Positive(pnls)| as real, loss / |Negative(pnls)| as real);
    Expectancy(profit, loss, |Positive(pnls)|, |Negative(pnls)|, |pnls|);
  }

  lemma PayoffAgainstBreakeven(averageWin: real, averageLoss: real)
    requires averageWin > 0.0 && averageLoss > 0.0
    ensures averageLoss / (averageWin + averageLoss) * (1.0 + averageWin / averageLoss) == 1.0
  {
    SumOfRatios(averageLoss, averageWin, averageLoss);
    assert averageLoss / averageLoss == 1.0;
    Reciprocals(averageLoss, averageWin + averageLoss);
  }

  lemma Reciprocals(x: real, y: real)
    requires x > 0.0 && y > 0.0
    ensures x / y * (y / x) == 1.0
  {
    var r := y / x;
    assert r * x == y;
    assert x / y * r == x * r / y;
  }

  lemma Expectancy(profit: real, loss: real, wins: nat, losses: nat, trades: nat)
    requires profit > 0.0 && loss > 0.0 && wins > 0 && losses > 0 && wins + losses <= trades
    ensures profit / wins as real > 0.0 && loss / losses as real > 0.0
    ensures var averageWin, averageLoss := profit / wins as real, loss / losses as real;
            var rate, even := wins as real / trades as real, averageLoss / (averageWin + averageLoss);
            var b, net := trades - wins - losses, profit - loss;
            && 0.0 < even < 1.0
            && (rate < even <==> net < b as real * averageLoss)
            && (net / trades as real < 0.0 ==> rate < even)
            && (b == 0 ==> (net / trades as real < 0.0 <==> rate < even))
  {
  }

  /** With break-even trades the equivalence fails: this sample earns money below its break-even rate. */
  lemma BreakevenTradesHideAnEdge()
    ensures var s := StatsOf([2.0, -1.0, 0.0, 0.0], 1.0, 1);
            s.expectancy.value > 0.0 && s.breakevenWinRate.Some? && s.winRate.value < s.breakevenWinRate.value
  {
    var pnls := [2.0, -1.0, 0.0, 0.0];
    assert pnls[..3] == [2.0, -1.0, 0.0] && [2.0, -1.0, 0.0][..2] == [2.0, -1.0] && [2.0, -1.0][..1] == [2.0] && [2.0][..0] == [];
    assert Positive([2.0]) == [2.0] && Negative([2.0]) == [];
    assert Positive([2.0, -1.0]) == [2.0] && Negative([2.0, -1.0]) == [-1.0];
    assert Positive([2.0, -1.0, 0.0]) == [2.0] && Negative([2.0, -1.0, 0.0]) == [-1.0];
    assert Positive(pnls) == [2.0] && Negative(pnls) == [-1.0];
    assert Total([2.0]) == 2.0 && Total([-1.0]) == -1.0;
    assert Total(pnls) == 1.0 by { SignsSplit(pnls); }
  }

  // ----- The Wilson interval -----

  /** The term under the square root. */
  function Radicand(p: real, n: real, z: real): real
    requires n > 0.0
  {
    p * (1.0 - p) / n + z * z / (4.0 * n * n)
  }

  /** The interval before clipping to [0, 1]; root is the square root of the radicand. */
  function Wilson(p: real, n: real, z: real, root: real): (real, real)
    requires n > 0.0 && 1.0 + z * z / n > 0.0
  {
    var denominator := 1.0 + z * z / n;
    var centre := (p + z * z / (2.0 * n)) / denominator;
    var margin := z * root / denominator;
    (centre - margin, centre + margin)
  }

  lemma SquareOrder(x: real, y: real)
    requires 0.0 <= y && x * x <= y * y
    ensures x <= y
  {
    assert (x - y) * (x + y) == x * x - y * y;
    if x > y {
      MulPositive(x - y, x + y);
    }
  }

  // With a = z^2/n and m = z * root the bounds are comparisons of squares.

  lemma MarginBelow(p: real, a: real, m: real)
    requires 0.0 <= p && 0.0 <= a && m * m == a * (p * (1.0 - p)) + a * a / 4.0
    ensures m <= p + a / 2.0
  {
    var square, q := p * p, p * (1.0 - p);
    assert p == q + square;
    MulNonNegative(p, p);
    MulNonNegative(a, square);
    assert a * p == a * q + a * square;
    assert (p + a / 2.0) * (p + a / 2.0) == square + a * p + a * a / 4.0;
    SquareOrder(m, p + a / 2.0);
  }

  lemma MarginCovers(p: real, a: real, m: real, x: real)
    requires 0.0 <= p <= 1.0 && 0.0 <= a && 0.0 <= m && m * m == a * (p * (1.0 - p)) + a * a / 4.0
    requires x == a * (p - 0.5) || x == a * (0.5 - p)
    ensures x <= m
  {
    var q, aa := p * (1.0 - p), a * a;
    MulNonNegative(p, 1.0 - p);
    MulNonNegative(a, q);
    MulNonNegative(a, a);
    MulNonNegative(aa, q);
    assert (p - 0.5) * (p - 0.5) == 0.25 - q;
    assert x * x == aa * ((p - 0.5) * (p - 0.5)) by { Square(a, p - 0.5, x); }
    assert aa * (0.25 - q) == aa / 4.0 - aa * q;
    SquareOrder(x, m);
  }

  lemma Square(a: real, d: real, x: real)
    requires x == a * d || x == a * (-d)
    ensures x * x == a * a * (d * d)
  {
  }

  lemma WilsonScaled(p: real, a: real, m: real)
    requires 0.0 <= p <= 1.0 && 0.0 <= a && 0.0 <= m && m * m == a * (p * (1.0 - p)) + a * a / 4.0
    ensures m <= p + a / 2.0 && m <= 1.0 - p + a / 2.0
    ensures p + a / 2.0 - m <= p * (1.0 + a) <= p + a / 2.0 + m
  {
    MarginBelow(p, a, m);
    assert p * (1.0 - p) == (1.0 - p) * (1.0 - (1.0 - p));
    MarginBelow(1.0 - p, a, m);
    MarginCovers(p, a, m, a * (p - 0.5));
    MarginCovers(p, a, m, a * (0.5 - p));
    assert p * (1.0 + a) == p + a * p && a * (p - 0.5) == a * p - a / 2.0 && a * (0.5 - p) == a / 2.0 - a * p;
  }

  /** The interval contains the observed rate and lies in [0, 1] before any clipping. */
  lemma WilsonContainsRate(wins: nat, n: nat, z: real, root: real)
    requires 0 < n && wins <= n && 0.0 <= z && 0.0 <= root
    requires root * root == Radicand(wins as real / n as real, n as real, z)
    ensures 1.0 + z * z / n as real > 0.0
    ensures var p := wins as real / n as real;
            var (low, high) := Wilson(p, n as real, z, root);
            0.0 <= low <= p <= high <= 1.0
  {
    var p, count := wins as real / n as real, n as real;
    DivideBounds(wins as real, 0.0, 1.0, count);
    var a, m := z * z / count, z * root;
    MulNonNegative(z, z);
    DivideBounds(z * z, 0.0, z * z / count, count);
    MulNonNegative(z, root);
    SquareOfMargin(p, count, z, root);
    WilsonScaled(p, a, m);
    HalfRatio(z * z, count);
    Rescale(p, a, m);
  }

  lemma HalfRatio(x: real, n: real)
    requires n > 0.0
    ensures x / (2.0 * n) == x / n / 2.0
  {
  }

  lemma SquareOfMargin(p: real, n: real, z: real, root: real)
    requires n > 0.0 && root * root == Radicand(p, n, z)
    ensures z * root * (z * root) == z * z / n * (p * (1.0 - p)) + z * z / n * (z * z / n) / 4.0
  {
  }

  lemma Rescale(p: real, a: real, m: real)
    requires 0.0 <= a && 0.0 <= m && m <= p + a / 2.0 && m <= 1.0 - p + a / 2.0
    requires p + a / 2.0 - m <= p * (1.0 + a) <= p + a / 2.0 + m
    ensures var d := 1.0 + a; var c := (p + a / 2.0) / d;
            0.0 <= c - m / d <= p <= c + m / d <= 1.0
  {
    var d, s := 1.0 + a, p + a / 2.0;
    SumOfRatios(s, m, d);
    DivideBounds(s - m, 0.0, p, d);
    DivideBounds(s + m, p, 1.0, d);
  }

  lemma SumOfRatios(x: real, y: real, d: real)
    requires d > 0.0
    ensures x / d - y / d == (x - y) / d && x / d + y / d == (x + y) / d
  {
  }
}
