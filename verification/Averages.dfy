/** The recursive averages in closed form: how much each past bar weighs in the value shown at bar i. */
module Averages {
  import opened RealMath
  import opened Indicators

  function Times(x: real, y: real): real {
    x * y
  }

  lemma TimesAdd(w: real, x: real, y: real)
    ensures Times(w, x + y) == Times(w, x) + Times(w, y)
  {
  }

  lemma TimesAssociates(x: real, y: real, z: real)
    ensures Times(x, Times(y, z)) == Times(Times(x, y), z)
  {
  }

  lemma TimesUnits(x: real)
    ensures Times(1.0, x) == x && Times(x, 0.0) == 0.0
  {
  }

  function Power(w: real, n: nat): real {
    if n == 0 then 1.0 else Times(w, Power(w, n - 1))
  }

  /** x(first) = start, x(i) = w x(i-1) + c s(i): the shape of all three recurrences. */
  function Recurrence(s: seq<real>, w: real, c: real, first: nat, start: real, i: nat): real
    requires first <= i < |s|
  {
    if i == first then start else Times(w, Recurrence(s, w, c, first, start, i - 1)) + Times(c, s[i])
  }

  /** What bar j contributes at bar i. */
  function Share(s: seq<real>, w: real, c: real, i: nat, j: nat): real
    requires j <= i && j < |s|
  {
    Times(Power(w, i - j), Times(c, s[j]))
  }

  /** The contributions of the bars after first, up to bar last. */
  function Shares(s: seq<real>, w: real, c: real, first: nat, i: nat, last: nat): real
    requires first <= last <= i < |s|
  {
    if last == first then 0.0 else Shares(s, w, c, first, i, last - 1) + Share(s, w, c, i, last)
  }

  /** One bar later every earlier contribution has decayed by the factor w. */
  lemma {:induction false} SharesDecay(s: seq<real>, w: real, c: real, first: nat, i: nat, last: nat)
    requires first <= last <= i && i + 1 < |s|
    ensures Shares(s, w, c, first, i + 1, last) == Times(w, Shares(s, w, c, first, i, last))
  {
    hide Times;
    if last == first {
      TimesUnits(w);
    } else {
      SharesDecay(s, w, c, first, i, last - 1);
      TimesAssociates(w, Power(w, i - last), Times(c, s[last]));
      TimesAdd(w, Shares(s, w, c, first, i, last - 1), Share(s, w, c, i, last));
    }
  }

  /** The start decays by w per bar, and bar j weighs c w^(i-j). */
  lemma {:induction false} RecurrenceClosed(s: seq<real>, w: real, c: real, first: nat, start: real, i: nat)
    requires first <= i < |s|
    ensures Recurrence(s, w, c, first, start, i) == Times(Power(w, i - first), start) + Shares(s, w, c, first, i, i)
  {
    hide Times;
    TimesUnits(start);
    if i > first {
      RecurrenceClosed(s, w, c, first, start, i - 1);
      SharesDecay(s, w, c, first, i - 1, i - 1);
      TimesUnits(Times(c, s[i]));
      TimesAssociates(w, Power(w, i - 1 - first), start);
      TimesAdd(w, Times(Power(w, i - 1 - first), start), Shares(s, w, c, first, i - 1, i - 1));
    }
  }

  /** The exponential average of period p gives bar j the weight alpha (1 - alpha)^(i-j), alpha = 2 / (p + 1). */
  lemma EmaWeights(values: seq<real>, period: Period, i: nat)
    requires i < |values|
    ensures var alpha := 2.0 / (period + 1) as real;
            EmaAt(values, period, i)
            == Times(Power(1.0 - alpha, i), values[0]) + Shares(values, 1.0 - alpha, alpha, 0, i, i)
  {
    var alpha := 2.0 / (period + 1) as real;
    EmaRecurs(values, period, i);
    RecurrenceClosed(values, 1.0 - alpha, alpha, 0, values[0], i);
  }

  lemma {:induction false} EmaRecurs(values: seq<real>, period: Period, i: nat)
    requires i < |values|
    ensures var alpha := 2.0 / (period + 1) as real;
            EmaAt(values, period, i) == Recurrence(values, 1.0 - alpha, alpha, 0, values[0], i)
  {
    if i > 0 {
      EmaRecurs(values, period, i - 1);
    }
  }

  /** Wilder's average gives bar j the weight (1/p) ((p-1)/p)^(i-j), and its seed, the mean of the first
      p values, the remaining ((p-1)/p)^(i-first). */
  lemma WilderWeights(s: seq<real>, period: Period, first: nat, i: nat)
    requires period <= first + 1 && first <= i < |s|
    ensures var n := period as real;
            WilderAt(s, period, first, i)
            == Times(Power((n - 1.0) / n, i - first), Sum(s, first + 1 - period, first + 1) / n)
               + Shares(s, (n - 1.0) / n, 1.0 / n, first, i, i)
  {
    hide Power, Shares, Recurrence, WilderAt, Sum, Times;
    var n := period as real;
    WilderRecurs(s, period, first, i);
    RecurrenceClosed(s, (n - 1.0) / n, 1.0 / n, first, Sum(s, first + 1 - period, first + 1) / n, i);
  }

  lemma {:induction false} WilderRecurs(s: seq<real>, period: Period, first: nat, i: nat)
    requires period <= first + 1 && first <= i < |s|
    ensures var n := period as real;
            WilderAt(s, period, first, i)
            == Recurrence(s, (n - 1.0) / n, 1.0 / n, first, Sum(s, first + 1 - period, first + 1) / n, i)
  {
    hide WilderNext, Times, Sum;
    if i > first {
      WilderRecurs(s, period, first, i - 1);
      NextAsMix(WilderAt(s, period, first, i - 1), s[i], period);
    }
  }

  lemma NextAsMix(before: real, x: real, period: Period)
    ensures var n := period as real;
            WilderNext(before, x, period) == Times((n - 1.0) / n, before) + Times(1.0 / n, x)
  {
    var n := period as real;
    var a, b := (n - 1.0) / n, 1.0 / n;
    assert a * n == n - 1.0 && b * n == 1.0;
    assert (a * before + b * x) * n == before * (a * n) + (b * n) * x;
  }

  /** The running sums of the directional index weigh bar j with ((p-1)/p)^(i-j). */
  lemma SmoothWeights(s: seq<real>, period: Period, i: nat)
    requires period <= i < |s|
    ensures var n := period as real;
            SmoothAt(s, period, i)
            == Times(Power((n - 1.0) / n, i - period), Sum(s, 1, period + 1))
               + Shares(s, (n - 1.0) / n, 1.0, period, i, i)
  {
    hide Power, Shares, Recurrence, SmoothAt, Sum, Times;
    var n := period as real;
    SmoothRecurs(s, period, i);
    RecurrenceClosed(s, (n - 1.0) / n, 1.0, period, Sum(s, 1, period + 1), i);
  }

  lemma {:induction false} SmoothRecurs(s: seq<real>, period: Period, i: nat)
    requires period <= i < |s|
    ensures var n := period as real;
            SmoothAt(s, period, i) == Recurrence(s, (n - 1.0) / n, 1.0, period, Sum(s, 1, period + 1), i)
  {
    hide SmoothNext, Times, Sum;
    if i > period {
      SmoothRecurs(s, period, i - 1);
      SmoothAsMix(SmoothAt(s, period, i - 1), s[i], period);
    }
  }

  lemma SmoothAsMix(before: real, x: real, period: Period)
    ensures var n := period as real;
            SmoothNext(before, x, period) == Times((n - 1.0) / n, before) + Times(1.0, x)
  {
    var n := period as real;
    assert before / n * n == before;
    assert (n - 1.0) / n * n == n - 1.0;
    SameMultiple(Times((n - 1.0) / n, before), before - before / n, n);
  }

  /** Away from the flat case the index is the gains' share of all movement. */
  lemma RsiIsGainShare(gain: real, loss: real)
    requires 0.0 <= gain && 0.0 <= loss && 0.0 < gain + loss
    ensures RsiFrom(gain, loss) == 100.0 * (gain / (gain + loss))
  {
    if loss != 0.0 {
      var q, total := gain / loss, gain + loss;
      var a, b := 100.0 / (1.0 + q), gain / total;
      assert total == loss * (1.0 + q);
      assert a * (1.0 + q) == 100.0;
      assert a * total == 100.0 * loss by { assert a * (loss * (1.0 + q)) == loss * (a * (1.0 + q)); }
      assert b * total == gain;
      SameMultiple(100.0 - a, 100.0 * b, total);
    }
  }

  lemma SameMultiple(x: real, y: real, n: real)
    requires 0.0 < n && x * n == y * n
    ensures x == y
  {
  }
}
