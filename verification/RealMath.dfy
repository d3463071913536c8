/** Arithmetic shared by the stages. Floating point numbers are modelled as reals. */
module RealMath {

  function Abs(x: real): real {
    if x < 0.0 then -x else x
  }

  function Max(x: real, y: real): real {
    if x < y then y else x
  }

  function Min(x: real, y: real): real {
    if y < x then y else x
  }

  function Clip(x: real): real {
    Max(0.0, Min(1.0, x))
  }

  /** s[lo] + ... + s[hi-1] */
  function Sum(s: seq<real>, lo: nat, hi: nat): real
    requires hi <= |s|
    decreases hi
  {
    if hi <= lo then 0.0 else Sum(s, lo, hi - 1) + s[hi - 1]
  }

  lemma {:induction false} SumAgree(a: seq<real>, b: seq<real>, lo: nat, hi: nat)
    requires hi <= |a| && hi <= |b|
    requires forall j | lo <= j < hi :: a[j] == b[j]
    ensures Sum(a, lo, hi) == Sum(b, lo, hi)
    decreases hi
  {
    if lo < hi {
      SumAgree(a, b, lo, hi - 1);
    }
  }

  lemma {:induction false} SumBounds(a: seq<real>, lo: nat, hi: nat, low: real, high: real)
    requires lo <= hi <= |a|
    requires forall j | lo <= j < hi :: low <= a[j] <= high
    ensures low * (hi - lo) as real <= Sum(a, lo, hi) <= high * (hi - lo) as real
    decreases hi
  {
    if lo < hi {
      SumBounds(a, lo, hi - 1, low, high);
      assert (hi - lo) as real == (hi - 1 - lo) as real + 1.0;
      assert low * (hi - lo) as real == low * (hi - 1 - lo) as real + low;
      assert high * (hi - lo) as real == high * (hi - 1 - lo) as real + high;
    }
  }

  /** An upper bound of s[lo..hi]. */
  ghost function Ceiling(s: seq<real>, lo: nat, hi: nat): (top: real)
    requires lo < hi <= |s|
    ensures forall j | lo <= j < hi :: s[j] <= top
    decreases hi
  {
    if lo + 1 == hi then s[lo] else Max(Ceiling(s, lo, hi - 1), s[hi - 1])
  }

  lemma DivideBounds(x: real, low: real, high: real, n: real)
    requires 0.0 < n && low * n <= x <= high * n
    ensures low <= x / n <= high
  {
  }

  lemma DivideMonotone(x: real, y: real, n: real)
    requires x <= y && 0.0 < n
    ensures x / n <= y / n
  {
  }

  /** Comparing a ratio is comparing the numerator with the scaled bound. */
  lemma RatioAgainst(x: real, n: real, bound: real)
    requires 0.0 < n
    ensures x / n > bound <==> x > bound * n
    ensures x / n < bound <==> x < bound * n
  {
    var r := x / n;
    assert r * n == x;
    assert (r - bound) * n == x - bound * n;
  }

  lemma MulMonotone(x: real, y: real, n: real)
    requires x <= y && 0.0 <= n
    ensures x * n <= y * n
  {
  }

  /** A weighted mean stays between its bounds. */
  lemma MixBounds(a: real, x: real, w: real, low: real, high: real)
    requires low <= a <= high && low <= x <= high && 0.0 <= w
    ensures low <= (a * w + x) / (w + 1.0) <= high
  {
    var n, total := w + 1.0, a * w + x;
    assert low * n <= total by {
      MulMonotone(low, a, w);
      OneMore(low, w, n);
    }
    assert total <= high * n by {
      MulMonotone(a, high, w);
      OneMore(high, w, n);
    }
    DivideBounds(total, low, high, n);
  }

  lemma OneMore(x: real, w: real, n: real)
    requires n == w + 1.0
    ensures x * n == x * w + x
  {
  }

  // Z3 needs products named one at a time.

  lemma MulPositive(x: real, y: real)
    requires 0.0 < x && 0.0 < y
    ensures 0.0 < x * y
  {
  }

  lemma MulNonNegative(x: real, y: real)
    requires 0.0 <= x && 0.0 <= y
    ensures 0.0 <= x * y
  {
  }

  lemma MulAdd(x: real, y: real, n: real)
    ensures (x + y) * n == x * n + y * n
  {
  }

  lemma MulSub(x: real, y: real, n: real)
    ensures (x - y) * n == x * n - y * n
  {
  }

  lemma DivideMul(x: real, n: real)
    requires n != 0.0
    ensures x / n * n == x
  {
  }
}
