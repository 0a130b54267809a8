/**
 * The exponential moving average of a price window (`calculate_ema` in Bot.py).
 *
 * Prices are exact reals: the model states the recurrence the code computes,
 * not the rounding of the floating-point numbers it computes it with.
 */
module Ema {
  import opened Options

  /** The smoothing constant k = 2 / (period + 1). */
  function Smoothing(period: int): (k: real)
    requires period >= 1
    ensures 0.0 < k <= 1.0
    ensures k * ((period + 1) as real) == 2.0
  {
    2.0 / ((period + 1) as real)
  }

  /**
   * One step of the recurrence: the next price weighted by k, the running
   * average by 1 - k. The average moves toward the price by the fraction k
   * of their distance, and the price is left behind by the fraction 1 - k.
   */
  function Blend(price: real, ema: real, k: real): (r: real)
    ensures r - ema == k * (price - ema)
    ensures price - r == (1.0 - k) * (price - ema)
  {
    price * k + ema * (1.0 - k)
  }

  /**
   * The running average after folding Blend over `rest`, from left to right,
   * starting at `ema`. With full weight (k = 1) each step forgets the average,
   * so what is left is the last price.
   */
  function Fold(ema: real, rest: seq<real>, k: real): (r: real)
    ensures k == 1.0 && rest != [] ==> r == rest[|rest| - 1]
    decreases |rest|
  {
    if rest == [] then ema else Fold(Blend(rest[0], ema, k), rest[1..], k)
  }

  /**
   * The EMA of `prices` for `period`: undefined when the window is shorter
   * than the period, otherwise the recurrence seeded with the first price.
   */
  function CalculateEma(prices: seq<real>, period: int): (r: Option<real>)
    requires period >= 1
    ensures r.None? <==> |prices| < period
  {
    if |prices| < period then None
    else Some(Fold(prices[0], prices[1..], Smoothing(period)))
  }

  /** The loop of `calculate_ema`, accumulating the average in a variable. */
  method CalculateEmaLoop(prices: seq<real>, period: int) returns (r: Option<real>)
    requires period >= 1
    ensures r == CalculateEma(prices, period)
  {
    if |prices| < period {
      return None;
    }
    var k := 2.0 / ((period + 1) as real);
    var ema := prices[0];
    var i := 1;
    while i < |prices|
      invariant 1 <= i <= |prices|
      invariant Fold(ema, prices[i..], k) == Fold(prices[0], prices[1..], k)
    {
      assert prices[i..][0] == prices[i] && prices[i..][1..] == prices[i + 1..];
      ghost var before := ema;
      ema := prices[i] * k + ema * (1.0 - k);
      assert ema == Blend(prices[i], before, k);
      assert Fold(before, prices[i..], k) == Fold(ema, prices[i + 1..], k);
      i := i + 1;
    }
    assert prices[i..] == [];
    return Some(ema);
  }

  // ----- Bounds: each step is a convex combination -----

  /** Stated apart so that BlendBetween's nonlinear steps are stable across solver seeds. */
  lemma ProductNonNegative(a: real, b: real)
    requires a >= 0.0 && b >= 0.0
    ensures a * b >= 0.0
  {
  }

  /** With k in [0, 1], one step stays within any interval holding both its inputs. */
  lemma BlendBetween(price: real, ema: real, k: real, lo: real, hi: real)
    requires 0.0 <= k <= 1.0
    requires lo <= price <= hi && lo <= ema <= hi
    ensures lo <= Blend(price, ema, k) <= hi
  {
    var below, above := price - lo, hi - price;
    var belowAvg, aboveAvg := ema - lo, hi - ema;
    ProductNonNegative(below, k);
    ProductNonNegative(above, k);
    ProductNonNegative(belowAvg, 1.0 - k);
    ProductNonNegative(aboveAvg, 1.0 - k);
    assert Blend(price, ema, k) - lo == below * k + belowAvg * (1.0 - k);
    assert hi - Blend(price, ema, k) == above * k + aboveAvg * (1.0 - k);
  }

  lemma {:induction false} FoldBetween(ema: real, rest: seq<real>, k: real, lo: real, hi: real)
    requires 0.0 <= k <= 1.0
    requires lo <= ema <= hi
    requires forall i :: 0 <= i < |rest| ==> lo <= rest[i] <= hi
    ensures lo <= Fold(ema, rest, k) <= hi
    decreases |rest|
  {
    if rest != [] {
      BlendBetween(rest[0], ema, k, lo, hi);
      FoldBetween(Blend(rest[0], ema, k), rest[1..], k, lo, hi);
    }
  }

  /** A defined EMA lies in every interval that holds all prices of the window. */
  lemma EmaWithinBounds(prices: seq<real>, period: int, lo: real, hi: real)
    requires 1 <= period <= |prices|
    requires forall i :: 0 <= i < |prices| ==> lo <= prices[i] <= hi
    ensures CalculateEma(prices, period).Some?
    ensures lo <= CalculateEma(prices, period).value <= hi
  {
    FoldBetween(prices[0], prices[1..], Smoothing(period), lo, hi);
  }

  /** The smallest price of a non-empty window. */
  function Min(s: seq<real>): (m: real)
    requires s != []
    ensures m in s
    ensures forall i :: 0 <= i < |s| ==> m <= s[i]
    decreases |s|
  {
    if |s| == 1 then s[0]
    else var m := Min(s[1..]); if s[0] <= m then s[0] else m
  }

  /** The largest price of a non-empty window. */
  function Max(s: seq<real>): (m: real)
    requires s != []
    ensures m in s
    ensures forall i :: 0 <= i < |s| ==> s[i] <= m
    decreases |s|
  {
    if |s| == 1 then s[0]
    else var m := Max(s[1..]); if s[0] >= m then s[0] else m
  }

  /** A defined EMA lies between the minimum and the maximum of its window. */
  lemma EmaBetweenMinMax(prices: seq<real>, period: int)
    requires 1 <= period <= |prices|
    ensures CalculateEma(prices, period).Some?
    ensures Min(prices) <= CalculateEma(prices, period).value <= Max(prices)
  {
    EmaWithinBounds(prices, period, Min(prices), Max(prices));
  }

  /** A window holding one price throughout averages to that price. */
  lemma EmaOfConstant(prices: seq<real>, period: int, c: real)
    requires 1 <= period <= |prices|
    requires forall i :: 0 <= i < |prices| ==> prices[i] == c
    ensures CalculateEma(prices, period) == Some(c)
  {
    EmaWithinBounds(prices, period, c, c);
  }

  // ----- The recurrence -----

  /** Folding over one more price is one more Blend of the previous result. */
  lemma {:induction false} FoldSnoc(ema: real, rest: seq<real>, price: real, k: real)
    ensures Fold(ema, rest + [price], k) == Blend(price, Fold(ema, rest, k), k)
    decreases |rest|
  {
    if rest == [] {
      assert [] + [price] == [price];
      assert [price][1..] == [];
    } else {
      assert (rest + [price])[0] == rest[0];
      assert (rest + [price])[1..] == rest[1..] + [price];
      FoldSnoc(Blend(rest[0], ema, k), rest[1..], price, k);
    }
  }

  /**
   * Once the EMA of a window is defined, the EMA of the window extended by one
   * price is that price blended into the previous EMA with weight k.
   */
  lemma EmaExtend(prices: seq<real>, period: int, price: real)
    requires 1 <= period <= |prices|
    ensures CalculateEma(prices + [price], period)
         == Some(Blend(price, CalculateEma(prices, period).value, Smoothing(period)))
  {
    var extended := prices + [price];
    assert extended[0] == prices[0];
    assert extended[1..] == prices[1..] + [price];
    FoldSnoc(prices[0], prices[1..], price, Smoothing(period));
  }

  /** With period 1 the smoothing constant is 1, so the EMA is the newest price. */
  lemma EmaPeriodOne(prices: seq<real>)
    requires prices != []
    ensures CalculateEma(prices, 1) == Some(prices[|prices| - 1])
  {
    assert Smoothing(1) == 1.0;
  }

  /** An example: [10, 20, 30] with period 2 (k = 2/3) gives 230/9. */
  lemma EmaExample()
    ensures CalculateEma([10.0, 20.0, 30.0], 2) == Some(230.0 / 9.0)
  {
    var prices := [10.0, 20.0, 30.0];
    var k := Smoothing(2);
    assert k == 2.0 / 3.0;
    assert prices[1..] == [20.0, 30.0];
    assert [20.0, 30.0][1..] == [30.0];
    assert [30.0][1..] == [];
    assert Blend(20.0, 10.0, k) == 50.0 / 3.0;
    assert Blend(30.0, 50.0 / 3.0, k) == 230.0 / 9.0;
  }
}
