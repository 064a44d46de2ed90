/** Smoothing of a sequence's amplitude: the first-order exponential filter
    and the running-sum moving average. */
module Filtering {
  import opened Common
  import opened SampleGrid

  // ---------------------------------------------------------------------
  // Exponential filter

  /** The exponentially filtered signal: it starts at x[0], and each later
      output moves from the previous output towards the new input by the
      fraction alpha. */
  function ExpFiltered(x: seq<real>, alpha: real): (y: seq<real>)
    ensures |y| == |x|
  {
    if |x| <= 1 then x
    else
      var prev := ExpFiltered(x[..|x| - 1], alpha);
      prev + [prev[|x| - 2] + alpha * (x[|x| - 1] - prev[|x| - 2])]
  }

  /** The filter is causal: filtering a prefix gives the prefix of the
      filtered signal. */
  lemma {:induction false} ExpFilteredPrefix(x: seq<real>, alpha: real, m: nat)
    requires m <= |x|
    ensures ExpFiltered(x[..m], alpha) == ExpFiltered(x, alpha)[..m]
    decreases |x|
  {
    if m == |x| {
      assert x[..m] == x;
    } else if |x| == 1 {
      assert x[..m] == [];
    } else {
      var init := x[..|x| - 1];
      ExpFilteredPrefix(init, alpha, m);
      assert init[..m] == x[..m];
      var y := ExpFiltered(x, alpha);
      assert y[..|x| - 1] == ExpFiltered(init, alpha);
      assert y[..m] == y[..|x| - 1][..m];
    }
  }

  /** The recurrence the filter's loop runs: y[0] = x[0] and
      y[k] = y[k-1] + alpha·(x[k] − y[k-1]). */
  lemma ExpFilteredRecurrence(x: seq<real>, alpha: real, k: nat)
    requires k < |x|
    ensures var y := ExpFiltered(x, alpha);
      if k == 0 then y[0] == x[0] else y[k] == y[k - 1] + alpha * (x[k] - y[k - 1])
  {
    var y := ExpFiltered(x, alpha);
    ExpFilteredPrefix(x, alpha, k + 1);
    var p := x[..k + 1];
    if k > 0 {
      assert p[..k] == x[..k];
      ExpFilteredPrefix(x, alpha, k);
      assert ExpFiltered(p, alpha)[k] == y[k];
      assert ExpFiltered(p, alpha)[k - 1] == ExpFiltered(x[..k], alpha)[k - 1] == y[k - 1];
    } else {
      assert y[0] == ExpFiltered(p, alpha)[0] == p[0];
    }
  }

  /** `exp_filter`: fails with IndexError on an empty signal (`y[0] = x[0]`),
      otherwise runs the recurrence over a zero-filled array. */
  method ExpFilter(z0: seq<real>, alpha: real) returns (r: Result<seq<real>>)
    ensures |z0| == 0 <==> r == Err(IndexError)
    ensures r.Ok? ==> r.value == ExpFiltered(z0, alpha)
  {
    var K := |z0|;
    var y := new real[K](_ => 0.0);
    if K == 0 {
      return Err(IndexError);
    }
    y[0] := z0[0];
    ExpFilteredRecurrence(z0, alpha, 0);
    var k := 1;
    while k < K
      invariant 1 <= k <= K
      invariant forall j :: 0 <= j < k ==> y[j] == ExpFiltered(z0, alpha)[j]
    {
      ExpFilteredRecurrence(z0, alpha, k);
      y[k] := y[k - 1] + alpha * (z0[k] - y[k - 1]);
      k := k + 1;
    }
    r := Ok(y[..]);
  }

  /** alpha = 1 passes the signal through unchanged. */
  lemma {:induction false} ExpFilterPassThrough(x: seq<real>)
    ensures ExpFiltered(x, 1.0) == x
  {
    if |x| > 1 {
      ExpFilterPassThrough(x[..|x| - 1]);
      assert x == x[..|x| - 1] + [x[|x| - 1]];
    }
  }

  /** alpha = 0 holds the first sample for ever. */
  lemma {:induction false} ExpFilterHolds(x: seq<real>, k: nat)
    requires k < |x|
    ensures ExpFiltered(x, 0.0)[k] == x[0]
  {
    if k > 0 {
      ExpFilteredRecurrence(x, 0.0, k);
      ExpFilterHolds(x, k - 1);
    } else {
      ExpFilteredRecurrence(x, 0.0, 0);
    }
  }

  /** With 0 ≤ alpha ≤ 1 every output is a convex mix of the inputs so far,
      so output k stays within any band [lo, hi] that holds x[0..k]. */
  lemma {:induction false} ExpFilterBounded(x: seq<real>, alpha: real, lo: real, hi: real, k: nat)
    requires 0.0 <= alpha <= 1.0 && k < |x|
    requires forall i :: 0 <= i <= k ==> lo <= x[i] <= hi
    ensures lo <= ExpFiltered(x, alpha)[k] <= hi
  {
    ExpFilteredRecurrence(x, alpha, k);
    if k > 0 {
      ExpFilterBounded(x, alpha, lo, hi, k - 1);
      var y := ExpFiltered(x, alpha);
      ConvexStep(y[k - 1], x[k], alpha, lo, hi);
    }
  }

  lemma ConvexStep(p: real, v: real, alpha: real, lo: real, hi: real)
    requires 0.0 <= alpha <= 1.0 && lo <= p <= hi && lo <= v <= hi
    ensures lo <= p + alpha * (v - p) <= hi
  {
    var q := p + alpha * (v - p);
    assert q - lo == (1.0 - alpha) * (p - lo) + alpha * (v - lo);
    assert hi - q == (1.0 - alpha) * (hi - p) + alpha * (hi - v);
    NonNegProduct(1.0 - alpha, p - lo);
    NonNegProduct(alpha, v - lo);
    NonNegProduct(1.0 - alpha, hi - p);
    NonNegProduct(alpha, hi - v);
  }

  lemma NonNegProduct(a: real, b: real)
    requires a >= 0.0 && b >= 0.0
    ensures a * b >= 0.0
  {
  }

  // ---------------------------------------------------------------------
  // Moving average

  /** `np.ceil(winwidth / Ts).astype(int)`: the window in samples. */
  function WindowBins(winwidth: real): (w: int)
    requires winwidth > 0.0
    ensures w >= 1
    ensures (w - 1) as real * Ts < winwidth <= w as real * Ts
  {
    Ceil(winwidth / Ts)
  }

  /** Python's reading of an index in [-len, len): a negative one counts from
      the end. */
  function Wrap(i: int, len: nat): int
  {
    if i < 0 then i + len else i
  }

  /** The running total at sample k for a window of w samples: it starts at
      sum(x[0:w]) on sample w-1 and each later sample adds x[k] − x[k − lag].
      The code as written subtracts with lag w+1; the windowed sum needs lag
      w. */
  function RunningTotal(x: seq<real>, w: nat, lag: nat, k: nat): real
    requires 1 <= w <= lag <= w + 1 && w - 1 <= k < |x|
    decreases k
  {
    if k == w - 1 then Sum(x[0..w])
    else RunningTotal(x, w, lag, k - 1) + (x[k] - x[Wrap(k - lag, |x|)])
  }

  /** The whole output: zeros before sample w-1, the running total weighted
      by 1/w after. */
  function MovingAverageOf(x: seq<real>, w: nat, lag: nat): (y: seq<real>)
    requires 1 <= w <= lag <= w + 1 && w <= |x|
    ensures |y| == |x|
  {
    seq(|x|, k requires 0 <= k < |x| => if k < w - 1 then 0.0 else (1.0 / w as real) * RunningTotal(x, w, lag, k))
  }

  /** One step of the loop: sample k of the output is sample k-1 plus the
      weighted difference. */
  lemma MovingAverageStep(x: seq<real>, w: nat, lag: nat, k: nat)
    requires 1 <= w <= lag <= w + 1 && w <= k < |x|
    ensures var y := MovingAverageOf(x, w, lag);
      y[k] == y[k - 1] + (1.0 / w as real) * (x[k] - x[Wrap(k - lag, |x|)])
  {
    var l := 1.0 / w as real;
    var prev := RunningTotal(x, w, lag, k - 1);
    var d := x[k] - x[Wrap(k - lag, |x|)];
    Distribute(l, prev, d, RunningTotal(x, w, lag, k));
  }

  /** `moving_average` as written: IndexError when the window is longer than
      the signal (`y[w-1]` out of range), otherwise the running sum that
      subtracts x[k-1-w], which for k = w wraps round to the signal's last
      sample. */
  method MovingAverage(z0: seq<real>, winwidth: real) returns (r: Result<seq<real>>)
    requires winwidth > 0.0
    ensures WindowBins(winwidth) > |z0| <==> r == Err(IndexError)
    ensures r.Ok? ==> r.value == MovingAverageOf(z0, WindowBins(winwidth), WindowBins(winwidth) + 1)
  {
    var W := WindowBins(winwidth);
    var K := |z0|;
    var lmbd := 1.0 / W as real;
    var y := new real[K](_ => 0.0);
    if W - 1 >= K {
      return Err(IndexError);
    }
    ghost var ys := MovingAverageOf(z0, W, W + 1);
    y[W - 1] := lmbd * Sum(z0[0..W]);
    assert forall j :: 0 <= j < W ==> y[j] == ys[j];
    AccumulateWindow(y, z0, W, lmbd);
    r := Ok(y[..]);
  }

  /** The loop of `moving_average`: from sample w on, each output is the
      previous one plus lmbd·(x[k] − x[k-1-w]). */
  method AccumulateWindow(y: array<real>, z0: seq<real>, W: nat, lmbd: real)
    requires 1 <= W <= |z0| == y.Length && lmbd == 1.0 / W as real
    requires forall j :: 0 <= j < W ==> y[j] == MovingAverageOf(z0, W, W + 1)[j]
    modifies y
    ensures y[..] == MovingAverageOf(z0, W, W + 1)
  {
    ghost var ys := MovingAverageOf(z0, W, W + 1);
    var K := |z0|;
    var k := W;
    while k < K
      invariant W <= k <= K
      invariant forall j :: 0 <= j < k ==> y[j] == ys[j]
    {
      var d := z0[k] - z0[Wrap(k - 1 - W, K)];
      assert k - 1 - W == k - (W + 1);
      MovingAverageStep(z0, W, W + 1, k);
      assert ys[k] == ys[k - 1] + lmbd * d;
      y[k] := y[k - 1] + lmbd * d;
      k := k + 1;
    }
  }

  /** Sum(x[a..b+1]) = Sum(x[a..b]) + x[b], and likewise from the front. */
  lemma SumSlide(x: seq<real>, a: nat, b: nat)
    requires a <= b < |x|
    ensures Sum(x[a..b + 1]) == Sum(x[a..b]) + x[b]
    ensures Sum(x[a..b + 1]) == x[a] + Sum(x[a + 1..b + 1])
  {
    assert x[a..b + 1] == x[a..b] + [x[b]];
    SumAppend(x[a..b], x[b]);
    assert x[a..b + 1] == [x[a]] + x[a + 1..b + 1];
    SumCons(x[a], x[a + 1..b + 1]);
  }

  lemma Distribute(l: real, a: real, b: real, sum: real)
    requires sum == a + b
    ensures l * a + l * b == l * sum
  {
  }

  /** With lag w the running total is the sum of the last w samples, the
      window ending at k. */
  lemma {:induction false} WindowTotal(x: seq<real>, w: nat, k: nat)
    requires 1 <= w && w - 1 <= k < |x|
    ensures RunningTotal(x, w, w, k) == Sum(x[k + 1 - w..k + 1])
  {
    if k > w - 1 {
      WindowTotal(x, w, k - 1);
      SumSlide(x, k - w, k);
    } else {
      assert x[k + 1 - w..k + 1] == x[0..w];
    }
  }

  /** With lag w+1, as written, the running total is a window of w+1 samples
      minus the signal's final sample: no window sum for any k ≥ w. */
  lemma {:induction false} AsWrittenTotal(x: seq<real>, w: nat, k: nat)
    requires 1 <= w <= k < |x|
    ensures RunningTotal(x, w, w + 1, k) == Sum(x[k - w..k + 1]) - x[|x| - 1]
  {
    if k == w {
      assert Wrap(-1, |x|) == |x| - 1;
      SumSlide(x, 0, w);
    } else {
      AsWrittenTotal(x, w, k - 1);
      SumSlide(x, k - 1 - w, k);
    }
  }

  /** The intended moving average: the mean of the window ending at each
      sample from w-1 on, zeros before; IndexError on a window longer than
      the signal. */
  function MovingAverageCorrected(z0: seq<real>, winwidth: real): (r: Result<seq<real>>)
    requires winwidth > 0.0
    ensures WindowBins(winwidth) > |z0| <==> r == Err(IndexError)
    ensures r.Ok? ==> |r.value| == |z0| && var w := WindowBins(winwidth);
      forall k :: w - 1 <= k < |z0| ==> r.value[k] == (1.0 / w as real) * Sum(z0[k + 1 - w..k + 1])
    ensures r.Ok? ==> forall k :: 0 <= k < WindowBins(winwidth) - 1 ==> r.value[k] == 0.0
  {
    var w := WindowBins(winwidth);
    if w > |z0| then Err(IndexError)
    else
      WindowMeans(z0, w);
      Ok(MovingAverageOf(z0, w, w))
  }

  lemma WindowMeans(x: seq<real>, w: nat)
    requires 1 <= w <= |x|
    ensures var y := MovingAverageOf(x, w, w);
      forall k :: w - 1 <= k < |x| ==> y[k] == (1.0 / w as real) * Sum(x[k + 1 - w..k + 1])
  {
    var y := MovingAverageOf(x, w, w);
    forall k | w - 1 <= k < |x|
      ensures y[k] == (1.0 / w as real) * Sum(x[k + 1 - w..k + 1])
    {
      var total := RunningTotal(x, w, w, k);
      assert y[k] == (1.0 / w as real) * total;
      WindowTotal(x, w, k);
      assert total == Sum(x[k + 1 - w..k + 1]);
    }
  }

  /** A 1 ms window spans three samples; after a single spike of 3 at the
      start of a five-sample signal, the code as written still reports 1 at
      sample 3, where the window x[1..3] holds only zeros. */
  lemma MovingAverageLagCounterexample()
    ensures WindowBins(1.0) == 3
    ensures MovingAverageOf([3.0, 0.0, 0.0, 0.0, 0.0], 3, 4)[3] == 1.0
    ensures MovingAverageOf([3.0, 0.0, 0.0, 0.0, 0.0], 3, 3)[3] == 0.0
  {
    var x := [3.0, 0.0, 0.0, 0.0, 0.0];
    assert 2.0 < 1.0 / Ts <= 3.0;
    assert x[0..3] == [3.0, 0.0, 0.0];
    assert Sum([3.0, 0.0, 0.0]) == 3.0 by {
      assert [3.0, 0.0, 0.0][..2] == [3.0, 0.0];
      assert [3.0, 0.0][..1] == [3.0];
      assert [3.0][..0] == [];
    }
    assert RunningTotal(x, 3, 4, 2) == 3.0;
    assert Wrap(3 - 4, 5) == 4;
    assert RunningTotal(x, 3, 3, 2) == 3.0;
  }
}
