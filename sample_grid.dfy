/** The sampling grid shared by a cycle and its sequences: a fixed rate of
    2048 Hz, sample i at time i·Ts milliseconds, and the nearest-sample search
    `(np.abs(time - x)).argmin()`. */
module SampleGrid {
  import opened Common

  /** Sampling frequency in Hz. */
  const Fs: real := 2048.0
  /** Sampling period in ms, 1000/Fs, written out as the exact decimal of
      125/256. */
  const Ts: real := 0.48828125

  /** Number of elements of np.arange(0, stop, Ts), in exact arithmetic. */
  function ArangeLength(stop: real): nat
  {
    if stop <= 0.0 then 0 else Ceil(stop / Ts)
  }

  /** np.arange(0, stop, Ts), in exact arithmetic. */
  function Arange(stop: real): (time: seq<real>)
    ensures |time| == ArangeLength(stop)
  {
    seq(ArangeLength(stop), i => i as real * Ts)
  }

  /** np.arange(0, stop, Ts) spans the whole interval: every point lies below
      stop and the last one is less than one period short of it. */
  lemma ArangeSpans(stop: real)
    requires stop > 0.0
    ensures |Arange(stop)| >= 1
    ensures forall i :: 0 <= i < |Arange(stop)| ==> Arange(stop)[i] < stop
    ensures Arange(stop)[|Arange(stop)| - 1] >= stop - Ts
  {
    var n := ArangeLength(stop);
    var time := Arange(stop);
    assert (n - 1) as real < stop / Ts <= n as real;
    forall i | 0 <= i < n
      ensures time[i] < stop
    {
      assert i as real <= (n - 1) as real;
    }
  }

  /** Number of samples in one cycle at heart rate fh (beats/min): the cycle
      lasts 60000/fh ms and `time = np.arange(0, t0 + Ts, Ts)`. */
  function GridLength(fh: real): (n: nat)
    requires fh > 0.0
    ensures n >= 2
  {
    var stop := 60000.0 / fh + Ts;
    assert stop / Ts > 1.0;
    ArangeLength(stop)
  }

  /** The cycle's time axis with n samples. */
  function Time(n: nat): (time: seq<real>)
    ensures |time| == n
  {
    seq(n, i => i as real * Ts)
  }

  /** `int(time[-1])`: the last sample time truncated to whole milliseconds. */
  function LastTimeMs(n: nat): int
    requires n >= 1
  {
    ((n - 1) as real * Ts).Floor
  }

  /** |time[i] - x| for every sample of an n-sample grid. */
  function Distances(n: nat, x: real): (d: seq<real>)
    ensures |d| == n
  {
    seq(n, i => Abs(i as real * Ts - x))
  }

  /** `(np.abs(time - x)).argmin()`: the first sample closest to time x. */
  function Nearest(n: nat, x: real): (k: nat)
    requires n >= 1
    ensures k < n
  {
    ArgMin(Distances(n, x))
  }

  /** No sample is closer to x than the nearest one, and every earlier
      sample is strictly farther. */
  lemma NearestIsClosest(n: nat, x: real)
    requires n >= 1
    ensures forall j :: 0 <= j < n ==> Abs(Time(n)[Nearest(n, x)] - x) <= Abs(Time(n)[j] - x)
    ensures forall j :: 0 <= j < Nearest(n, x) ==> Abs(Time(n)[Nearest(n, x)] - x) < Abs(Time(n)[j] - x)
  {
    var d, k, time := Distances(n, x), Nearest(n, x), Time(n);
    ArgMinIsFirstMin(d);
    assert d[k] == Abs(time[k] - x);
    forall j | 0 <= j < n
      ensures Abs(time[k] - x) <= Abs(time[j] - x)
      ensures j < k ==> Abs(time[k] - x) < Abs(time[j] - x)
    {
      assert d[j] == Abs(time[j] - x);
    }
  }

  /** A time that is exactly a sample time finds that sample. */
  lemma NearestOfSample(n: nat, k: nat)
    requires k < n
    ensures Nearest(n, k as real * Ts) == k
  {
    var d := Distances(n, k as real * Ts);
    assert d[k] == 0.0;
    forall j | 0 <= j < k
      ensures d[k] < d[j]
    {
      assert j as real * Ts < k as real * Ts;
    }
    ArgMinUnique(d, k);
  }

  /** The nearest sample never moves left when the time moves right; the
      range searches of the cycle model rest on this. */
  lemma NearestMonotone(n: nat, x: real, y: real)
    requires n >= 1 && x <= y
    ensures Nearest(n, x) <= Nearest(n, y)
  {
    var r := Nearest(n, x);
    var s := Nearest(n, y);
    var dx, dy := Distances(n, x), Distances(n, y);
    ArgMinIsFirstMin(dx);
    ArgMinIsFirstMin(dy);
    assert dx[r] == Abs(r as real * Ts - x) && dx[s] == Abs(s as real * Ts - x);
    assert dy[r] == Abs(r as real * Ts - y) && dy[s] == Abs(s as real * Ts - y);
    CloserStaysCloser(s as real * Ts, r as real * Ts, x, y);
  }

  /** Of two grid times a < b, if b is strictly closer to x then it is
      strictly closer to every later time y as well. */
  lemma CloserStaysCloser(a: real, b: real, x: real, y: real)
    requires x <= y
    ensures a < b && Abs(b - x) < Abs(a - x) ==> Abs(b - y) < Abs(a - y)
  {
  }
}
