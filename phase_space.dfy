/** The phase-portrait window of an opened ECG: the list of read cycles and
    their concatenation, the time axis at 500 Hz, the seven-point derivative
    of every cycle (the phase portrait), and the signal against itself
    shifted by tau samples (the pseudophase portrait). */
module Phase {
  import opened Common
  import opened Slices

  // ---------------------------------------------------------------------
  // Concatenation of cycles

  /** `np.hstack(z)`: the cycles one after another. */
  function Flatten(z: seq<seq<real>>): seq<real>
  {
    if z == [] then [] else Flatten(z[..|z| - 1]) + z[|z| - 1]
  }

  lemma FlattenAppend(z: seq<seq<real>>, c: seq<real>)
    ensures Flatten(z + [c]) == Flatten(z) + c
  {
    assert (z + [c])[..|z|] == z;
  }

  lemma FlattenSingle(c: seq<real>)
    ensures Flatten([c]) == c
  {
    assert [c][..0] == [];
  }

  /** Two lists of cycles with the same lengths cycle by cycle concatenate to
      signals of the same length. */
  lemma {:induction false} FlattenSameShape(a: seq<seq<real>>, b: seq<seq<real>>)
    requires |a| == |b|
    requires forall m :: 0 <= m < |a| ==> |a[m]| == |b[m]|
    ensures |Flatten(a)| == |Flatten(b)|
  {
    if a != [] {
      FlattenSameShape(a[..|a| - 1], b[..|b| - 1]);
    }
  }

  // ---------------------------------------------------------------------
  // Time axis

  /** `np.arange(0, N) * (1 / 500)`: sample i at i/500 seconds. */
  function TimeAxis(n: nat): (time: seq<real>)
    ensures |time| == n
  {
    seq(n, i => i as real / 500.0)
  }

  /** The axis starts at 0 and advances by 2 ms per sample. */
  lemma TimeAxisUniform(n: nat)
    ensures n > 0 ==> TimeAxis(n)[0] == 0.0
    ensures forall i :: 0 < i < n ==> TimeAxis(n)[i] - TimeAxis(n)[i - 1] == 0.002
  {
  }

  // ---------------------------------------------------------------------
  // Derivative

  /** How the stencil line of compute_derivative is read. As written, the
      `//` at the end of its first line is Python's floor division, so the
      middle term is `(45·T[k+1] // -45)·T[k-1]`; the intended reading is the
      central difference `45·T[k+1] − 45·T[k-1]`. */
  datatype Reading = AsWritten | Intended

  /** `np.concatenate([[0, 0, 0], c, [0, 0, 0]])`. */
  function Padded(c: seq<real>): (t: seq<real>)
    ensures |t| == |c| + 6
  {
    [0.0, 0.0, 0.0] + c + [0.0, 0.0, 0.0]
  }

  lemma PaddedAt(c: seq<real>, i: int)
    requires 3 <= i < |c| + 3
    ensures Padded(c)[i] == c[i - 3]
  {
  }

  /** The seven-point stencil on the three samples before the centre
      (m3, m2, m1, farthest first) and the three after it (p1, p2, p3). */
  function Stencil7(m3: real, m2: real, m1: real, p1: real, p2: real, p3: real, reading: Reading): real
  {
    var middle := match reading
      case AsWritten => ((45.0 * p1) / -45.0).Floor as real * m1
      case Intended => 45.0 * p1 - 45.0 * m1;
    (1.0 / 60.0) * (p3 - 9.0 * p2 + middle + 9.0 * m2 - m3)
  }

  /** The seven-point stencil at position k of the padded cycle. */
  function Stencil(t: seq<real>, k: nat, reading: Reading): real
    requires 3 <= k && k + 3 < |t|
  {
    Stencil7(t[k - 3], t[k - 2], t[k - 1], t[k + 1], t[k + 2], t[k + 3], reading)
  }

  /** The derivative of one cycle: sample j holds the stencil centred on
      c[j] for j + 6 < |c|; the last six samples stay 0. */
  function CycleDerivative(c: seq<real>, reading: Reading): (d: seq<real>)
    ensures |d| == |c|
  {
    seq(|c|, j requires 0 <= j < |c| => if j + 6 < |c| then Stencil(Padded(c), j + 3, reading) else 0.0)
  }

  /** The inner loop of compute_derivative on one cycle. */
  method DeriveCycle(c: seq<real>, reading: Reading) returns (d: seq<real>)
    ensures d == CycleDerivative(c, reading)
  {
    var temp := Padded(c);
    var K := |c|;
    var out := new real[K](_ => 0.0);
    var k := 3;
    while k < K - 3
      invariant 3 <= k && (k <= K - 3 || k == 3)
      invariant forall j :: 0 <= j < K ==> out[j] == if j < k - 3 then CycleDerivative(c, reading)[j] else 0.0
    {
      out[k - 3] := Stencil(temp, k, reading);
      k := k + 1;
    }
    d := out[..];
  }

  /** `compute_derivative(z)`: every cycle differentiated on its own. */
  function Derivatives(z: seq<seq<real>>, reading: Reading): (dz: seq<seq<real>>)
    ensures |dz| == |z|
  {
    seq(|z|, m requires 0 <= m < |z| => CycleDerivative(z[m], reading))
  }

  method ComputeDerivative(z: seq<seq<real>>, reading: Reading) returns (dz: seq<seq<real>>)
    ensures dz == Derivatives(z, reading)
  {
    var M := |z|;
    var out := new seq<real>[M](_ => []);
    var m := 0;
    while m < M
      invariant 0 <= m <= M
      invariant forall i :: 0 <= i < m ==> out[i] == CycleDerivative(z[i], reading)
    {
      out[m] := DeriveCycle(z[m], reading);
      m := m + 1;
    }
    dz := out[..];
  }

  /** The derivative has one sample per signal sample, so the phase portrait
      pairs the concatenated signal with the concatenated derivative point by
      point. */
  lemma DerivativeShape(z: seq<seq<real>>, reading: Reading)
    ensures |Flatten(Derivatives(z, reading))| == |Flatten(z)|
  {
    FlattenSameShape(Derivatives(z, reading), z);
  }

  /** The derivative at j reads only the seven samples j-3 .. j+3. */
  lemma DerivativeLocal(c: seq<real>, c': seq<real>, reading: Reading, j: nat)
    requires |c| == |c'| && j + 6 < |c|
    requires forall i :: j - 3 <= i <= j + 3 && 0 <= i < |c| ==> c[i] == c'[i]
    ensures CycleDerivative(c, reading)[j] == CycleDerivative(c', reading)[j]
  {
    var t, t' := Padded(c), Padded(c');
    forall i | j <= i <= j + 6
      ensures t[i] == t'[i]
    {
      if 3 <= i < |c| + 3 {
        PaddedAt(c, i);
        PaddedAt(c', i);
      }
    }
    assert t[j] == t'[j] && t[j + 1] == t'[j + 1] && t[j + 2] == t'[j + 2];
    assert t[j + 4] == t'[j + 4] && t[j + 5] == t'[j + 5] && t[j + 6] == t'[j + 6];
  }

  /** The intended stencil is exact on a straight line c[i] = a + b·i, at
      every sample whose seven-point window lies inside the cycle. */
  lemma IntendedExactOnLines(c: seq<real>, a: real, b: real, j: nat)
    requires forall i :: 0 <= i < |c| ==> c[i] == a + b * i as real
    requires 3 <= j && j + 6 < |c|
    ensures CycleDerivative(c, Intended)[j] == b
  {
    var t := Padded(c);
    var x := j as real;
    assert t[j + 6] == c[j + 3] == a + b * (x + 3.0);
    assert t[j + 5] == c[j + 2] == a + b * (x + 2.0);
    assert t[j + 4] == c[j + 1] == a + b * (x + 1.0);
    assert t[j + 2] == c[j - 1] == a + b * (x - 1.0);
    assert t[j + 1] == c[j - 2] == a + b * (x - 2.0);
    assert t[j] == c[j - 3] == a + b * (x - 3.0);
  }

  /** On the ramp 0, 1, …, 9 the code as written gives −19/30 at sample 3,
      where the slope is 1. */
  lemma DerivativeFloorCounterexample()
    ensures var ramp := [0.0, 1.0, 2.0, 3.0, 4.0, 5.0, 6.0, 7.0, 8.0, 9.0];
      CycleDerivative(ramp, AsWritten)[3] == -19.0 / 30.0 && CycleDerivative(ramp, Intended)[3] == 1.0
  {
    var ramp := [0.0, 1.0, 2.0, 3.0, 4.0, 5.0, 6.0, 7.0, 8.0, 9.0];
    var t := Padded(ramp);
    assert t[9] == 6.0 && t[8] == 5.0 && t[7] == 4.0 && t[5] == 2.0 && t[4] == 1.0 && t[3] == 0.0;
    assert ((45.0 * 4.0) / -45.0).Floor == -4;
  }

  // ---------------------------------------------------------------------
  // Pseudophase

  /** `z[0:N-tau]` against `z[tau:N]`: for 0 ≤ tau ≤ N the two halves have
      N − tau samples and pair every sample with the one tau later. */
  lemma PseudophasePairs(zf: seq<real>, tau: nat)
    requires tau <= |zf|
    ensures |Slice(zf, 0, |zf| - tau)| == |Slice(zf, tau, |zf|)| == |zf| - tau
    ensures forall i :: 0 <= i < |zf| - tau ==>
      Slice(zf, 0, |zf| - tau)[i] == zf[i] && Slice(zf, tau, |zf|)[i] == zf[i + tau]
  {
  }

  /** A signal shorter than tau but longer than tau/2 makes `N - tau`
      negative, which Python reads from the end: the two halves then differ
      in length. */
  lemma PseudophaseShortSignal(zf: seq<real>, tau: nat)
    requires |zf| < tau < 2 * |zf|
    ensures |Slice(zf, 0, |zf| - tau)| == 2 * |zf| - tau
    ensures Slice(zf, tau, |zf|) == []
  {
  }

  // ---------------------------------------------------------------------
  // The window

  /** A list of cycles as list entries. */
  function AsEntries(z: seq<seq<real>>): (e: seq<Option<seq<real>>>)
    ensures |e| == |z| && forall i :: 0 <= i < |z| ==> e[i] == Some(z[i])
  {
    seq(|z|, i requires 0 <= i < |z| => Some(z[i]))
  }

  class PhaseWindow {
    /** The read cycles, in order, up to the first entry that is not a
        cycle. */
    var z: seq<seq<real>>
    /** The entries of the list from the first None on: the earlier
        add_cycle appends the None of a cancelled dialog. Empty while every
        entry is a cycle. */
    var afterNone: seq<Option<seq<real>>>
    /** Their concatenation, the signal on display. */
    var zFlat: seq<real>
    /** Pseudophase shift in samples, set by a slider over 1..50. */
    var tau: nat
    var timeSeq: seq<real>
    var dz: seq<seq<real>>
    var dzFlat: seq<real>
    var zt: seq<real>
    var zTau: seq<real>

    /** `self.z` as the list holds it. */
    function Entries(): (e: seq<Option<seq<real>>>)
      reads this
      ensures |e| == |z| + |afterNone|
    {
      AsEntries(z) + afterNone
    }

    /** Every plotted series is derived from the cycles, the derivative by
        the stencil as the program computes it. */
    ghost predicate Valid()
      reads this
    {
      zFlat == Flatten(z) && 1 <= tau <= 50
      && timeSeq == TimeAxis(|zFlat|)
      && dz == Derivatives(z, AsWritten) && dzFlat == Flatten(dz)
      && zt == Slice(zFlat, 0, |zFlat| - tau) && zTau == Slice(zFlat, tau, |zFlat|)
      && (afterNone == [] || afterNone[0] == None)
    }

    /** `PhaseWindow(data, cycle_flag)`: one cycle, tau = 8, all plots
        drawn. */
    constructor (data: seq<real>)
      ensures Valid() && z == [data] && afterNone == [] && zFlat == data && tau == 8
    {
      z := [data];
      afterNone := [];
      zFlat := data;
      tau := 8;
      new;
      FlattenSingle(data);
      OnUpdate();
    }

    /** update_time_domain */
    method UpdateTimeDomain()
      modifies this
      ensures timeSeq == TimeAxis(|zFlat|)
      ensures z == old(z) && afterNone == old(afterNone) && zFlat == old(zFlat) && tau == old(tau)
      ensures dz == old(dz) && dzFlat == old(dzFlat) && zt == old(zt) && zTau == old(zTau)
    {
      timeSeq := TimeAxis(|zFlat|);
    }

    /** update_phase_domain, reached only while every entry is a cycle: the
        concatenated derivative has exactly one point per signal sample. */
    method UpdatePhaseDomain()
      requires zFlat == Flatten(z) && afterNone == []
      modifies this
      ensures dz == Derivatives(z, AsWritten) && dzFlat == Flatten(dz)
      ensures |dzFlat| == |zFlat|
      ensures z == old(z) && afterNone == old(afterNone) && zFlat == old(zFlat) && tau == old(tau)
      ensures timeSeq == old(timeSeq) && zt == old(zt) && zTau == old(zTau)
    {
      dz := ComputeDerivative(z, AsWritten);
      dzFlat := Flatten(dz);
      DerivativeShape(z, AsWritten);
    }

    /** update_pseudophase_domain */
    method UpdatePseudophaseDomain()
      modifies this
      ensures zt == Slice(zFlat, 0, |zFlat| - tau) && zTau == Slice(zFlat, tau, |zFlat|)
      ensures z == old(z) && afterNone == old(afterNone) && zFlat == old(zFlat) && tau == old(tau)
      ensures timeSeq == old(timeSeq) && dz == old(dz) && dzFlat == old(dzFlat)
    {
      var N := |zFlat|;
      zt := Slice(zFlat, 0, N - tau);
      zTau := Slice(zFlat, tau, N);
    }

    /** on_update: redraw all three plots from the cycles. */
    method OnUpdate()
      requires zFlat == Flatten(z) && 1 <= tau <= 50 && afterNone == []
      modifies this
      ensures Valid()
      ensures z == old(z) && afterNone == old(afterNone) && zFlat == old(zFlat) && tau == old(tau)
    {
      UpdateTimeDomain();
      UpdatePhaseDomain();
      UpdatePseudophaseDomain();
    }

    /** update_tau: a new slider value redraws only the pseudophase plot. */
    method UpdateTau(value: int)
      requires Valid() && 1 <= value <= 50
      modifies this
      ensures Valid() && tau == value
      ensures z == old(z) && afterNone == old(afterNone) && zFlat == old(zFlat) && dz == old(dz)
      ensures timeSeq == old(timeSeq)
    {
      tau := value;
      UpdatePseudophaseDomain();
    }

    /** A read cycle appended to a list that already holds a None: the
        concatenation raises TypeError and the plots stay as they were. */
    method AppendAfterNone(cycle: seq<real>) returns (r: Result<()>)
      requires Valid() && afterNone != []
      modifies this
      ensures Valid() && r == Err(TypeError)
      ensures afterNone == old(afterNone) + [Some(cycle)] && Entries() == old(Entries()) + [Some(cycle)]
      ensures z == old(z) && zFlat == old(zFlat) && tau == old(tau) && dz == old(dz)
      ensures timeSeq == old(timeSeq) && dzFlat == old(dzFlat) && zt == old(zt) && zTau == old(zTau)
    {
      afterNone := afterNone + [Some(cycle)];
      r := Err(TypeError);
    }

    /** A read cycle appended to a list of cycles: the signal grows by the
        cycle and every plot is redrawn. */
    method AppendCycle(cycle: seq<real>)
      requires Valid() && afterNone == []
      modifies this
      ensures Valid() && tau == old(tau) && afterNone == []
      ensures z == old(z) + [cycle] && zFlat == old(zFlat) + cycle
      ensures Entries() == old(Entries()) + [Some(cycle)]
    {
      FlattenAppend(z, cycle);
      z := z + [cycle];
      zFlat := Flatten(z);
      OnUpdate();
      assert AsEntries(z) == AsEntries(old(z)) + [Some(cycle)];
    }

    /** add_cycle: a failed read propagates its error, a cancelled dialog
        changes nothing, and a read cycle is appended to the list. */
    method AddCycle(read: Result<Option<seq<real>>>) returns (r: Result<()>)
      requires Valid()
      modifies this
      ensures Valid() && tau == old(tau)
      ensures read.Err? ==> r == Err(read.error) && z == old(z) && afterNone == old(afterNone)
      ensures read == Ok(None) ==> r == Ok(()) && z == old(z) && afterNone == old(afterNone)
      ensures read.Ok? && read.value.Some? ==> Entries() == old(Entries()) + [read.value]
      ensures read.Ok? && read.value.Some? && old(afterNone) == [] ==>
        r == Ok(()) && z == old(z) + [read.value.value] && zFlat == old(zFlat) + read.value.value
      ensures read.Ok? && read.value.Some? && old(afterNone) != [] ==>
        r == Err(TypeError) && z == old(z) && zFlat == old(zFlat) && dz == old(dz)
    {
      if read.Err? {
        return Err(read.error);
      }
      if read.value.None? {
        return Ok(());
      }
      if afterNone != [] {
        r := AppendAfterNone(read.value.value);
        return;
      }
      AppendCycle(read.value.value);
      r := Ok(());
    }

    /** The earlier add_cycle, without the check for a cancelled dialog: the
        None is appended to the list, and from then on every concatenation
        of the list raises TypeError, this one and those of all later
        calls. */
    method AddCycleUnchecked(read: Result<Option<seq<real>>>) returns (r: Result<()>)
      requires Valid()
      modifies this
      ensures Valid() && tau == old(tau)
      ensures read.Err? ==> r == Err(read.error) && z == old(z) && afterNone == old(afterNone)
      ensures read.Ok? ==> Entries() == old(Entries()) + [read.value]
      ensures read == Ok(None) ==>
        r == Err(TypeError) && afterNone == old(afterNone) + [None]
        && z == old(z) && zFlat == old(zFlat) && dz == old(dz)
      ensures read.Ok? && read.value.Some? && old(afterNone) == [] ==>
        r == Ok(()) && z == old(z) + [read.value.value] && zFlat == old(zFlat) + read.value.value
      ensures read.Ok? && read.value.Some? && old(afterNone) != [] ==>
        r == Err(TypeError) && z == old(z) && zFlat == old(zFlat) && dz == old(dz)
    {
      if read.Err? {
        return Err(read.error);
      }
      if read.value.None? {
        afterNone := afterNone + [None];
        return Err(TypeError);
      }
      if afterNone != [] {
        r := AppendAfterNone(read.value.value);
        return;
      }
      AppendCycle(read.value.value);
      r := Ok(());
    }
  }
}
