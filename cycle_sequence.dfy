/** A multi-beat ECG sequence: one synthesised cycle pasted n times, and the
    alternation of the T wave's amplitude from beat to beat. */
module Sequence {
  import opened Common
  import opened Slices
  import opened SampleGrid
  import opened Cycle

  /** np.tile(s, k): s repeated k times. */
  function Repeat(s: seq<real>, k: nat): (r: seq<real>)
    ensures |r| == k * |s|
  {
    if k == 0 then [] else Repeat(s, k - 1) + s
  }

  lemma MulMono(a: nat, b: nat, m: nat)
    requires a <= b
    ensures a * m <= b * m
  {
    assert b * m == a * m + (b - a) * m;
  }

  /** Element r of block q of the repetition is element r of s. */
  lemma {:induction false} RepeatAt(s: seq<real>, k: nat, q: nat, r: nat)
    requires q < k && r < |s|
    ensures q * |s| + r < k * |s|
    ensures Repeat(s, k)[q * |s| + r] == s[r]
  {
    MulMono(q + 1, k, |s|);
    if q < k - 1 {
      RepeatAt(s, k - 1, q, r);
    }
  }

  /** `np.concatenate((np.tile(amplitude[:-1], n), [0]))`: every beat but
      its final sample, n times, then a closing zero. */
  function Tiled(amp: seq<real>, beats: nat): (r: seq<real>)
    ensures |amp| >= 1 ==> |r| == (|amp| - 1) * beats + 1
    ensures |amp| == 0 ==> r == [0.0]
    ensures r[|r| - 1] == 0.0
  {
    Repeat(Slice(amp, 0, -1), beats) + [0.0]
  }

  /** Sample r of beat q of the sequence is sample r of the cycle. */
  lemma TiledAt(amp: seq<real>, beats: nat, q: nat, r: nat)
    requires q < beats && r < |amp| - 1
    ensures q * (|amp| - 1) + r < (|amp| - 1) * beats
    ensures Tiled(amp, beats)[q * (|amp| - 1) + r] == amp[r]
  {
    var body := Slice(amp, 0, -1);
    assert body == amp[..|amp| - 1];
    RepeatAt(body, beats, q, r);
  }

  /** One beat reproduces the cycle exactly when the cycle ends in 0. */
  lemma TiledOnce(amp: seq<real>)
    requires |amp| >= 1
    ensures Tiled(amp, 1) == amp <==> amp[|amp| - 1] == 0.0
  {
    var body := Slice(amp, 0, -1);
    assert body == amp[..|amp| - 1];
    assert Repeat(body, 1) == body;
    if amp[|amp| - 1] == 0.0 {
      assert amp == amp[..|amp| - 1] + [0.0];
    }
  }

  /** `ecg_cycle.time[-1]`: the time of the cycle's last sample. */
  function NewT0(n: nat): real
    requires n >= 1
  {
    Time(n)[n - 1]
  }

  /** `np.arange(0, new_t0 * n + Ts, Ts)` has exactly one sample per tiled
      amplitude sample, on the same grid. */
  lemma SequenceAxisExact(n: nat, beats: nat)
    requires n >= 1
    ensures Arange(NewT0(n) * beats as real + Ts) == Time((n - 1) * beats + 1)
  {
    var m := (n - 1) * beats + 1;
    var stop := NewT0(n) * beats as real + Ts;
    assert stop == m as real * Ts;
    assert stop / Ts == m as real;
    assert Ceil(stop / Ts) == m;
  }

  /** Beat i's offset into the sequence: i whole cycles of K−1 samples. */
  function BeatOffset(n: nat, i: nat): int
    requires n >= 1
  {
    i * (n - 1)
  }

  /** `int(t_i * new_t0 / Ts)`, as alternate_t computes it, is exactly the
      beat offset. */
  lemma BeatOffsetExact(n: nat, i: nat)
    requires n >= 1
    ensures (i as real * NewT0(n) / Ts).Floor == BeatOffset(n, i)
  {
    assert i as real * NewT0(n) / Ts == (i * (n - 1)) as real;
  }

  /** The scale factor of beat i: `1 + alt/a` on even beats, 1 on odd ones,
      which is what the `lmbd_prev` toggle produces. */
  function Lambda(alt: real, a: real, i: nat): real
    requires a != 0.0
  {
    if Even(i) then 1.0 + alt / a else 1.0
  }

  /** Parity by counting down, so that it unfolds one beat at a time. */
  predicate Even(i: nat)
  {
    i == 0 || !Even(i - 1)
  }

  lemma {:induction false} EvenIsParity(i: nat)
    ensures Even(i) <==> i % 2 == 0
  {
    if i > 0 {
      EvenIsParity(i - 1);
    }
  }

  /** The T-wave parameters read as sample indices. */
  function Index(p: seq<real>, k: nat): int
    requires k < |p|
  {
    p[k].Floor
  }

  /** The centre of beat i's T wave, `mu + t_i * new_t0`: the cycle's mean
      shifted by the beat offset. */
  function BeatCentre(n: nat, mu: real, i: nat): real
    requires n >= 1
  {
    mu + BeatOffset(n, i) as real * Ts
  }

  lemma BeatCentreExact(n: nat, mu: real, i: nat)
    requires n >= 1
    ensures mu + i as real * NewT0(n) == BeatCentre(n, mu, i)
  {
    assert i as real * ((n - 1) as real * Ts) == (i * (n - 1)) as real * Ts;
  }

  /** A beat's rising half, `amp_seq[t1_1 : t1_2+1] = (a·λ)·exp(...b1...)`,
      for T-wave parameters p, scale λ, centre and sample offset off. */
  function AltLeft(p: seq<real>, lam: real, centre: real, off: int, exp: real -> real): Write
    requires |p| >= 8 && p[2] != 0.0
  {
    Write(Index(p, 4) + off, Index(p, 5) + off + 1, t => Gauss(exp, p[0] * lam, centre, p[2], t))
  }

  /** A beat's falling half, `amp_seq[t2_1+1 : t2_2] = (a·λ)·exp(...b2...)`. */
  function AltRight(p: seq<real>, lam: real, centre: real, off: int, exp: real -> real): Write
    requires |p| >= 8 && p[3] != 0.0
  {
    Write(Index(p, 6) + off + 1, Index(p, 7) + off, t => Gauss(exp, p[0] * lam, centre, p[3], t))
  }

  function BeatLeft(n: nat, p: seq<real>, alt: real, i: nat, exp: real -> real): Write
    requires n >= 1 && |p| >= 8 && p[0] != 0.0 && p[2] != 0.0
  {
    AltLeft(p, Lambda(alt, p[0], i), BeatCentre(n, p[1], i), BeatOffset(n, i), exp)
  }

  function BeatRight(n: nat, p: seq<real>, alt: real, i: nat, exp: real -> real): Write
    requires n >= 1 && |p| >= 8 && p[0] != 0.0 && p[3] != 0.0
  {
    AltRight(p, Lambda(alt, p[0], i), BeatCentre(n, p[1], i), BeatOffset(n, i), exp)
  }

  /** The writes of the first `beats` beats, two per beat, in order. */
  function AltWrites(n: nat, p: seq<real>, alt: real, beats: nat, exp: real -> real): (r: seq<Write>)
    requires n >= 1 && |p| >= 8 && p[0] != 0.0 && p[2] != 0.0 && p[3] != 0.0
    ensures |r| == 2 * beats
  {
    if beats == 0 then []
    else AltWrites(n, p, alt, beats - 1, exp) + [BeatLeft(n, p, alt, beats - 1, exp), BeatRight(n, p, alt, beats - 1, exp)]
  }

  /** The stored indices of a located pulse whose centre lies inside the
      cycle, before its last sample. */
  predicate LocatedInside(n: nat, p: seq<real>)
    requires |p| >= 8
  {
    0 <= Index(p, 4) && -1 <= Index(p, 5) == Index(p, 6) <= n - 2 && 0 <= Index(p, 7) <= n - 1
  }

  /** The samples a beat's two writes cover, when the sequence is long
      enough to hold the whole beat. */
  lemma BeatWindow(n: nat, p: seq<real>, lam: real, centre: real, off: int, exp: real -> real, len: nat, t: int)
    requires n >= 2 && |p| >= 8 && p[2] != 0.0 && p[3] != 0.0
    requires LocatedInside(n, p) && 0 <= off && off + (n - 1) < len
    ensures Hits(AltLeft(p, lam, centre, off, exp), t, len) <==> Index(p, 4) + off <= t <= Index(p, 5) + off
    ensures Hits(AltRight(p, lam, centre, off, exp), t, len) <==> Index(p, 6) + off < t < Index(p, 7) + off
  {
  }

  /** The writes alternate_t computes for beat i, from the toggled λ and
      `t_i * new_t0`, are exactly beat i's writes. */
  lemma BeatWritesExact(n: nat, p: seq<real>, alt: real, i: nat, exp: real -> real, lam: real, t0: real)
    requires n >= 1 && |p| >= 8 && p[0] != 0.0 && p[2] != 0.0 && p[3] != 0.0
    requires lam == Lambda(alt, p[0], i) && t0 == NewT0(n)
    ensures AltLeft(p, lam, p[1] + i as real * t0, (i as real * t0 / Ts).Floor, exp) == BeatLeft(n, p, alt, i, exp)
    ensures AltRight(p, lam, p[1] + i as real * t0, (i as real * t0 / Ts).Floor, exp) == BeatRight(n, p, alt, i, exp)
  {
    BeatOffsetExact(n, i);
    BeatCentreExact(n, p[1], i);
    var off, centre := (i as real * t0 / Ts).Floor, p[1] + i as real * t0;
    assert off == BeatOffset(n, i) && centre == BeatCentre(n, p[1], i);
    assert BeatLeft(n, p, alt, i, exp) == AltLeft(p, lam, centre, off, exp);
    assert BeatRight(n, p, alt, i, exp) == AltRight(p, lam, centre, off, exp);
  }

  /** Beat offsets are whole cycles apart, and beat i ends where beat i+1
      begins. */
  lemma BeatOffsets(n: nat, i: nat, j: nat)
    requires n >= 1 && i < j
    ensures 0 <= BeatOffset(n, i) && BeatOffset(n, i) + (n - 1) <= BeatOffset(n, j)
  {
    MulMono(i + 1, j, n - 1);
  }

  /** The sequence after alternate_t has rewritten the first `beats` beats
      of s. */
  function Alternated(n: nat, p: seq<real>, alt: real, exp: real -> real, s: seq<real>, beats: nat): (r: seq<real>)
    requires n >= 1 && |p| >= 8 && p[0] != 0.0 && p[2] != 0.0 && p[3] != 0.0
    ensures |r| == |s|
  {
    if beats == 0 then s
    else Apply(Apply(Alternated(n, p, alt, exp, s, beats - 1), BeatLeft(n, p, alt, beats - 1, exp)),
               BeatRight(n, p, alt, beats - 1, exp))
  }

  lemma AlternatedStep(n: nat, p: seq<real>, alt: real, exp: real -> real, s: seq<real>, beats: nat)
    requires n >= 1 && |p| >= 8 && p[0] != 0.0 && p[2] != 0.0 && p[3] != 0.0 && beats >= 1
    ensures Alternated(n, p, alt, exp, s, beats)
         == Apply(Apply(Alternated(n, p, alt, exp, s, beats - 1), BeatLeft(n, p, alt, beats - 1, exp)),
                  BeatRight(n, p, alt, beats - 1, exp))
  {
  }

  /** Alternation is the fold of its slice writes. */
  lemma {:induction false} AlternatedIsWrites(n: nat, p: seq<real>, alt: real, exp: real -> real, s: seq<real>, beats: nat)
    requires n >= 1 && |p| >= 8 && p[0] != 0.0 && p[2] != 0.0 && p[3] != 0.0
    ensures Alternated(n, p, alt, exp, s, beats) == ApplyAll(s, AltWrites(n, p, alt, beats, exp))
  {
    if beats > 0 {
      AlternatedIsWrites(n, p, alt, exp, s, beats - 1);
      var before := AltWrites(n, p, alt, beats - 1, exp);
      var l, r := BeatLeft(n, p, alt, beats - 1, exp), BeatRight(n, p, alt, beats - 1, exp);
      assert AltWrites(n, p, alt, beats, exp) == before + [l] + [r];
      ApplyAllSnoc(s, before + [l], r);
      ApplyAllSnoc(s, before, l);
    }
  }

  /** After alternation, sample t of beat i's T window holds what beat i's
      own writes put there: later beats never reach back into it. */
  lemma {:induction false} AlternatedValue(n: nat, p: seq<real>, alt: real, exp: real -> real, s: seq<real>,
                                           beats: nat, i: nat, t: int)
    requires n >= 2 && |p| >= 8 && p[0] != 0.0 && p[2] != 0.0 && p[3] != 0.0 && i < beats
    requires LocatedInside(n, p) && beats * (n - 1) < |s|
    requires Index(p, 4) + i * (n - 1) <= t < Index(p, 7) + i * (n - 1)
    ensures 0 <= t < |s|
    ensures Alternated(n, p, alt, exp, s, beats)[t]
         == if t - i * (n - 1) <= Index(p, 5) then BeatLeft(n, p, alt, i, exp).value(t)
            else BeatRight(n, p, alt, i, exp).value(t)
  {
    var last := beats - 1;
    var m := Alternated(n, p, alt, exp, s, last);
    BeatOffsets(n, i, beats);
    var k, lam := BeatOffset(n, last), Lambda(alt, p[0], last);
    var l, r := BeatLeft(n, p, alt, last, exp), BeatRight(n, p, alt, last, exp);
    AlternatedStep(n, p, alt, exp, s, beats);
    BeatWindow(n, p, lam, p[1] + k as real * Ts, k, exp, |m|, t);
    if i != last {
      BeatOffsets(n, i, last);
      BeatOffsets(n, last, beats);
      UntouchedByBeat(m, l, r, t);
      AlternatedValue(n, p, alt, exp, s, last, i, t);
    }
  }

  /** The values beat i writes are the cycle's own T pulse read i·(K−1)
      samples earlier, scaled by λ_i. */
  lemma BeatPulse(n: nat, p: seq<real>, alt: real, i: nat, exp: real -> real, t: int)
    requires n >= 1 && |p| >= 8 && p[0] != 0.0 && p[2] != 0.0 && p[3] != 0.0
    ensures BeatLeft(n, p, alt, i, exp).value(t)
         == Lambda(alt, p[0], i) * Gauss(exp, p[0], p[1], p[2], t - i * (n - 1))
    ensures BeatRight(n, p, alt, i, exp).value(t)
         == Lambda(alt, p[0], i) * Gauss(exp, p[0], p[1], p[3], t - i * (n - 1))
  {
    ShiftedGauss(exp, p[0], Lambda(alt, p[0], i), p[1], p[2], t, BeatOffset(n, i));
    ShiftedGauss(exp, p[0], Lambda(alt, p[0], i), p[1], p[3], t, BeatOffset(n, i));
  }

  /** After alternation, sample t of beat i's T window holds the cycle's T
      pulse at t − i·(K−1), scaled by λ_i: beats alternate between a taller
      (or shorter) T wave and the original one. */
  lemma AlternatedPulse(n: nat, p: seq<real>, alt: real, exp: real -> real, s: seq<real>,
                        beats: nat, i: nat, t: int)
    requires n >= 2 && |p| >= 8 && p[0] != 0.0 && p[2] != 0.0 && p[3] != 0.0 && i < beats
    requires LocatedInside(n, p) && beats * (n - 1) < |s|
    requires Index(p, 4) + i * (n - 1) <= t < Index(p, 7) + i * (n - 1)
    ensures 0 <= t < |s|
    ensures var lam, u := Lambda(alt, p[0], i), t - i * (n - 1);
      Alternated(n, p, alt, exp, s, beats)[t]
        == if u <= Index(p, 5) then lam * Gauss(exp, p[0], p[1], p[2], u)
           else lam * Gauss(exp, p[0], p[1], p[3], u)
  {
    AlternatedValue(n, p, alt, exp, s, beats, i, t);
    BeatPulse(n, p, alt, i, exp, t);
  }

  /** A sample neither half of a beat hits keeps its value. */
  lemma UntouchedByBeat(m: seq<real>, l: Write, r: Write, t: nat)
    requires t < |m| && !Hits(l, t, |m|) && !Hits(r, t, |m|)
    ensures Apply(Apply(m, l), r)[t] == m[t]
  {
  }

  /** A pulse of amplitude a·λ centred at mu + k·Ts, read at sample t, is λ
      times the original pulse read at sample t − k. */
  lemma ShiftedGauss(exp: real -> real, a: real, lam: real, mu: real, b: real, t: int, k: int)
    requires b != 0.0
    ensures Gauss(exp, a * lam, mu + k as real * Ts, b, t) == lam * Gauss(exp, a, mu, b, t - k)
  {
    var d := t as real * Ts - (mu + k as real * Ts);
    assert d == (t - k) as real * Ts - mu;
    var e := Bell(exp, d, b);
    assert a * lam * e == lam * (a * e);
  }

  /** Samples outside every beat's T window keep their value. */
  lemma {:induction false} AlternationUntouched(n: nat, p: seq<real>, alt: real, exp: real -> real, s: seq<real>,
                                                beats: nat, t: nat)
    requires n >= 1 && |p| >= 8 && p[0] != 0.0 && p[2] != 0.0 && p[3] != 0.0 && t < |s|
    requires forall i :: 0 <= i < beats ==>
      !Hits(BeatLeft(n, p, alt, i, exp), t, |s|) && !Hits(BeatRight(n, p, alt, i, exp), t, |s|)
    ensures Alternated(n, p, alt, exp, s, beats)[t] == s[t]
  {
    if beats > 0 {
      AlternationUntouched(n, p, alt, exp, s, beats - 1, t);
    }
  }

  /** Alternating twice with the same parameters changes nothing more: the
      written values never depend on what was there before. */
  lemma AlternationIdempotent(n: nat, p: seq<real>, alt: real, exp: real -> real, s: seq<real>, beats: nat)
    requires n >= 1 && |p| >= 8 && p[0] != 0.0 && p[2] != 0.0 && p[3] != 0.0
    ensures var once := Alternated(n, p, alt, exp, s, beats);
      Alternated(n, p, alt, exp, once, beats) == once
  {
    var once := Alternated(n, p, alt, exp, s, beats);
    AlternatedIsWrites(n, p, alt, exp, s, beats);
    AlternatedIsWrites(n, p, alt, exp, once, beats);
    ApplyAllIdempotent(s, AltWrites(n, p, alt, beats, exp));
  }

  /** The `if lmbd_prev == 1 … elif lmbd_prev == 1 + alt/a …` step of
      alternate_t: 1 becomes the taller scale, the taller scale becomes 1,
      anything else is kept. */
  function Toggle(prev: real, tall: real): real
  {
    if prev == 1.0 then tall else if prev == tall then 1.0 else prev
  }

  /** `lmbd_prev` after i passes of alternate_t's loop, starting from 1. */
  function Scales(alt: real, a: real, i: nat): real
    requires a != 0.0
  {
    if i == 0 then 1.0 else Toggle(Scales(alt, a, i - 1), 1.0 + alt / a)
  }

  /** The toggle yields λ_i on beat i: it flips between 1 + alt/a and 1
      (and stays 1 when alt = 0). */
  lemma {:induction false} ScalesAlternate(alt: real, a: real, i: nat)
    requires a != 0.0
    ensures Scales(alt, a, i + 1) == Lambda(alt, a, i)
  {
    if alt != 0.0 {
      assert alt / a != 0.0;
    }
    if i > 0 {
      ScalesAlternate(alt, a, i - 1);
    }
  }

  /** The scale of beat i, toggled from `lmbd_prev`. */
  method NextScale(lmbdPrev: real, alt: real, a: real, ghost i: nat) returns (lmbd: real)
    requires a != 0.0 && lmbdPrev == Scales(alt, a, i)
    ensures lmbd == Scales(alt, a, i + 1) == Lambda(alt, a, i)
  {
    lmbd := Toggle(lmbdPrev, 1.0 + alt / a);
    ScalesAlternate(alt, a, i);
  }

  /** Beat i's T window rewritten in place with amplitude a·λ, centred at `mu + t_i * new_t0`. */
  method RewriteBeat(ampSeq: array<real>, n: nat, p: seq<real>, alt: real, i: nat, exp: real -> real,
                     lmbd: real, t0: real)
    requires n >= 1 && |p| >= 8 && p[0] != 0.0 && p[2] != 0.0 && p[3] != 0.0
    requires lmbd == Lambda(alt, p[0], i) && t0 == NewT0(n)
    modifies ampSeq
    ensures ampSeq[..] == Apply(Apply(old(ampSeq[..]), BeatLeft(n, p, alt, i, exp)), BeatRight(n, p, alt, i, exp))
  {
    var off := ((i as real * t0) / Ts).Floor;
    var centre := p[1] + i as real * t0;
    BeatWritesExact(n, p, alt, i, exp, lmbd, t0);
    AssignInPlace(ampSeq, AltLeft(p, lmbd, centre, off, exp));
    AssignInPlace(ampSeq, AltRight(p, lmbd, centre, off, exp));
  }

  /** The loop of alternate_t over the T-wave parameters p of an n-sample
      cycle: beats 0 .. beats−1 rewritten in order, the scale toggling
      between 1 + alt/a and 1 through `lmbd_prev`. */
  method RewriteBeats(ampSeq: array<real>, n: nat, p: seq<real>, alt: real, exp: real -> real,
                      beats: nat, t0: real)
    requires n >= 1 && |p| >= 8 && p[0] != 0.0 && p[2] != 0.0 && p[3] != 0.0 && t0 == NewT0(n)
    modifies ampSeq
    ensures ampSeq[..] == Alternated(n, p, alt, exp, old(ampSeq[..]), beats)
  {
    ghost var s0 := ampSeq[..];
    var lmbdPrev := 1.0;
    var i := 0;
    while i < beats
      invariant 0 <= i <= beats
      invariant ampSeq[..] == Alternated(n, p, alt, exp, s0, i)
      invariant lmbdPrev == Scales(alt, p[0], i)
    {
      var lmbd := NextScale(lmbdPrev, alt, p[0], i);
      RewriteBeat(ampSeq, n, p, alt, i, exp, lmbd, t0);
      AlternatedStep(n, p, alt, exp, s0, i + 1);
      lmbdPrev := lmbd;
      i := i + 1;
    }
  }

  class CycleSequence {
    /** The cycle pasted into the sequence; null for a sequence built from
        raw time and amplitude arrays. */
    const cycle: CycleModel?
    /** Number of beats. */
    const beats: nat
    /** `ecg_cycle.time[-1]`, the length of one beat in ms. */
    const newT0: real
    const timeSeq: seq<real>
    const ampSeq: array<real>

    ghost predicate Valid()
    {
      cycle != null ==> cycle.n >= 1 && newT0 == NewT0(cycle.n)
    }

    /** `CycleSequence(ecg_cycle, n)`: the synthesised cycle (its amplitude
        must exist) tiled n times on a time axis of matching length. */
    constructor FromCycle(c: CycleModel, n: nat)
      requires c.Valid() && c.amplitude.Length == c.n
      ensures Valid() && cycle == c && beats == n
      ensures timeSeq == Arange(NewT0(c.n) * n as real + Ts)
      ensures fresh(ampSeq) && ampSeq[..] == Tiled(c.amplitude[..], n)
      ensures |timeSeq| == ampSeq.Length == (c.n - 1) * n + 1
    {
      cycle := c;
      c.TimeAxisSpansCycle();
      var t0 := c.TimeAxis()[c.n - 1];
      assert t0 == NewT0(c.n);
      newT0 := t0;
      beats := n;
      var stop := t0 * n as real + Ts;
      assert stop == NewT0(c.n) * n as real + Ts;
      timeSeq := Arange(stop);
      SequenceAxisExact(c.n, n);
      var s := Tiled(c.amplitude[..], n);
      ampSeq := new real[|s|](i requires 0 <= i < |s| => s[i]);
    }

    /** `CycleSequence(time_seq=..., amp_seq=...)`: the arrays are kept as
        given, shared with the caller. */
    constructor FromArrays(time: seq<real>, amp: array<real>)
      ensures Valid() && cycle == null && timeSeq == time && ampSeq == amp && beats == 0
    {
      cycle := null;
      newT0 := 0.0;
      beats := 0;
      timeSeq := time;
      ampSeq := amp;
    }

    /** alternate_t: beat i's T window is rewritten with amplitude
        a·λ_i. Fails without touching the sequence when there is no cycle,
        when the cycle has no T wave, or when a = 0 makes `alt / a` divide
        by zero. */
    method AlternateT(alt: real, exp: real -> real) returns (r: Result<()>)
      requires Valid() && (cycle != null ==> SpreadsNonZero(cycle.waves.entries))
      modifies ampSeq
      ensures cycle == null ==> r == Err(AttributeError)
      ensures cycle != null && IndexOf(cycle.waves.entries, "T").None? ==> r == Err(KeyError)
      ensures r.Err? ==> ampSeq[..] == old(ampSeq[..])
      ensures cycle != null && IndexOf(cycle.waves.entries, "T").Some? ==>
        var p := cycle.waves.entries[IndexOf(cycle.waves.entries, "T").value].params;
        && (|p| < 4 ==> r == Err(IndexError))
        && (|p| >= 4 && beats == 0 ==> r == Ok(()) && ampSeq[..] == old(ampSeq[..]))
        && (|p| >= 4 && beats >= 1 && |p| < 8 ==> r == Err(IndexError))
        && (|p| >= 8 && beats >= 1 && p[0] == 0.0 ==> r == Err(ZeroDivisionError))
        && (|p| >= 8 && beats >= 1 && p[0] != 0.0 ==>
              r == Ok(()) && ampSeq[..] == Alternated(cycle.n, p, alt, exp, old(ampSeq[..]), beats))
    {
      if cycle == null {
        return Err(AttributeError);
      }
      var idx := IndexOf(cycle.waves.entries, "T");
      if idx.None? {
        return Err(KeyError);
      }
      var p := cycle.waves.entries[idx.value].params;
      if |p| < 4 {
        return Err(IndexError);
      }
      var a := p[0];
      if beats == 0 {
        return Ok(());
      }
      if |p| < 8 {
        return Err(IndexError);
      }
      if a == 0.0 {
        return Err(ZeroDivisionError);
      }
      RewriteBeats(ampSeq, cycle.n, p, alt, exp, beats, newT0);
      r := Ok(());
    }
  }
}
