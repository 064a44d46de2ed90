/** The earlier sequence class: it shares the cycle's wave dictionary and
    amplitude array, builds its time axis from the nominal beat length
    60000/Fh, can edit a pulse in the shared dictionary, and tiles the
    cycle's amplitude on demand. Its own construct_cycle reads a time axis
    the class never defines. */
module LegacySequence {
  import opened Common
  import opened SampleGrid
  import opened Cycle
  import opened Sequence

  /** `waves[name] = params` on an insertion-ordered dict: an existing key
      keeps its position and takes the new value, a new key goes last. */
  function Upsert(ws: seq<Wave>, name: string, params: seq<real>): (r: seq<Wave>)
  {
    match IndexOf(ws, name)
    case Some(i) => ws[i := Wave(name, params)]
    case None => ws + [Wave(name, params)]
  }

  /** After the assignment the name looks up to exactly the stored pulse,
      and the table grows only when the name was new. */
  lemma UpsertLookup(ws: seq<Wave>, name: string, params: seq<real>)
    ensures IndexOf(Upsert(ws, name, params), name).Some?
    ensures var r := Upsert(ws, name, params);
      r[IndexOf(r, name).value] == Wave(name, params)
    ensures |Upsert(ws, name, params)| == if IndexOf(ws, name).Some? then |ws| else |ws| + 1
  {
    var r := Upsert(ws, name, params);
    match IndexOf(ws, name)
    case Some(i) =>
      assert r[i].name == name;
      assert forall j :: 0 <= j < i ==> r[j] == ws[j];
    case None =>
      assert r[|ws|].name == name;
      assert forall j :: 0 <= j < |ws| ==> r[j] == ws[j];
  }

  /** Every other name keeps its position and its pulse. */
  lemma UpsertOthers(ws: seq<Wave>, name: string, params: seq<real>, other: string)
    requires other != name
    ensures IndexOf(Upsert(ws, name, params), other) == IndexOf(ws, other)
    ensures IndexOf(ws, other).Some? ==>
      Upsert(ws, name, params)[IndexOf(ws, other).value] == ws[IndexOf(ws, other).value]
  {
    var r := Upsert(ws, name, params);
    assert forall j :: 0 <= j < |ws| ==> r[j].name == ws[j].name;
    match IndexOf(ws, other)
    case Some(k) =>
      assert r[k].name == other;
      IndexOfFirst(r, other, k);
    case None =>
      assert forall j :: 0 <= j < |r| ==> r[j].name != other;
      IndexOfAbsent(r, other);
  }

  /** IndexOf's contract pins down a present name: the first position that
      holds it. */
  lemma {:induction false} IndexOfFirst(ws: seq<Wave>, name: string, k: nat)
    requires k < |ws| && ws[k].name == name
    requires forall j :: 0 <= j < k ==> ws[j].name != name
    ensures IndexOf(ws, name) == Some(k)
  {
    if k > 0 {
      assert ws[1..][k - 1] == ws[k];
      IndexOfFirst(ws[1..], name, k - 1);
    }
  }

  /** IndexOf's contract pins down an absent name. */
  lemma {:induction false} IndexOfAbsent(ws: seq<Wave>, name: string)
    requires forall j :: 0 <= j < |ws| ==> ws[j].name != name
    ensures IndexOf(ws, name) == None
  {
    if |ws| > 0 {
      IndexOfAbsent(ws[1..], name);
    }
  }

  /** The dictionary's keys stay distinct. */
  lemma UpsertDistinct(ws: seq<Wave>, name: string, params: seq<real>)
    requires DistinctNames(ws)
    ensures DistinctNames(Upsert(ws, name, params))
  {
  }

  /** Assigning the same value twice is assigning it once. */
  lemma UpsertIdempotent(ws: seq<Wave>, name: string, params: seq<real>)
    ensures Upsert(Upsert(ws, name, params), name, params) == Upsert(ws, name, params)
  {
    UpsertLookup(ws, name, params);
    var r := Upsert(ws, name, params);
    var i := IndexOf(r, name).value;
    assert r[i := Wave(name, params)] == r;
  }

  /** `CycleSequence(ecg_cycle, n)` on any cycle: reading
      `ecg_cycle.amplitude` raises AttributeError until construct_cycle has
      run on the cycle, which the model marks by its empty placeholder
      array (a synthesised cycle has at least two samples). */
  method NewSequence(c: CycleModel, n: nat) returns (r: Result<LegacySequence>)
    requires c.Valid()
    ensures r.Err? <==> c.amplitude.Length != c.n
    ensures r.Err? ==> r.error == AttributeError
    ensures r.Ok? ==> fresh(r.value) && r.value.Fh == c.Fh && r.value.waves == c.waves && r.value.beats == n
    ensures r.Ok? ==> r.value.ampCycle == c.amplitude && r.value.ampSeq == null
    ensures r.Ok? ==> r.value.timeSeq == Arange(60000.0 / c.Fh * n as real + Ts)
  {
    if c.amplitude.Length != c.n {
      return Err(AttributeError);
    }
    var q := new LegacySequence(c, n);
    r := Ok(q);
  }

  class LegacySequence {
    const Fh: real
    /** The cycle's wave dictionary, shared by reference. */
    const waves: WaveTable
    /** Number of beats. */
    const beats: nat
    const timeSeq: seq<real>
    /** The cycle's amplitude array as it was at construction, shared by
        reference. */
    const ampCycle: array<real>
    /** `self.amp_seq`; null until construct_sequence has run. */
    var ampSeq: array?<real>

    /** `CycleSequence(ecg_cycle, n)` on a synthesised cycle: the axis
        spans n nominal beats of 60000/Fh ms each, plus one period. */
    constructor (c: CycleModel, n: nat)
      requires c.Valid() && c.amplitude.Length == c.n
      ensures Fh == c.Fh && waves == c.waves && beats == n
      ensures timeSeq == Arange(60000.0 / c.Fh * n as real + Ts)
      ensures ampCycle == c.amplitude && ampSeq == null
    {
      Fh := c.Fh;
      waves := c.waves;
      beats := n;
      var t0 := 60000.0 / c.Fh * n as real;
      timeSeq := Arange(t0 + Ts);
      ampCycle := c.amplitude;
      ampSeq := null;
    }

    /** update_wave: the pulse is stored in the dictionary shared with the
        cycle, so the cycle sees the change too. */
    method UpdateWave(w: string, params: seq<real>)
      requires waves.Valid()
      modifies waves
      ensures waves.Valid()
      ensures waves.entries == Upsert(old(waves.entries), w, params)
    {
      UpsertDistinct(waves.entries, w, params);
      match IndexOf(waves.entries, w)
      case Some(i) =>
        waves.entries := waves.entries[i := Wave(w, params)];
      case None =>
        waves.entries := waves.entries + [Wave(w, params)];
    }

    /** construct_cycle: the first statement reads `self.time`, which this
        class never sets, so the call fails before changing anything. */
    method ConstructCycle() returns (r: Result<()>)
      ensures r == Err(AttributeError)
    {
      r := Err(AttributeError);
    }

    /** construct_sequence: every sample of the shared cycle but its last,
        `beats` times, then a closing zero, into a new array. */
    method ConstructSequence()
      modifies this
      ensures fresh(ampSeq) && ampSeq[..] == Tiled(ampCycle[..], beats)
    {
      var s := Tiled(ampCycle[..], beats);
      ampSeq := new real[|s|](i requires 0 <= i < |s| => s[i]);
    }
  }

  /** At 70 beats/min a cycle has 1757 samples, so two tiled beats give 3513
      amplitude samples, while the nominal axis 2·60000/70 + Ts holds only
      3512 times: the sequence and its axis cannot be plotted together. */
  lemma LegacyAxisMismatch(amp: seq<real>)
    requires |amp| == GridLength(70.0)
    ensures |Arange(60000.0 / 70.0 * 2.0 + Ts)| == 3512
    ensures |Tiled(amp, 2)| == 3513
  {
    var x := (60000.0 / 70.0 + Ts) / Ts;
    assert 1756.0 < x <= 1757.0;
    var y := (60000.0 / 70.0 * 2.0 + Ts) / Ts;
    assert 3511.0 < y <= 3512.0;
  }
}
