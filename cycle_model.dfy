/** One heart cycle synthesised from named asymmetric Gaussian pulses (P, Q,
    R, S, ST, T), the slider-range searches that keep a pulse between its
    neighbours, and the heart-rate rescaling of every pulse. */
module Cycle {
  import opened Common
  import opened Slices
  import opened SampleGrid

  /** One pulse. Slots: 0 amplitude a, 1 mean mu (ms), 2 left spread b1,
      3 right spread b2, 4 leftStart, 5 centre, 6 centre, 7 rightEnd (sample
      indices written by synthesis). */
  datatype Wave = Wave(name: string, params: seq<real>)

  /** Synthesis writes slots 4 to 7, so a pulse needs at least eight of them;
      a zero spread would make the Gaussian divide by zero. */
  predicate WellFormed(w: Wave)
  {
    |w.params| >= 8 && w.params[2] != 0.0 && w.params[3] != 0.0
  }

  predicate AllWellFormed(ws: seq<Wave>)
  {
    forall i :: 0 <= i < |ws| ==> WellFormed(ws[i])
  }

  /** Every pulse that has both spread slots has non-zero spreads. */
  predicate SpreadsNonZero(ws: seq<Wave>)
  {
    forall i :: 0 <= i < |ws| && |ws[i].params| >= 4 ==> ws[i].params[2] != 0.0 && ws[i].params[3] != 0.0
  }

  /** The number of leading pulses that have all eight slots: the loops over
      the dictionary raise IndexError at the first pulse that has fewer. */
  function LongPrefix(ws: seq<Wave>): (k: nat)
    ensures k <= |ws|
    ensures forall j :: 0 <= j < k ==> |ws[j].params| >= 8
    ensures k < |ws| ==> |ws[k].params| < 8
  {
    if |ws| == 0 || |ws[0].params| < 8 then 0 else 1 + LongPrefix(ws[1..])
  }

  /** The pulses before the first short one are fit for synthesis. */
  lemma LongPrefixWellFormed(ws: seq<Wave>, i: nat)
    requires SpreadsNonZero(ws) && i <= LongPrefix(ws)
    ensures AllWellFormed(ws[..i])
  {
  }

  predicate DistinctNames(ws: seq<Wave>)
  {
    forall i, j :: 0 <= i < j < |ws| ==> ws[i].name != ws[j].name
  }

  /** `list(waves).index(name)`: the first position holding the name. */
  function IndexOf(ws: seq<Wave>, name: string): (r: Option<nat>)
    ensures r.Some? ==> r.value < |ws| && ws[r.value].name == name
    ensures r.Some? ==> forall j :: 0 <= j < r.value ==> ws[j].name != name
    ensures r.None? ==> forall j :: 0 <= j < |ws| ==> ws[j].name != name
  {
    if |ws| == 0 then None
    else if ws[0].name == name then Some(0)
    else match IndexOf(ws[1..], name)
      case None => None
      case Some(i) => Some(i + 1)
  }

  /** The wave dictionary: an ordered mapping from names to pulses, held by
      reference by every model and sequence built on it. */
  class WaveTable {
    var entries: seq<Wave>

    ghost predicate Valid()
      reads this
    {
      DistinctNames(entries)
    }

    constructor (ws: seq<Wave>)
      requires DistinctNames(ws)
      ensures Valid() && entries == ws
    {
      entries := ws;
    }
  }

  // ---------------------------------------------------------------------
  // Synthesis

  /** exp(−d² / (2·b²)): the bell at offset d from the mean. */
  function Bell(exp: real -> real, d: real, b: real): real
    requires b != 0.0
  {
    exp(-(d * d / (2.0 * b * b)))
  }

  /** a · exp(−(t·Ts − mu)² / (2·b²)) at sample t. */
  function Gauss(exp: real -> real, a: real, mu: real, b: real, t: int): real
    requires b != 0.0
  {
    a * Bell(exp, t as real * Ts - mu, b)
  }

  function LeftStart(n: nat, w: Wave): (t1: nat)
    requires n >= 1 && |w.params| >= 4
    ensures t1 < n
  {
    Nearest(n, w.params[1] - 3.0 * w.params[2])
  }

  function Centre(w: Wave): int
    requires |w.params| >= 2
  {
    (w.params[1] / Ts).Floor
  }

  function RightEnd(n: nat, w: Wave): (t2: nat)
    requires n >= 1 && |w.params| >= 4
    ensures t2 < n
  {
    Nearest(n, w.params[1] + 3.0 * w.params[3])
  }

  /** The value synthesis stores in slot k (4 to 7) of pulse w. */
  function Slot(n: nat, w: Wave, k: nat): real
    requires n >= 1 && |w.params| >= 4
  {
    if k == 4 then LeftStart(n, w) as real
    else if k == 7 then RightEnd(n, w) as real
    else Centre(w) as real
  }

  /** The pulse with slots 4 to 7 set to the indices synthesis derives. A
      pulse with fewer slots gets those of them it has, as the assignments
      at the top of construct_cycle's loop do before one of them raises
      IndexError. */
  function Locate(n: nat, w: Wave): (r: Wave)
    requires n >= 1
    ensures r.name == w.name && |r.params| == |w.params|
  {
    var p := w.params;
    if |p| <= 4 then w
    else if |p| >= 8 then
      var c := Centre(w) as real;
      w.(params := p[4 := LeftStart(n, w) as real][5 := c][6 := c][7 := RightEnd(n, w) as real])
    else w.(params := seq(|p|, k requires 0 <= k < |p| => if 4 <= k then Slot(n, w, k) else p[k]))
  }

  /** Locating keeps slots 0 to 3 and any past 7, and stores leftStart,
      the centre twice and rightEnd, each a sample index of the cycle, in
      slots 4 to 7, as far as the pulse has them. */
  lemma LocateSlots(n: nat, w: Wave)
    requires n >= 1
    ensures var r := Locate(n, w);
      && (|w.params| <= 4 ==> r == w)
      && (4 <= |w.params| < 8 ==> forall k :: 0 <= k < |w.params| ==>
            r.params[k] == if 4 <= k then Slot(n, w, k) else w.params[k])
      && (|w.params| >= 8 ==>
            && r.params[..4] == w.params[..4] && r.params[8..] == w.params[8..]
            && r.params[4] == Nearest(n, w.params[1] - 3.0 * w.params[2]) as real
            && r.params[5] == r.params[6] == (w.params[1] / Ts).Floor as real
            && r.params[7] == Nearest(n, w.params[1] + 3.0 * w.params[3]) as real
            && 0.0 <= r.params[4] <= (n - 1) as real && 0.0 <= r.params[7] <= (n - 1) as real)
  {
  }

  function LocateAll(n: nat, ws: seq<Wave>): (r: seq<Wave>)
    requires n >= 1
    ensures |r| == |ws|
  {
    seq(|ws|, i requires 0 <= i < |ws| => Locate(n, ws[i]))
  }

  /** The dictionary after construct_cycle has located its first k pulses
      in place. */
  function Located(n: nat, ws: seq<Wave>, k: nat): (r: seq<Wave>)
    requires n >= 1 && k <= |ws|
    ensures |r| == |ws|
  {
    LocateAll(n, ws[..k]) + ws[k..]
  }

  lemma LocatedAt(n: nat, ws: seq<Wave>, k: nat, j: nat)
    requires n >= 1 && k <= |ws| && j < |ws|
    ensures Located(n, ws, k)[j] == if j < k then Locate(n, ws[j]) else ws[j]
  {
  }

  /** One step of construct_cycle's loop over the dictionary: the k-th
      pulse, still untouched, is replaced by its located copy. */
  lemma LocateStep(n: nat, ws: seq<Wave>, k: nat)
    requires n >= 1 && k < |ws|
    ensures Located(n, ws, k)[k] == ws[k]
    ensures Located(n, ws, k)[k := Locate(n, ws[k])] == Located(n, ws, k + 1)
  {
    var before := Located(n, ws, k);
    var after := Located(n, ws, k + 1);
    LocatedAt(n, ws, k, k);
    forall j | 0 <= j < |ws|
      ensures before[k := Locate(n, ws[k])][j] == after[j]
    {
      LocatedAt(n, ws, k, j);
      LocatedAt(n, ws, k + 1, j);
    }
  }

  /** Locating a prefix of the pulses keeps every name in its place. */
  lemma LocatedNames(n: nat, ws: seq<Wave>, k: nat)
    requires n >= 1 && k <= |ws| && DistinctNames(ws)
    ensures DistinctNames(Located(n, ws, k))
  {
    var r := Located(n, ws, k);
    forall j | 0 <= j < |ws|
      ensures r[j].name == ws[j].name
    {
      LocatedAt(n, ws, k, j);
    }
  }

  /** `amplitude[t1 : c+1] = a·exp(...b1...)`, the rising half. */
  function LeftWrite(n: nat, w: Wave, exp: real -> real): Write
    requires n >= 1 && WellFormed(w)
  {
    var a, mu, b1 := w.params[0], w.params[1], w.params[2];
    Write(LeftStart(n, w), Centre(w) + 1, t => Gauss(exp, a, mu, b1, t))
  }

  /** `amplitude[c+1 : t2] = a·exp(...b2...)`, the falling half. */
  function RightWrite(n: nat, w: Wave, exp: real -> real): Write
    requires n >= 1 && WellFormed(w)
  {
    var a, mu, b2 := w.params[0], w.params[1], w.params[3];
    Write(Centre(w) + 1, RightEnd(n, w), t => Gauss(exp, a, mu, b2, t))
  }

  /** The slice writes of all pulses, in dictionary order, two per pulse. */
  function WaveWrites(n: nat, ws: seq<Wave>, exp: real -> real): (r: seq<Write>)
    requires n >= 1 && AllWellFormed(ws)
    ensures |r| == 2 * |ws|
  {
    if ws == [] then []
    else WaveWrites(n, ws[..|ws| - 1], exp) + [LeftWrite(n, ws[|ws| - 1], exp), RightWrite(n, ws[|ws| - 1], exp)]
  }

  /** The cycle construct_cycle produces: n zeros overwritten by each pulse
      in turn. */
  function Synthesis(n: nat, ws: seq<Wave>, exp: real -> real): (amp: seq<real>)
    requires n >= 1 && AllWellFormed(ws)
    ensures |amp| == n
  {
    ApplyAll(seq(n, _ => 0.0), WaveWrites(n, ws, exp))
  }

  /** Sample t lies in one of the two ranges pulse w writes. */
  predicate Covers(n: nat, w: Wave, t: int, exp: real -> real)
    requires n >= 1 && WellFormed(w)
  {
    Hits(LeftWrite(n, w, exp), t, n) || Hits(RightWrite(n, w, exp), t, n)
  }

  /** The value pulse w writes at sample t. */
  function PulseValue(n: nat, w: Wave, t: int, exp: real -> real): real
    requires n >= 1 && WellFormed(w)
  {
    if Hits(LeftWrite(n, w, exp), t, n) then Gauss(exp, w.params[0], w.params[1], w.params[2], t)
    else Gauss(exp, w.params[0], w.params[1], w.params[3], t)
  }

  lemma {:induction false} WaveWritesAt(n: nat, ws: seq<Wave>, exp: real -> real, k: nat)
    requires n >= 1 && AllWellFormed(ws) && k < |ws|
    ensures WaveWrites(n, ws, exp)[2 * k] == LeftWrite(n, ws[k], exp)
    ensures WaveWrites(n, ws, exp)[2 * k + 1] == RightWrite(n, ws[k], exp)
  {
    var init := ws[..|ws| - 1];
    if k < |ws| - 1 {
      assert init[k] == ws[k];
      WaveWritesAt(n, init, exp, k);
    }
  }

  lemma SynthesisStep(n: nat, ws: seq<Wave>, i: nat, exp: real -> real)
    requires n >= 1 && i < |ws| && AllWellFormed(ws[..i + 1])
    ensures Synthesis(n, ws[..i + 1], exp)
         == Apply(Apply(Synthesis(n, ws[..i], exp), LeftWrite(n, ws[i], exp)), RightWrite(n, ws[i], exp))
  {
    var pre := ws[..i + 1];
    assert pre[..i] == ws[..i];
    var zeros := seq(n, _ => 0.0);
    var before := WaveWrites(n, ws[..i], exp);
    var l, r := LeftWrite(n, ws[i], exp), RightWrite(n, ws[i], exp);
    assert WaveWrites(n, pre, exp) == before + [l] + [r];
    ApplyAllSnoc(zeros, before + [l], r);
    ApplyAllSnoc(zeros, before, l);
  }

  /** The cycle after construct_cycle has written the first k pulses of a
      dictionary whose first k pulses are long. */
  function SynthesisUpTo(n: nat, ws: seq<Wave>, k: nat, exp: real -> real): (amp: seq<real>)
    requires n >= 1 && SpreadsNonZero(ws) && k <= LongPrefix(ws)
    ensures |amp| == n
  {
    LongPrefixWellFormed(ws, k);
    Synthesis(n, ws[..k], exp)
  }

  /** One step of construct_cycle's loop: the k-th pulse's two writes. */
  lemma SynthesisUpToStep(n: nat, ws: seq<Wave>, k: nat, exp: real -> real)
    requires n >= 1 && SpreadsNonZero(ws) && k < LongPrefix(ws)
    ensures WellFormed(ws[k])
    ensures SynthesisUpTo(n, ws, k + 1, exp)
         == Apply(Apply(SynthesisUpTo(n, ws, k, exp), LeftWrite(n, ws[k], exp)), RightWrite(n, ws[k], exp))
  {
    LongPrefixWellFormed(ws, k + 1);
    assert ws[..k + 1][k] == ws[k];
    SynthesisStep(n, ws, k, exp);
  }

  /** The two slice assignments of one pulse, in place on the cycle. */
  method WritePulse(amp: array<real>, n: nat, w: Wave, exp: real -> real)
    requires n >= 1 && WellFormed(w)
    modifies amp
    ensures amp[..] == Apply(Apply(old(amp[..]), LeftWrite(n, w, exp)), RightWrite(n, w, exp))
  {
    AssignInPlace(amp, LeftWrite(n, w, exp));
    AssignInPlace(amp, RightWrite(n, w, exp));
  }

  /** A sample no pulse covers stays 0. */
  lemma SynthesisUncovered(n: nat, ws: seq<Wave>, t: nat, exp: real -> real)
    requires n >= 1 && AllWellFormed(ws) && t < n
    requires forall k :: 0 <= k < |ws| ==> !Covers(n, ws[k], t, exp)
    ensures Synthesis(n, ws, exp)[t] == 0.0
  {
    var writes := WaveWrites(n, ws, exp);
    forall j | 0 <= j < |writes|
      ensures !Hits(writes[j], t, n)
    {
      WaveWritesAt(n, ws, exp, j / 2);
      assert !Covers(n, ws[j / 2], t, exp);
    }
    ApplyAllUntouched(seq(n, _ => 0.0), writes, t);
  }

  /** Writes are assignments: where several pulses cover a sample, the last
      of them in dictionary order sets its value. */
  lemma SynthesisLaterWins(n: nat, ws: seq<Wave>, t: nat, k: nat, exp: real -> real)
    requires n >= 1 && AllWellFormed(ws) && t < n && k < |ws|
    requires Covers(n, ws[k], t, exp)
    requires forall j :: k < j < |ws| ==> !Covers(n, ws[j], t, exp)
    ensures Synthesis(n, ws, exp)[t] == PulseValue(n, ws[k], t, exp)
  {
    var writes := WaveWrites(n, ws, exp);
    WaveWritesAt(n, ws, exp, k);
    var last := if Hits(RightWrite(n, ws[k], exp), t, n) then 2 * k + 1 else 2 * k;
    forall j | last < j < |writes|
      ensures !Hits(writes[j], t, n)
    {
      WaveWritesAt(n, ws, exp, j / 2);
      if j / 2 == k {
        assert j == 2 * k + 1;
      } else {
        assert !Covers(n, ws[j / 2], t, exp);
      }
    }
    ApplyAllLastWins(seq(n, _ => 0.0), writes, t, last);
    if last == 2 * k + 1 {
      assert !Hits(LeftWrite(n, ws[k], exp), t, n);
    }
  }

  /** For a mean inside the grid, pulse w writes exactly the samples in
      [params[4], params[5]] and (params[6], params[7]) of its located copy;
      in particular its own rightEnd sample is never written by its falling
      half, and not at all once rightEnd lies past the centre. */
  lemma CoveredRangeIsStoredIndices(n: nat, w: Wave, t: int, exp: real -> real)
    requires n >= 1 && WellFormed(w)
    requires -1 <= Centre(w) < n
    ensures var p := Locate(n, w).params;
      Covers(n, w, t, exp) <==> (p[4] <= t as real <= p[5] || p[6] < t as real < p[7])
    ensures !Hits(RightWrite(n, w, exp), RightEnd(n, w), n)
    ensures RightEnd(n, w) > Centre(w) ==> !Covers(n, w, RightEnd(n, w), exp)
  {
    LocateSlots(n, w);
  }

  /** The loop of construct_cycle over the dictionary `table`, writing
      into the zero array `amp`. */
  method SynthesiseInto(table: WaveTable, amp: array<real>, n: nat, exp: real -> real) returns (r: Result<()>)
    requires n >= 1 && amp.Length == n && amp[..] == seq(n, _ => 0.0)
    requires SpreadsNonZero(table.entries)
    modifies table, amp
    ensures var ws, k := old(table.entries), LongPrefix(old(table.entries));
      && (r.Ok? <==> k == |ws|)
      && (r.Ok? ==> table.entries == Located(n, ws, |ws|) && amp[..] == SynthesisUpTo(n, ws, |ws|, exp))
      && (r.Err? ==>
            && r.error == IndexError
            && table.entries == Located(n, ws, k + 1)
            && amp[..] == SynthesisUpTo(n, ws, k, exp))
  {
    ghost var ws0 := table.entries;
    ghost var k := LongPrefix(ws0);
    assert amp[..] == SynthesisUpTo(n, ws0, 0, exp);
    assert ws0[..0] == [] && ws0[0..] == ws0;
    var i := 0;
    while i < |table.entries|
      invariant 0 <= i <= k && table.entries == Located(n, ws0, i)
      invariant amp[..] == SynthesisUpTo(n, ws0, i, exp)
    {
      var w := table.entries[i];
      LocateStep(n, ws0, i);
      table.entries := table.entries[i := Locate(n, w)];
      if |w.params| < 8 {
        return Err(IndexError);
      }
      SynthesisUpToStep(n, ws0, i, exp);
      WritePulse(amp, n, w, exp);
      i := i + 1;
    }
    r := Ok(());
  }

  // ---------------------------------------------------------------------
  // Neighbour bounds and range searches

  /** Python's `temp[i - 1]`: the first position wraps to the last. */
  function PrevIndex(i: nat, len: nat): (r: nat)
    requires i < len
    ensures r < len
  {
    if i == 0 then len - 1 else i - 1
  }

  /** get_t_lims gives the first pulse, P, the cycle start as its left
      limit and the last pulse, T, the final sample as its right limit. */
  predicate IsFirst(w: string) { w == "P" }

  predicate IsLast(w: string) { w == "T" }

  /** get_t_lims: the sample limits pulse w may not cross, the rightEnd of
      the pulse before it and the leftStart of the pulse after it in
      dictionary order; P starts at sample 0 and T ends at the final sample
      n-1. An unknown name raises ValueError (`list.index`), a missing
      neighbour or a neighbour without the slot IndexError. */
  function TLims(ws: seq<Wave>, n: nat, w: string): (r: Result<(real, real)>)
    requires n >= 1
  {
    match IndexOf(ws, w)
    case None => Err(ValueError)
    case Some(i) =>
      var prev := ws[PrevIndex(i, |ws|)].params;
      var hasNext := i + 1 < |ws| && |ws[i + 1].params| >= 5;
      if IsFirst(w) then
        if hasNext then Ok((0.0, ws[i + 1].params[4])) else Err(IndexError)
      else if IsLast(w) then
        if |prev| >= 8 then Ok((prev[7], (n - 1) as real)) else Err(IndexError)
      else if |prev| >= 8 && hasNext then Ok((prev[7], ws[i + 1].params[4]))
      else Err(IndexError)
  }

  /** Once the dictionary has been synthesised, the limits of a pulse are
      its neighbours' synthesised edges: 0 or the previous pulse's rightEnd
      on the left, the next pulse's leftStart or the final sample on the
      right. The wrap-around `temp[i - 1]` makes the last pulse the left
      neighbour of a T that comes first. */
  lemma TLimsAreNeighbourEdges(ws: seq<Wave>, n: nat, i: nat)
    requires n >= 1 && i < |ws| && DistinctNames(ws)
    requires forall j :: 0 <= j < |ws| ==> |ws[j].params| >= 8
    ensures var located, w := LocateAll(n, ws), ws[i].name;
      var left := if IsFirst(w) then 0 else RightEnd(n, ws[PrevIndex(i, |ws|)]);
      var right := if IsLast(w) && !IsFirst(w) then n - 1 else if i + 1 < |ws| then LeftStart(n, ws[i + 1]) else -1;
      TLims(located, n, w) == if right < 0 then Err(IndexError) else Ok((left as real, right as real))
  {
    var located := LocateAll(n, ws);
    var w := ws[i].name;
    forall j | 0 <= j < |ws|
      ensures located[j].name == ws[j].name
    {
    }
    IndexOfDistinct(located, i);
    var pi := PrevIndex(i, |ws|);
    LocatedEdges(n, ws, pi);
    if i + 1 < |ws| {
      LocatedEdges(n, ws, i + 1);
    }
  }

  /** In a dictionary with distinct names, a pulse's name finds it. */
  lemma IndexOfDistinct(ws: seq<Wave>, i: nat)
    requires i < |ws| && forall j, k :: 0 <= j < k < |ws| ==> ws[j].name != ws[k].name
    ensures IndexOf(ws, ws[i].name) == Some(i)
  {
    var r := IndexOf(ws, ws[i].name);
    assert r.Some?;
  }

  /** The edges a synthesised pulse stores in slots 4 and 7. */
  lemma LocatedEdges(n: nat, ws: seq<Wave>, j: nat)
    requires n >= 1 && j < |ws| && |ws[j].params| >= 8
    ensures |LocateAll(n, ws)[j].params| >= 8
    ensures LocateAll(n, ws)[j].params[4] == LeftStart(n, ws[j]) as real
    ensures LocateAll(n, ws)[j].params[7] == RightEnd(n, ws[j]) as real
  {
    LocateSlots(n, ws[j]);
  }

  /** A left edge at sample `Nearest(mu − 3·b1)` respects the left limit;
      the first pulse may not touch it. */
  predicate LeftFits(n: nat, first: bool, mu: int, b1: int, tPrev: real)
    requires n >= 1
  {
    var t1 := Nearest(n, (mu - 3 * b1) as real) as real;
    if first then t1 > tPrev else t1 >= tPrev
  }

  /** A right edge at sample `Nearest(mu + 3·b2)` respects the right limit;
      the last pulse may not touch it. */
  predicate RightFits(n: nat, last: bool, mu: int, b2: int, tNext: real)
    requires n >= 1
  {
    var t2 := Nearest(n, (mu + 3 * b2) as real) as real;
    if last then t2 < tNext else t2 <= tNext
  }

  /** Moving the mean right or narrowing the left spread keeps a fitting
      left edge fitting. */
  lemma LeftFitsMonotone(n: nat, first: bool, mu: int, b1: int, mu': int, b1': int, tPrev: real)
    requires n >= 1 && mu <= mu' && b1' <= b1
    requires LeftFits(n, first, mu, b1, tPrev)
    ensures LeftFits(n, first, mu', b1', tPrev)
  {
    NearestMonotone(n, (mu - 3 * b1) as real, (mu' - 3 * b1') as real);
  }

  /** Moving the mean left or narrowing the right spread keeps a fitting
      right edge fitting. */
  lemma RightFitsMonotone(n: nat, last: bool, mu: int, b2: int, mu': int, b2': int, tNext: real)
    requires n >= 1 && mu' <= mu && b2' <= b2
    requires RightFits(n, last, mu, b2, tNext)
    ensures RightFits(n, last, mu', b2', tNext)
  {
    NearestMonotone(n, (mu' + 3 * b2') as real, (mu + 3 * b2) as real);
  }

  /** Every spread narrower than a fitting left spread fits. */
  lemma LeftFitsNarrower(n: nat, first: bool, mu: int, b1: int, tPrev: real)
    requires n >= 1 && LeftFits(n, first, mu, b1, tPrev)
    ensures forall b :: b <= b1 ==> LeftFits(n, first, mu, b, tPrev)
  {
    forall b | b <= b1
      ensures LeftFits(n, first, mu, b, tPrev)
    {
      LeftFitsMonotone(n, first, mu, b1, mu, b, tPrev);
    }
  }

  /** Every spread narrower than a fitting right spread fits. */
  lemma RightFitsNarrower(n: nat, last: bool, mu: int, b2: int, tNext: real)
    requires n >= 1 && RightFits(n, last, mu, b2, tNext)
    ensures forall b :: b <= b2 ==> RightFits(n, last, mu, b, tNext)
  {
    forall b | b <= b2
      ensures RightFits(n, last, mu, b, tNext)
    {
      RightFitsMonotone(n, last, mu, b2, mu, b, tNext);
    }
  }

  /** The downward scan `for mu_i in range(mu, 0, -1)` of find_range_mu. */
  method ScanMeanDown(n: nat, first: bool, mu: int, b1: int, tPrev: real) returns (mb: int)
    requires n >= 1
    ensures mb <= mu
    ensures mu >= 1 && LeftFits(n, first, mu, b1, tPrev) ==>
      && 1 <= mb
      && (forall m :: mb <= m <= mu ==> LeftFits(n, first, m, b1, tPrev))
      && (mb == 1 || !LeftFits(n, first, mb - 1, b1, tPrev))
    ensures !(mu >= 1 && LeftFits(n, first, mu, b1, tPrev)) ==> mb == mu
  {
    mb := mu;
    var m := mu;
    while m > 0
      invariant m <= mu && (m == mu || 0 <= m)
      invariant mb == if m == mu then mu else m + 1
      invariant forall k :: m < k <= mu ==> LeftFits(n, first, k, b1, tPrev)
      decreases m
    {
      var t1 := Nearest(n, (m - 3 * b1) as real);
      if first && t1 as real == tPrev {
        break;
      }
      if (t1 as real) < tPrev {
        break;
      }
      mb := m;
      m := m - 1;
    }
  }

  /** The upward scan `for mu_i in range(mu, stop)` of find_range_mu. */
  method ScanMeanUp(n: nat, last: bool, mu: int, b2: int, tNext: real, stop: int) returns (me: int)
    requires n >= 1
    ensures mu <= me
    ensures mu < stop && RightFits(n, last, mu, b2, tNext) ==>
      && me < stop
      && (forall m :: mu <= m <= me ==> RightFits(n, last, m, b2, tNext))
      && (me == stop - 1 || !RightFits(n, last, me + 1, b2, tNext))
    ensures !(mu < stop && RightFits(n, last, mu, b2, tNext)) ==> me == mu
  {
    me := mu;
    var m := mu;
    while m < stop
      invariant mu <= m && (m == mu || m <= stop)
      invariant me == if m == mu then mu else m - 1
      invariant forall k :: mu <= k < m ==> RightFits(n, last, k, b2, tNext)
      decreases stop - m
    {
      var t2 := Nearest(n, (m + 3 * b2) as real);
      if last && t2 as real == tNext {
        break;
      } else if t2 as real > tNext {
        break;
      }
      me := m;
      m := m + 1;
    }
  }

  /** The scan `for b1_i in range(b1, stop)` of find_range_b1. */
  method ScanLeftSpread(n: nat, first: bool, mu: int, b1: int, tPrev: real, stop: int) returns (b1e: int)
    requires n >= 1
    ensures b1 <= b1e
    ensures b1 < stop && LeftFits(n, first, mu, b1, tPrev) ==>
      && b1e < stop
      && (forall b :: b <= b1e ==> LeftFits(n, first, mu, b, tPrev))
      && (b1e == stop - 1 || !LeftFits(n, first, mu, b1e + 1, tPrev))
    ensures !(b1 < stop && LeftFits(n, first, mu, b1, tPrev)) ==> b1e == b1
  {
    b1e := b1;
    var b := b1;
    while b < stop
      invariant b1 <= b && (b == b1 || b <= stop)
      invariant b1e == if b == b1 then b1 else b - 1
      invariant forall k :: b1 <= k < b ==> LeftFits(n, first, mu, k, tPrev)
      decreases stop - b
    {
      var t := Nearest(n, (mu - 3 * b) as real);
      if (t as real) < tPrev {
        break;
      }
      if first && t as real == tPrev {
        break;
      }
      b1e := b;
      b := b + 1;
    }
    if b1 < stop && LeftFits(n, first, mu, b1, tPrev) {
      LeftFitsNarrower(n, first, mu, b1, tPrev);
    }
  }

  /** The scan `for b2_i in range(b2, stop)` of find_range_b2. */
  method ScanRightSpread(n: nat, last: bool, mu: int, b2: int, tNext: real, stop: int) returns (b2e: int)
    requires n >= 1
    ensures b2 <= b2e
    ensures b2 < stop && RightFits(n, last, mu, b2, tNext) ==>
      && b2e < stop
      && (forall b :: b <= b2e ==> RightFits(n, last, mu, b, tNext))
      && (b2e == stop - 1 || !RightFits(n, last, mu, b2e + 1, tNext))
    ensures !(b2 < stop && RightFits(n, last, mu, b2, tNext)) ==> b2e == b2
  {
    b2e := b2;
    var b := b2;
    while b < stop
      invariant b2 <= b && (b == b2 || b <= stop)
      invariant b2e == if b == b2 then b2 else b - 1
      invariant forall k :: b2 <= k < b ==> RightFits(n, last, mu, k, tNext)
      decreases stop - b
    {
      var t := Nearest(n, (mu + 3 * b) as real);
      if t as real > tNext {
        break;
      }
      if last && t as real == tNext {
        break;
      }
      b2e := b;
      b := b + 1;
    }
    if b2 < stop && RightFits(n, last, mu, b2, tNext) {
      RightFitsNarrower(n, last, mu, b2, tNext);
    }
  }

  /** Every mean in [mb, me] keeps both edges inside the limits, provided the
      current mean does and the two scans returned mb and me. */
  lemma MeanRangeSound(n: nat, first: bool, last: bool, mu: int, b1: int, b2: int,
                       tPrev: real, tNext: real, mb: int, me: int)
    requires n >= 1 && mb <= mu <= me
    requires LeftFits(n, first, mu, b1, tPrev) && RightFits(n, last, mu, b2, tNext)
    requires forall m :: mb <= m <= mu ==> LeftFits(n, first, m, b1, tPrev)
    requires forall m :: mu <= m <= me ==> RightFits(n, last, m, b2, tNext)
    ensures forall m :: mb <= m <= me ==> LeftFits(n, first, m, b1, tPrev) && RightFits(n, last, m, b2, tNext)
  {
    forall m | mb <= m <= me
      ensures LeftFits(n, first, m, b1, tPrev) && RightFits(n, last, m, b2, tNext)
    {
      if m <= mu {
        RightFitsMonotone(n, last, mu, b2, m, b2, tNext);
      } else {
        LeftFitsMonotone(n, first, mu, b1, m, b1, tPrev);
      }
    }
  }

  /** What find_range_mu promises of its range [mb, me] for a pulse with
      mean mu and spreads b1, b2. It contains mu. Downwards: when mu keeps
      the left edge inside its limit (and mu >= 1), every mean from mb to mu
      does and mb cannot go one lower without crossing the limit or reaching
      0; otherwise mb stays at mu. Upwards, likewise for the right edge, up
      to the last whole millisecond of the axis. When mu fits on both sides,
      every mean of the range keeps both edges inside the limits. */
  predicate MeanRange(n: nat, first: bool, last: bool, mu: int, b1: int, b2: int,
                      tPrev: real, tNext: real, mb: int, me: int)
    requires n >= 1
  {
    && mb <= mu <= me
    && (1 <= mu && LeftFits(n, first, mu, b1, tPrev) ==>
          && 1 <= mb
          && (forall m :: mb <= m <= mu ==> LeftFits(n, first, m, b1, tPrev))
          && (mb == 1 || !LeftFits(n, first, mb - 1, b1, tPrev)))
    && (!(1 <= mu && LeftFits(n, first, mu, b1, tPrev)) ==> mb == mu)
    && (mu < LastTimeMs(n) && RightFits(n, last, mu, b2, tNext) ==>
          && me < LastTimeMs(n)
          && (forall m :: mu <= m <= me ==> RightFits(n, last, m, b2, tNext))
          && (me == LastTimeMs(n) - 1 || !RightFits(n, last, me + 1, b2, tNext)))
    && (!(mu < LastTimeMs(n) && RightFits(n, last, mu, b2, tNext)) ==> me == mu)
    && (LeftFits(n, first, mu, b1, tPrev) && RightFits(n, last, mu, b2, tNext) ==>
          forall m :: mb <= m <= me ==> LeftFits(n, first, m, b1, tPrev) && RightFits(n, last, m, b2, tNext))
  }

  /** The two scans of find_range_mu, down from mu and up from mu. */
  method ScanMean(n: nat, first: bool, last: bool, mu: int, b1: int, b2: int, tPrev: real, tNext: real)
    returns (mb: int, me: int)
    requires n >= 1
    ensures MeanRange(n, first, last, mu, b1, b2, tPrev, tNext, mb, me)
  {
    mb := ScanMeanDown(n, first, mu, b1, tPrev);
    me := ScanMeanUp(n, last, mu, b2, tNext, LastTimeMs(n));
    if LeftFits(n, first, mu, b1, tPrev) && RightFits(n, last, mu, b2, tNext) {
      MeanRangeSound(n, first, last, mu, b1, b2, tPrev, tNext, mb, me);
    }
  }

  // ---------------------------------------------------------------------
  // Heart-rate rescaling

  /** Slots 1 to 7 (mean, spreads, indices) scaled by fh/fhNew. */
  function Rescale(w: Wave, fh: real, fhNew: real): (r: Wave)
    requires |w.params| >= 8 && fhNew != 0.0
    ensures r.name == w.name && |r.params| == |w.params|
    ensures r.params[0] == w.params[0] && r.params[8..] == w.params[8..]
    ensures forall k :: 1 <= k <= 7 ==> r.params[k] == w.params[k] * fh / fhNew
  {
    var p := w.params;
    w.(params := seq(|p|, k requires 0 <= k < |p| => if 1 <= k <= 7 then p[k] * fh / fhNew else p[k]))
  }

  function RescaleAll(ws: seq<Wave>, fh: real, fhNew: real): (r: seq<Wave>)
    requires forall i :: 0 <= i < |ws| ==> |ws[i].params| >= 8
    requires fhNew != 0.0
    ensures |r| == |ws|
    ensures forall i :: 0 <= i < |ws| ==> r[i] == Rescale(ws[i], fh, fhNew)
  {
    seq(|ws|, i requires 0 <= i < |ws| => Rescale(ws[i], fh, fhNew))
  }

  /** The dictionary after fh_normalization has rescaled its first k
      pulses in place. */
  function Normalized(ws: seq<Wave>, k: nat, fh: real, fhNew: real): (r: seq<Wave>)
    requires k <= LongPrefix(ws) && fhNew != 0.0
    ensures |r| == |ws|
  {
    RescaleAll(ws[..k], fh, fhNew) + ws[k..]
  }

  lemma NormalizedAt(ws: seq<Wave>, k: nat, fh: real, fhNew: real, j: nat)
    requires k <= LongPrefix(ws) && fhNew != 0.0 && j < |ws|
    ensures Normalized(ws, k, fh, fhNew)[j] == if j < k then Rescale(ws[j], fh, fhNew) else ws[j]
  {
  }

  /** One step of fh_normalization's loop over the dictionary: the k-th
      pulse, still untouched, is replaced by its rescaled copy. */
  lemma NormalizeStep(ws: seq<Wave>, k: nat, fh: real, fhNew: real)
    requires k < LongPrefix(ws) && fhNew != 0.0
    ensures Normalized(ws, k, fh, fhNew)[k] == ws[k]
    ensures Normalized(ws, k, fh, fhNew)[k := Rescale(ws[k], fh, fhNew)] == Normalized(ws, k + 1, fh, fhNew)
  {
    var before := Normalized(ws, k, fh, fhNew);
    var after := Normalized(ws, k + 1, fh, fhNew);
    NormalizedAt(ws, k, fh, fhNew, k);
    forall j | 0 <= j < |ws|
      ensures before[k := Rescale(ws[k], fh, fhNew)][j] == after[j]
    {
      NormalizedAt(ws, k, fh, fhNew, j);
      NormalizedAt(ws, k + 1, fh, fhNew, j);
    }
  }

  /** Rescaling the leading pulses keeps every name in its place. */
  lemma NormalizedNames(ws: seq<Wave>, k: nat, fh: real, fhNew: real)
    requires k <= LongPrefix(ws) && fhNew != 0.0 && DistinctNames(ws)
    ensures DistinctNames(Normalized(ws, k, fh, fhNew))
  {
    var r := Normalized(ws, k, fh, fhNew);
    forall j | 0 <= j < |ws|
      ensures r[j].name == ws[j].name
    {
      NormalizedAt(ws, k, fh, fhNew, j);
    }
  }

  /** Rescaling the leading pulses by a non-zero factor keeps spreads
      non-zero. */
  lemma NormalizedSpreads(ws: seq<Wave>, k: nat, fh: real, fhNew: real)
    requires k <= LongPrefix(ws) && fh != 0.0 && fhNew != 0.0 && SpreadsNonZero(ws)
    ensures SpreadsNonZero(Normalized(ws, k, fh, fhNew))
  {
    var r := Normalized(ws, k, fh, fhNew);
    forall j | 0 <= j < |ws| && |r[j].params| >= 4
      ensures r[j].params[2] != 0.0 && r[j].params[3] != 0.0
    {
      NormalizedAt(ws, k, fh, fhNew, j);
      if j < k {
        RescaledSpreads(ws[j], fh, fhNew);
      }
    }
  }

  lemma RescaledSpreads(w: Wave, fh: real, fhNew: real)
    requires |w.params| >= 8 && w.params[2] != 0.0 && w.params[3] != 0.0 && fh != 0.0 && fhNew != 0.0
    ensures Rescale(w, fh, fhNew).params[2] != 0.0 && Rescale(w, fh, fhNew).params[3] != 0.0
  {
    NonZeroScaled(w.params[2], fh, fhNew);
    NonZeroScaled(w.params[3], fh, fhNew);
  }

  lemma NonZeroScaled(x: real, f: real, g: real)
    requires x != 0.0 && f != 0.0 && g != 0.0
    ensures x * f / g != 0.0
  {
    assert x * f != 0.0;
  }

  lemma ScaleBack(x: real, f: real, g: real)
    requires f != 0.0 && g != 0.0
    ensures x * f / g * g / f == x
  {
    calc {
      x * f / g * g / f;
      == (x * f / g * g) / f;
      == { assert x * f / g * g == x * f; } (x * f) / f;
    }
  }

  /** Rescaling to the same heart rate changes no pulse. */
  lemma RescaleIdentity(ws: seq<Wave>, fh: real)
    requires forall i :: 0 <= i < |ws| ==> |ws[i].params| >= 8
    requires fh != 0.0
    ensures RescaleAll(ws, fh, fh) == ws
  {
    var r := RescaleAll(ws, fh, fh);
    forall i | 0 <= i < |ws|
      ensures r[i] == ws[i]
    {
      forall k | 1 <= k <= 7
        ensures r[i].params[k] == ws[i].params[k]
      {
        assert ws[i].params[k] * fh / fh == ws[i].params[k];
      }
      assert r[i].params == ws[i].params;
    }
  }

  /** Rescaling from fh to fhNew and back restores every pulse. */
  lemma RescaleRoundTrip(ws: seq<Wave>, fh: real, fhNew: real)
    requires forall i :: 0 <= i < |ws| ==> |ws[i].params| >= 8
    requires fh != 0.0 && fhNew != 0.0
    ensures RescaleAll(RescaleAll(ws, fh, fhNew), fhNew, fh) == ws
  {
    var there := RescaleAll(ws, fh, fhNew);
    var back := RescaleAll(there, fhNew, fh);
    forall i | 0 <= i < |ws|
      ensures back[i] == ws[i]
    {
      forall k | 1 <= k <= 7
        ensures back[i].params[k] == ws[i].params[k]
      {
        ScaleBack(ws[i].params[k], fh, fhNew);
      }
      assert back[i].params == ws[i].params;
    }
  }

  /** The loop of fh_normalization over the dictionary `table`, for a
      non-zero new rate. */
  method NormalizeInto(table: WaveTable, fh: real, fhNew: real) returns (r: Result<()>)
    requires fhNew != 0.0
    modifies table
    ensures var ws, k := old(table.entries), LongPrefix(old(table.entries));
      && (r.Ok? <==> k == |ws|)
      && (r.Err? ==> r.error == IndexError)
      && table.entries == Normalized(ws, k, fh, fhNew)
  {
    ghost var ws0 := table.entries;
    ghost var k := LongPrefix(ws0);
    assert ws0[..0] == [] && ws0[0..] == ws0;
    var i := 0;
    while i < |table.entries|
      invariant 0 <= i <= k && table.entries == Normalized(ws0, i, fh, fhNew)
    {
      var w := table.entries[i];
      if |w.params| < 8 {
        return Err(IndexError);
      }
      NormalizeStep(ws0, i, fh, fhNew);
      table.entries := table.entries[i := Rescale(w, fh, fhNew)];
      i := i + 1;
    }
    r := Ok(());
  }

  // ---------------------------------------------------------------------
  // The model object

  class CycleModel {
    /** Heart rate in beats per minute. */
    const Fh: real
    /** Number of samples of the cycle's time axis. */
    const n: nat
    const waves: WaveTable
    var amplitude: array<real>

    ghost predicate Valid()
      reads this, waves
    {
      Fh > 0.0 && n == GridLength(Fh) && waves.Valid()
    }

    /** `CycleModel(Fh, waves)`: the amplitude array exists only once
        construct_cycle has run, so it starts empty here. */
    constructor (fh: real, table: WaveTable)
      requires fh > 0.0 && table.Valid()
      ensures Valid()
      ensures Fh == fh && n == GridLength(fh) && waves == table
      ensures fresh(amplitude) && amplitude.Length == 0
    {
      Fh := fh;
      n := GridLength(fh);
      waves := table;
      amplitude := new real[0];
    }

    /** `self.time`: sample i at i·Ts, spanning the whole cycle. */
    function TimeAxis(): seq<real>
      requires Fh > 0.0
    {
      Arange(60000.0 / Fh + Ts)
    }

    lemma TimeAxisSpansCycle()
      requires Valid()
      ensures TimeAxis() == Time(n)
      ensures TimeAxis()[n - 1] >= 60000.0 / Fh
    {
      ArangeSpans(60000.0 / Fh + Ts);
    }

    /** construct_cycle: a fresh zero array, then every pulse in dictionary
        order stores its derived indices and overwrites its two ranges. The
        first pulse with fewer than eight slots raises IndexError once the
        slots it has are written; the pulses after it are untouched. */
    method ConstructCycle(exp: real -> real) returns (r: Result<()>)
      requires Valid() && SpreadsNonZero(waves.entries)
      modifies this, waves
      ensures Valid() && fresh(amplitude)
      ensures var ws, k := old(waves.entries), LongPrefix(old(waves.entries));
        && (r.Ok? <==> k == |ws|)
        && (r.Ok? ==> waves.entries == LocateAll(n, ws) && amplitude[..] == SynthesisUpTo(n, ws, |ws|, exp))
        && (r.Err? ==>
              && r.error == IndexError
              && waves.entries == Located(n, ws, k + 1)
              && amplitude[..] == SynthesisUpTo(n, ws, k, exp))
    {
      ghost var ws0 := waves.entries;
      amplitude := new real[n](_ => 0.0);
      r := SynthesiseInto(waves, amplitude, n, exp);
      LocatedNames(n, ws0, if r.Ok? then |ws0| else LongPrefix(ws0) + 1);
      if r.Ok? {
        assert ws0[..|ws0|] == ws0;
      }
    }

    /** find_range_mu: the slider range for the mean of pulse w. */
    method FindRangeMu(w: string) returns (r: Result<(int, int)>)
      requires Valid()
      ensures IndexOf(waves.entries, w).None? ==> r == Err(KeyError)
      ensures IndexOf(waves.entries, w).Some? && |waves.entries[IndexOf(waves.entries, w).value].params| < 4 ==>
        r == Err(IndexError)
      ensures (IndexOf(waves.entries, w).Some? && |waves.entries[IndexOf(waves.entries, w).value].params| >= 4
               && TLims(waves.entries, n, w).Err?) ==> r == Err(TLims(waves.entries, n, w).error)
      ensures r.Ok? <==> (IndexOf(waves.entries, w).Some?
        && |waves.entries[IndexOf(waves.entries, w).value].params| >= 4 && TLims(waves.entries, n, w).Ok?)
      ensures r.Ok? ==>
        var p := waves.entries[IndexOf(waves.entries, w).value].params;
        |p| >= 4 &&
        var (tPrev, tNext) := TLims(waves.entries, n, w).value;
        MeanRange(n, IsFirst(w), IsLast(w), Ceil(p[1]), Ceil(p[2]), Ceil(p[3]), tPrev, tNext, r.value.0, r.value.1)
    {
      var idx := IndexOf(waves.entries, w);
      if idx.None? {
        return Err(KeyError);
      }
      var p := waves.entries[idx.value].params;
      if |p| < 4 {
        return Err(IndexError);
      }
      var mu, b1, b2 := Ceil(p[1]), Ceil(p[2]), Ceil(p[3]);
      var lims := TLims(waves.entries, n, w);
      if lims.Err? {
        return Err(lims.error);
      }
      var mb, me := ScanMean(n, IsFirst(w), IsLast(w), mu, b1, b2, lims.value.0, lims.value.1);
      r := Ok((mb, me));
    }

    /** find_range_b1: the slider range for the left spread of pulse w. */
    method FindRangeB1(w: string) returns (r: Result<(int, int)>)
      requires Valid()
      ensures IndexOf(waves.entries, w).None? ==> r == Err(KeyError)
      ensures IndexOf(waves.entries, w).Some? && |waves.entries[IndexOf(waves.entries, w).value].params| < 3 ==>
        r == Err(IndexError)
      ensures (IndexOf(waves.entries, w).Some? && |waves.entries[IndexOf(waves.entries, w).value].params| >= 3
               && TLims(waves.entries, n, w).Err?) ==> r == Err(TLims(waves.entries, n, w).error)
      ensures r.Ok? <==> (IndexOf(waves.entries, w).Some?
        && |waves.entries[IndexOf(waves.entries, w).value].params| >= 3 && TLims(waves.entries, n, w).Ok?)
      ensures r.Ok? ==>
        var p := waves.entries[IndexOf(waves.entries, w).value].params;
        |p| >= 3 &&
        var mu, b1 := Ceil(p[1]), Ceil(p[2]);
        var tPrev := TLims(waves.entries, n, w).value.0;
        var (lo, hi) := r.value;
        && lo == 1 && b1 <= hi
        && (b1 < LastTimeMs(n) && LeftFits(n, IsFirst(w), mu, b1, tPrev) ==>
              && hi < LastTimeMs(n)
              && (forall b :: lo <= b <= hi ==> LeftFits(n, IsFirst(w), mu, b, tPrev))
              && (hi == LastTimeMs(n) - 1 || !LeftFits(n, IsFirst(w), mu, hi + 1, tPrev)))
        && (!(b1 < LastTimeMs(n) && LeftFits(n, IsFirst(w), mu, b1, tPrev)) ==> hi == b1)
    {
      var idx := IndexOf(waves.entries, w);
      if idx.None? {
        return Err(KeyError);
      }
      var p := waves.entries[idx.value].params;
      if |p| < 3 {
        return Err(IndexError);
      }
      var mu, b1 := Ceil(p[1]), Ceil(p[2]);
      var lims := TLims(waves.entries, n, w);
      if lims.Err? {
        return Err(lims.error);
      }
      var b1e := ScanLeftSpread(n, IsFirst(w), mu, b1, lims.value.0, LastTimeMs(n));
      r := Ok((1, b1e));
    }

    /** find_range_b2: the slider range for the right spread of pulse w. */
    method FindRangeB2(w: string) returns (r: Result<(int, int)>)
      requires Valid()
      ensures IndexOf(waves.entries, w).None? ==> r == Err(KeyError)
      ensures IndexOf(waves.entries, w).Some? && |waves.entries[IndexOf(waves.entries, w).value].params| < 4 ==>
        r == Err(IndexError)
      ensures (IndexOf(waves.entries, w).Some? && |waves.entries[IndexOf(waves.entries, w).value].params| >= 4
               && TLims(waves.entries, n, w).Err?) ==> r == Err(TLims(waves.entries, n, w).error)
      ensures r.Ok? <==> (IndexOf(waves.entries, w).Some?
        && |waves.entries[IndexOf(waves.entries, w).value].params| >= 4 && TLims(waves.entries, n, w).Ok?)
      ensures r.Ok? ==>
        var p := waves.entries[IndexOf(waves.entries, w).value].params;
        |p| >= 4 &&
        var mu, b2 := Ceil(p[1]), Ceil(p[3]);
        var tNext := TLims(waves.entries, n, w).value.1;
        var (lo, hi) := r.value;
        && lo == 1 && b2 <= hi
        && (b2 < LastTimeMs(n) && RightFits(n, IsLast(w), mu, b2, tNext) ==>
              && hi < LastTimeMs(n)
              && (forall b :: lo <= b <= hi ==> RightFits(n, IsLast(w), mu, b, tNext))
              && (hi == LastTimeMs(n) - 1 || !RightFits(n, IsLast(w), mu, hi + 1, tNext)))
        && (!(b2 < LastTimeMs(n) && RightFits(n, IsLast(w), mu, b2, tNext)) ==> hi == b2)
    {
      var idx := IndexOf(waves.entries, w);
      if idx.None? {
        return Err(KeyError);
      }
      var p := waves.entries[idx.value].params;
      if |p| < 4 {
        return Err(IndexError);
      }
      var mu, b2 := Ceil(p[1]), Ceil(p[3]);
      var lims := TLims(waves.entries, n, w);
      if lims.Err? {
        return Err(lims.error);
      }
      var b2e := ScanRightSpread(n, IsLast(w), mu, b2, lims.value.1, LastTimeMs(n));
      r := Ok((1, b2e));
    }

    /** fh_normalization: every pulse's timing slots scaled by Fh/fhNew in
        place; the model's own heart rate and amplitude stay as they were.
        Reading the eight slots of a shorter pulse raises IndexError, after
        the pulses before it have been rescaled; a zero rate raises
        ZeroDivisionError at the first pulse. */
    method FhNormalization(fhNew: real) returns (r: Result<()>)
      requires Valid()
      modifies waves
      ensures Valid()
      ensures var ws, k := old(waves.entries), LongPrefix(old(waves.entries));
        if fhNew == 0.0 then
          && waves.entries == ws
          && r == (if |ws| == 0 then Ok(()) else if k == 0 then Err(IndexError) else Err(ZeroDivisionError))
        else
          && (r.Ok? <==> k == |ws|)
          && (r.Err? ==> r.error == IndexError)
          && waves.entries == Normalized(ws, k, Fh, fhNew)
      ensures SpreadsNonZero(old(waves.entries)) ==> SpreadsNonZero(waves.entries)
    {
      ghost var ws0 := waves.entries;
      if fhNew == 0.0 {
        if |waves.entries| == 0 {
          return Ok(());
        }
        if |waves.entries[0].params| < 8 {
          return Err(IndexError);
        }
        return Err(ZeroDivisionError);
      }
      r := NormalizeInto(waves, Fh, fhNew);
      NormalizedNames(ws0, LongPrefix(ws0), Fh, fhNew);
      if SpreadsNonZero(ws0) {
        NormalizedSpreads(ws0, LongPrefix(ws0), Fh, fhNew);
      }
    }
  }
}
