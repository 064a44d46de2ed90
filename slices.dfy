/** numpy slice assignment `a[lo:hi] = values`, the one way the modelled code
    writes into a sample array, and folds of several such writes. */
module Slices {

  /** Python's normalisation of a slice bound against a length n: a negative
      bound counts from the end, and the result is clamped into [0, n]. */
  function Bound(i: int, n: nat): (r: nat)
    ensures r <= n
    ensures 0 <= i <= n ==> r == i
  {
    if i < 0 then (if i + n < 0 then 0 else i + n)
    else if i > n then n
    else i
  }

  /** s[lo:hi] for a Python sequence. */
  function Slice<T>(s: seq<T>, lo: int, hi: int): (r: seq<T>)
    ensures 0 <= lo <= hi <= |s| ==> r == s[lo..hi]
  {
    var l := Bound(lo, |s|);
    var h := Bound(hi, |s|);
    if h <= l then [] else s[l..h]
  }

  /** One slice assignment: indices in [lo:hi] (Python-normalised) receive
      value(i); the array's length never changes. */
  datatype Write = Write(lo: int, hi: int, value: int -> real)

  predicate Hits(w: Write, t: int, n: nat)
  {
    Bound(w.lo, n) <= t < Bound(w.hi, n)
  }

  function Apply(s: seq<real>, w: Write): (r: seq<real>)
    ensures |r| == |s|
    ensures forall t :: 0 <= t < |s| ==> r[t] == if Hits(w, t, |s|) then w.value(t) else s[t]
  {
    seq(|s|, t requires 0 <= t < |s| => if Hits(w, t, |s|) then w.value(t) else s[t])
  }

  /** The writes applied one after another, in order. */
  function ApplyAll(s: seq<real>, ws: seq<Write>): (r: seq<real>)
    ensures |r| == |s|
  {
    if ws == [] then s else Apply(ApplyAll(s, ws[..|ws| - 1]), ws[|ws| - 1])
  }

  lemma ApplyAllSnoc(s: seq<real>, ws: seq<Write>, w: Write)
    ensures ApplyAll(s, ws + [w]) == Apply(ApplyAll(s, ws), w)
  {
    assert (ws + [w])[..|ws|] == ws;
  }

  /** A sample no write hits keeps its old value. */
  lemma {:induction false} ApplyAllUntouched(s: seq<real>, ws: seq<Write>, t: nat)
    requires t < |s|
    requires forall k :: 0 <= k < |ws| ==> !Hits(ws[k], t, |s|)
    ensures ApplyAll(s, ws)[t] == s[t]
  {
    if ws != [] {
      var init := ws[..|ws| - 1];
      assert forall k :: 0 <= k < |init| ==> init[k] == ws[k];
      ApplyAllUntouched(s, init, t);
    }
  }

  /** Writes overwrite: a sample takes the value of the LAST write that hits it. */
  lemma {:induction false} ApplyAllLastWins(s: seq<real>, ws: seq<Write>, t: nat, k: nat)
    requires t < |s| && k < |ws|
    requires Hits(ws[k], t, |s|)
    requires forall j :: k < j < |ws| ==> !Hits(ws[j], t, |s|)
    ensures ApplyAll(s, ws)[t] == ws[k].value(t)
  {
    var init := ws[..|ws| - 1];
    if k < |ws| - 1 {
      assert forall j :: k < j < |init| ==> init[j] == ws[j];
      ApplyAllLastWins(s, init, t, k);
    }
  }

  /** Applying the same writes twice is the same as applying them once: the
      written values depend only on the writes, never on the old contents. */
  lemma ApplyAllIdempotent(s: seq<real>, ws: seq<Write>)
    ensures ApplyAll(ApplyAll(s, ws), ws) == ApplyAll(s, ws)
  {
    var once := ApplyAll(s, ws);
    var twice := ApplyAll(once, ws);
    forall t | 0 <= t < |s|
      ensures twice[t] == once[t]
    {
      if k :| 0 <= k < |ws| && Hits(ws[k], t, |s|) {
        var last := LastHit(ws, t, |s|, k);
        ApplyAllLastWins(s, ws, t, last);
        ApplyAllLastWins(once, ws, t, last);
      } else {
        ApplyAllUntouched(s, ws, t);
        ApplyAllUntouched(once, ws, t);
      }
    }
  }

  /** The index of the last write that hits t, given that write k does. */
  lemma {:induction false} LastHit(ws: seq<Write>, t: int, n: nat, k: nat) returns (last: nat)
    requires k < |ws| && Hits(ws[k], t, n)
    ensures k <= last < |ws| && Hits(ws[last], t, n)
    ensures forall j :: last < j < |ws| ==> !Hits(ws[j], t, n)
    decreases |ws| - k
  {
    if j :| k < j < |ws| && Hits(ws[j], t, n) {
      last := LastHit(ws, t, n, j);
    } else {
      last := k;
    }
  }

  /** `a[lo:hi] = values` on a numpy array, done in place. */
  method AssignInPlace(a: array<real>, w: Write)
    modifies a
    ensures a[..] == Apply(old(a[..]), w)
  {
    var l := Bound(w.lo, a.Length);
    var h := Bound(w.hi, a.Length);
    forall t | l <= t < h {
      a[t] := w.value(t);
    }
  }
}
