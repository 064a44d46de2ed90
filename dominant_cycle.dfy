/** The dominant-cycle analysis of an opened ECG: every cycle's phase
    portrait (signal against derivative) is scaled into the unit square, the
    symmetric Hausdorff distance between every pair of portraits fills a
    table, and the cycle whose column of distances has the smallest total is
    the dominant one. The square root is a parameter. */
module Dominant {
  import opened Common

  /** What the model needs of the square root: non-negative and squaring
      back on the non-negative reals, and 0 at 0. */
  ghost predicate IsSqrt(sqrt: real -> real)
  {
    sqrt(0.0) == 0.0 &&
    forall v :: v >= 0.0 ==> sqrt(v) >= 0.0 && sqrt(v) * sqrt(v) == v
  }

  /** A point of a phase portrait: (z, dz). */
  type Point = (real, real)

  /** euclidean_distance */
  function Dist(sqrt: real -> real, a: Point, b: Point): real
  {
    sqrt((a.0 - b.0) * (a.0 - b.0) + (a.1 - b.1) * (a.1 - b.1))
  }

  lemma DistSymmetric(sqrt: real -> real, a: Point, b: Point)
    ensures Dist(sqrt, a, b) == Dist(sqrt, b, a)
  {
    assert (a.0 - b.0) * (a.0 - b.0) == (b.0 - a.0) * (b.0 - a.0);
    assert (a.1 - b.1) * (a.1 - b.1) == (b.1 - a.1) * (b.1 - a.1);
  }

  /** A distance is never negative, and it is zero from a point to itself. */
  lemma DistMetric(sqrt: real -> real, a: Point, b: Point)
    requires IsSqrt(sqrt)
    ensures Dist(sqrt, a, b) >= 0.0
    ensures Dist(sqrt, a, a) == 0.0
  {
    var dx, dy := a.0 - b.0, a.1 - b.1;
    assert dx * dx >= 0.0 && dy * dy >= 0.0;
    assert (a.0 - a.0) * (a.0 - a.0) + (a.1 - a.1) * (a.1 - a.1) == 0.0;
    assert Dist(sqrt, a, a) == sqrt(0.0);
  }

  /** The portrait of one cycle: its normalised samples paired with its
      normalised derivative. */
  function Points(zn: seq<real>, dzn: seq<real>): (p: seq<Point>)
    requires |zn| == |dzn|
    ensures |p| == |zn|
  {
    seq(|zn|, i requires 0 <= i < |zn| => (zn[i], dzn[i]))
  }

  // ---------------------------------------------------------------------
  // Hausdorff distance

  /** One row of the distance matrix: from a to every point of B. */
  function Row(sqrt: real -> real, a: Point, B: seq<Point>): (r: seq<real>)
    ensures |r| == |B|
  {
    seq(|B|, q requires 0 <= q < |B| => Dist(sqrt, a, B[q]))
  }

  /** One column of the distance matrix: from every point of A to b. */
  function Column(sqrt: real -> real, A: seq<Point>, b: Point): (c: seq<real>)
    ensures |c| == |A|
  {
    seq(|A|, p requires 0 <= p < |A| => Dist(sqrt, A[p], b))
  }

  /** Every point of A's distance to the nearest point of B
      (`min(axis=1)`). */
  function RowMinima(sqrt: real -> real, A: seq<Point>, B: seq<Point>): (m: seq<real>)
    requires |B| > 0
    ensures |m| == |A|
  {
    seq(|A|, p requires 0 <= p < |A| => SeqMin(Row(sqrt, A[p], B)))
  }

  /** Every point of B's distance to the nearest point of A
      (`min(axis=0)`). */
  function ColumnMinima(sqrt: real -> real, A: seq<Point>, B: seq<Point>): (m: seq<real>)
    requires |A| > 0
    ensures |m| == |B|
  {
    seq(|B|, q requires 0 <= q < |B| => SeqMin(Column(sqrt, A, B[q])))
  }

  /** The directed Hausdorff distance from A to B: the largest distance from
      a point of A to its nearest point of B (`min(axis=1).max()`). */
  function Directed(sqrt: real -> real, A: seq<Point>, B: seq<Point>): real
    requires |A| > 0 && |B| > 0
  {
    SeqMax(RowMinima(sqrt, A, B))
  }

  /** The inverted reduction over the same matrix (`min(axis=0).max()`). */
  function Inverted(sqrt: real -> real, A: seq<Point>, B: seq<Point>): real
    requires |A| > 0 && |B| > 0
  {
    SeqMax(ColumnMinima(sqrt, A, B))
  }

  /** Reducing down the columns is the directed distance the other way. */
  lemma InvertedIsReverse(sqrt: real -> real, A: seq<Point>, B: seq<Point>)
    requires |A| > 0 && |B| > 0
    ensures Inverted(sqrt, A, B) == Directed(sqrt, B, A)
  {
    var cm, rm := ColumnMinima(sqrt, A, B), RowMinima(sqrt, B, A);
    forall q | 0 <= q < |B|
      ensures cm[q] == rm[q]
    {
      var col, row := Column(sqrt, A, B[q]), Row(sqrt, B[q], A);
      forall p | 0 <= p < |A|
        ensures col[p] == row[p]
      {
        DistSymmetric(sqrt, A[p], B[q]);
      }
      assert col == row;
    }
    assert cm == rm;
  }

  /** hausdorff_distance: ValueError when either portrait is empty (numpy's
      min of an empty axis), otherwise the directed distance A→B, or B→A
      when inverted. */
  function HausdorffDistance(sqrt: real -> real, A: seq<Point>, B: seq<Point>, inverted: bool): (r: Result<real>)
    ensures (|A| == 0 || |B| == 0) <==> r == Err(ValueError)
    ensures r.Ok? ==> r.value == if inverted then Directed(sqrt, B, A) else Directed(sqrt, A, B)
  {
    if |A| == 0 || |B| == 0 then Err(ValueError)
    else if inverted then
      InvertedIsReverse(sqrt, A, B);
      Ok(Inverted(sqrt, A, B))
    else Ok(Directed(sqrt, A, B))
  }

  /** The directed distance is the covering radius: every point of A lies
      within it of some point of B, and some point of A is at least that far
      from every point of B. */
  lemma DirectedCovers(sqrt: real -> real, A: seq<Point>, B: seq<Point>)
    requires |A| > 0 && |B| > 0
    ensures forall p :: 0 <= p < |A| ==> exists q :: 0 <= q < |B| && Dist(sqrt, A[p], B[q]) <= Directed(sqrt, A, B)
    ensures exists p :: 0 <= p < |A| && forall q :: 0 <= q < |B| ==> Dist(sqrt, A[p], B[q]) >= Directed(sqrt, A, B)
  {
    var d := Directed(sqrt, A, B);
    var near := RowMinima(sqrt, A, B);
    SeqMaxIsMax(near);
    forall p | 0 <= p < |A|
      ensures exists q :: 0 <= q < |B| && Dist(sqrt, A[p], B[q]) <= d
    {
      var row := Row(sqrt, A[p], B);
      SeqMinIsMin(row);
      assert near[p] == SeqMin(row) <= d;
      var q :| 0 <= q < |B| && SeqMin(row) == row[q];
      assert Dist(sqrt, A[p], B[q]) == row[q];
    }
    var p :| 0 <= p < |A| && d == near[p];
    var row := Row(sqrt, A[p], B);
    assert near[p] == SeqMin(row);
    SeqMinIsMin(row);
    forall q | 0 <= q < |B|
      ensures Dist(sqrt, A[p], B[q]) >= d
    {
      assert Dist(sqrt, A[p], B[q]) == row[q];
    }
  }

  /** A portrait is at distance 0 from itself. */
  lemma DirectedSelf(sqrt: real -> real, A: seq<Point>)
    requires IsSqrt(sqrt) && |A| > 0
    ensures Directed(sqrt, A, A) == 0.0
  {
    var near := RowMinima(sqrt, A, A);
    forall p | 0 <= p < |A|
      ensures near[p] == 0.0
    {
      RowMinimumZero(sqrt, A, p);
    }
    SeqMaxIsMax(near);
  }

  lemma RowMinimumZero(sqrt: real -> real, A: seq<Point>, p: nat)
    requires IsSqrt(sqrt) && p < |A|
    ensures SeqMin(Row(sqrt, A[p], A)) == 0.0
  {
    var row := Row(sqrt, A[p], A);
    forall q | 0 <= q < |A|
      ensures row[q] >= 0.0
    {
      DistMetric(sqrt, A[p], A[q]);
    }
    DistMetric(sqrt, A[p], A[p]);
    assert row[p] == 0.0;
    SeqMinIsMin(row);
  }

  /** A directed distance is never negative. */
  lemma DirectedNonNegative(sqrt: real -> real, A: seq<Point>, B: seq<Point>)
    requires IsSqrt(sqrt) && |A| > 0 && |B| > 0
    ensures Directed(sqrt, A, B) >= 0.0
  {
    var row := Row(sqrt, A[0], B);
    forall q | 0 <= q < |B|
      ensures row[q] >= 0.0
    {
      DistMetric(sqrt, A[0], B[q]);
    }
    SeqMinIsMin(row);
    SeqMaxIsMax(RowMinima(sqrt, A, B));
    assert RowMinima(sqrt, A, B)[0] == SeqMin(row) >= 0.0;
  }

  // ---------------------------------------------------------------------
  // Normalisation

  /** A sample array that min-max scaling can divide by: non-empty and not
      constant. */
  predicate Spread(s: seq<real>)
  {
    |s| > 0 && SeqMin(s) < SeqMax(s)
  }

  function Scale(x: real, lo: real, hi: real): real
    requires lo < hi
  {
    (x - lo) / (hi - lo)
  }

  /** `(s - s.min()) / (s.max() - s.min())` */
  function Normalize(s: seq<real>): (n: seq<real>)
    requires Spread(s)
    ensures |n| == |s|
  {
    var lo, hi := SeqMin(s), SeqMax(s);
    seq(|s|, i requires 0 <= i < |s| => Scale(s[i], lo, hi))
  }

  /** Min-max scaling lands in [0, 1] and sends exactly the minimum to 0 and
      exactly the maximum to 1. */
  lemma NormalizeUnit(s: seq<real>)
    requires Spread(s)
    ensures forall i :: 0 <= i < |s| ==> 0.0 <= Normalize(s)[i] <= 1.0
    ensures forall i :: 0 <= i < |s| ==> (Normalize(s)[i] == 0.0 <==> s[i] == SeqMin(s))
    ensures forall i :: 0 <= i < |s| ==> (Normalize(s)[i] == 1.0 <==> s[i] == SeqMax(s))
  {
    var lo, hi, n := SeqMin(s), SeqMax(s), Normalize(s);
    SeqMinIsMin(s);
    SeqMaxIsMax(s);
    forall i | 0 <= i < |s|
      ensures 0.0 <= n[i] <= 1.0
      ensures n[i] == 0.0 <==> s[i] == lo
      ensures n[i] == 1.0 <==> s[i] == hi
    {
      assert n[i] == Scale(s[i], lo, hi);
      ScaleFacts(s[i], lo, hi);
    }
  }

  /** Min-max scaling keeps the order of the samples. */
  lemma NormalizeMonotone(s: seq<real>)
    requires Spread(s)
    ensures forall i, j :: 0 <= i < |s| && 0 <= j < |s| ==> (s[i] <= s[j] <==> Normalize(s)[i] <= Normalize(s)[j])
  {
    var lo, hi, n := SeqMin(s), SeqMax(s), Normalize(s);
    forall i, j | 0 <= i < |s| && 0 <= j < |s|
      ensures s[i] <= s[j] <==> n[i] <= n[j]
    {
      assert n[i] == Scale(s[i], lo, hi) && n[j] == Scale(s[j], lo, hi);
      ScaleOrder(s[i], s[j], lo, hi);
    }
  }

  lemma ScaleFacts(x: real, lo: real, hi: real)
    requires lo < hi && lo <= x <= hi
    ensures 0.0 <= Scale(x, lo, hi) <= 1.0
    ensures Scale(x, lo, hi) == 0.0 <==> x == lo
    ensures Scale(x, lo, hi) == 1.0 <==> x == hi
  {
    var d, q := hi - lo, Scale(x, lo, hi);
    assert q * d == x - lo;
    assert (q - 1.0) * d == x - hi;
    MulSign(q, d);
    MulSign(q - 1.0, d);
  }

  /** The sign of a product with a positive factor is the sign of the other
      factor. */
  lemma MulSign(a: real, d: real)
    requires d > 0.0
    ensures a > 0.0 ==> a * d > 0.0
    ensures a < 0.0 ==> a * d < 0.0
  {
  }

  lemma ScaleOrder(x: real, y: real, lo: real, hi: real)
    requires lo < hi
    ensures x <= y <==> Scale(x, lo, hi) <= Scale(y, lo, hi)
  {
    var d := hi - lo;
    assert Scale(y, lo, hi) - Scale(x, lo, hi) == (y - x) / d;
  }

  /** Cycles whose minimum and maximum can both be taken (non-empty) must
      not be constant either, or the scaling divides by zero. */
  predicate Scalable(z: seq<seq<real>>, dz: seq<seq<real>>)
  {
    |z| == |dz| &&
    forall m :: 0 <= m < |z| && |z[m]| > 0 && |dz[m]| > 0 ==> Spread(z[m]) && Spread(dz[m])
  }

  predicate SomeEmpty(z: seq<seq<real>>, dz: seq<seq<real>>)
    requires |z| == |dz|
  {
    exists m :: 0 <= m < |z| && (|z[m]| == 0 || |dz[m]| == 0)
  }

  /** linerar_normalization: every cycle and its derivative scaled into
      [0, 1]; ValueError at the first empty one. */
  method LinearNormalization(z: seq<seq<real>>, dz: seq<seq<real>>) returns (r: Result<(seq<seq<real>>, seq<seq<real>>)>)
    requires Scalable(z, dz)
    ensures r.Err? <==> SomeEmpty(z, dz)
    ensures r.Err? ==> r.error == ValueError
    ensures r.Ok? ==> |r.value.0| == |r.value.1| == |z|
    ensures r.Ok? ==> forall m :: 0 <= m < |z| ==> r.value.0[m] == Normalize(z[m]) && r.value.1[m] == Normalize(dz[m])
  {
    var M := |z|;
    var zNorm := new seq<real>[M](_ => []);
    var dzNorm := new seq<real>[M](_ => []);
    var m := 0;
    while m < M
      invariant 0 <= m <= M
      invariant forall i :: 0 <= i < m ==> |z[i]| > 0 && |dz[i]| > 0
      invariant forall i :: 0 <= i < m ==> zNorm[i] == Normalize(z[i]) && dzNorm[i] == Normalize(dz[i])
    {
      if |z[m]| == 0 || |dz[m]| == 0 {
        return Err(ValueError);
      }
      zNorm[m] := Normalize(z[m]);
      dzNorm[m] := Normalize(dz[m]);
      m := m + 1;
    }
    r := Ok((zNorm[..], dzNorm[..]));
  }

  // ---------------------------------------------------------------------
  // The distance table and the dominant cycle

  function Max(a: real, b: real): real
  {
    if b > a then b else a
  }

  /** `H[i, j] = max(h_ij, h_ji)`: the symmetric Hausdorff distance between
      portraits i and j. */
  function Entry(sqrt: real -> real, P: seq<seq<Point>>, i: nat, j: nat): real
    requires i < |P| && j < |P| && |P[i]| > 0 && |P[j]| > 0
  {
    Max(Directed(sqrt, P[i], P[j]), Inverted(sqrt, P[i], P[j]))
  }

  predicate NonEmpty(P: seq<seq<Point>>)
  {
    forall m :: 0 <= m < |P| ==> |P[m]| > 0
  }

  /** The whole table. */
  function Table(sqrt: real -> real, P: seq<seq<Point>>): (H: seq<seq<real>>)
    requires NonEmpty(P)
    ensures |H| == |P| && forall i :: 0 <= i < |H| ==> |H[i]| == |P|
  {
    seq(|P|, i requires 0 <= i < |P| => seq(|P|, j requires 0 <= j < |P| => Entry(sqrt, P, i, j)))
  }

  /** `np.sum(H, axis=0)` */
  function ColumnSums(H: seq<seq<real>>): (s: seq<real>)
    requires forall i :: 0 <= i < |H| ==> |H[i]| == |H|
    ensures |s| == |H|
  {
    seq(|H|, j requires 0 <= j < |H| => Sum(seq(|H|, i requires 0 <= i < |H| => H[i][j])))
  }

  /** The table is symmetric, zero on the diagonal and non-negative. */
  lemma TableMetric(sqrt: real -> real, P: seq<seq<Point>>)
    requires IsSqrt(sqrt) && NonEmpty(P)
    ensures forall i, j :: 0 <= i < |P| && 0 <= j < |P| ==> Table(sqrt, P)[i][j] == Table(sqrt, P)[j][i]
    ensures forall i :: 0 <= i < |P| ==> Table(sqrt, P)[i][i] == 0.0
    ensures forall i, j :: 0 <= i < |P| && 0 <= j < |P| ==> Table(sqrt, P)[i][j] >= 0.0
  {
    var H := Table(sqrt, P);
    forall i, j | 0 <= i < |P| && 0 <= j < |P|
      ensures H[i][j] == H[j][i]
    {
      assert H[i][j] == Entry(sqrt, P, i, j) && H[j][i] == Entry(sqrt, P, j, i);
      EntryMetric(sqrt, P, i, j);
    }
    forall i, j | 0 <= i < |P| && 0 <= j < |P|
      ensures H[i][j] >= 0.0
    {
      assert H[i][j] == Entry(sqrt, P, i, j);
      EntryMetric(sqrt, P, i, j);
    }
    forall i | 0 <= i < |P|
      ensures H[i][i] == 0.0
    {
      assert H[i][i] == Entry(sqrt, P, i, i);
      EntryMetric(sqrt, P, i, i);
    }
  }

  lemma EntryMetric(sqrt: real -> real, P: seq<seq<Point>>, i: nat, j: nat)
    requires IsSqrt(sqrt) && i < |P| && j < |P| && |P[i]| > 0 && |P[j]| > 0
    ensures Entry(sqrt, P, i, j) == Entry(sqrt, P, j, i)
    ensures Entry(sqrt, P, i, j) >= 0.0
    ensures i == j ==> Entry(sqrt, P, i, j) == 0.0
  {
    InvertedIsReverse(sqrt, P[i], P[j]);
    InvertedIsReverse(sqrt, P[j], P[i]);
    DirectedNonNegative(sqrt, P[i], P[j]);
    if i == j {
      DirectedSelf(sqrt, P[i]);
    }
  }

  /** The dominant cycle has the smallest total distance to all cycles, and
      no earlier cycle ties with it. Since the table is symmetric, the
      column total is the row total. */
  lemma DominantIsMostCentral(sqrt: real -> real, P: seq<seq<Point>>)
    requires IsSqrt(sqrt) && NonEmpty(P) && |P| > 0
    ensures var H := Table(sqrt, P); var k := ArgMin(ColumnSums(H));
      (forall j :: 0 <= j < |P| ==> Sum(H[k]) <= Sum(H[j])) &&
      (forall j :: 0 <= j < k ==> Sum(H[k]) < Sum(H[j]))
  {
    var H := Table(sqrt, P);
    var sums := ColumnSums(H);
    TableMetric(sqrt, P);
    forall j | 0 <= j < |P|
      ensures sums[j] == Sum(H[j])
    {
      assert seq(|H|, i requires 0 <= i < |H| => H[i][j]) == H[j];
    }
    ArgMinIsFirstMin(sums);
  }

  /** The portraits of all cycles, once scaled. */
  function Portraits(z: seq<seq<real>>, dz: seq<seq<real>>): (P: seq<seq<Point>>)
    requires Scalable(z, dz) && !SomeEmpty(z, dz)
    requires forall m :: 0 <= m < |z| ==> |z[m]| == |dz[m]|
    ensures |P| == |z| && NonEmpty(P)
  {
    seq(|z|, m requires 0 <= m < |z| => Points(Normalize(z[m]), Normalize(dz[m])))
  }

  /** analyze_cycle_phase: normalise, fill the distance table, and pick the
      first column with the smallest total. ValueError when there is no
      cycle (argmin of nothing) or a cycle is empty. */
  method AnalyzeCyclePhase(sqrt: real -> real, z: seq<seq<real>>, dz: seq<seq<real>>) returns (r: Result<nat>)
    requires Scalable(z, dz)
    requires forall m :: 0 <= m < |z| ==> |z[m]| == |dz[m]|
    ensures r.Err? <==> |z| == 0 || SomeEmpty(z, dz)
    ensures r.Err? ==> r.error == ValueError
    ensures r.Ok? ==> !SomeEmpty(z, dz) && r.value == ArgMin(ColumnSums(Table(sqrt, Portraits(z, dz))))
  {
    var norm := LinearNormalization(z, dz);
    if norm.Err? {
      return Err(ValueError);
    }
    var (zNorm, dzNorm) := norm.value;
    var M := |z|;
    if M == 0 {
      return Err(ValueError);
    }
    var P := seq(M, m requires 0 <= m < M => Points(zNorm[m], dzNorm[m]));
    assert P == Portraits(z, dz);
    var H := FillTable(sqrt, P);
    r := Ok(ArgMin(ColumnSums(H)));
  }

  /** The double loop of analyze_cycle_phase, into an M×M array of zeros. */
  method FillTable(sqrt: real -> real, P: seq<seq<Point>>) returns (H: seq<seq<real>>)
    requires NonEmpty(P)
    ensures H == Table(sqrt, P)
  {
    var M := |P|;
    var table := new real[M, M]((_, _) => 0.0);
    var i := 0;
    while i < M
      invariant 0 <= i <= M
      invariant forall a, b :: 0 <= a < i && 0 <= b < M ==> table[a, b] == Entry(sqrt, P, a, b)
    {
      FillRow(sqrt, P, table, i);
      i := i + 1;
    }
    H := Rows(table);
    assert forall a :: 0 <= a < M ==> H[a] == Table(sqrt, P)[a];
  }

  /** The inner loop: row i of the table, one entry per portrait j. */
  method FillRow(sqrt: real -> real, P: seq<seq<Point>>, table: array2<real>, i: nat)
    requires NonEmpty(P) && table.Length0 == table.Length1 == |P| && i < |P|
    modifies table
    ensures forall b :: 0 <= b < |P| ==> table[i, b] == Entry(sqrt, P, i, b)
    ensures forall a, b :: 0 <= a < |P| && 0 <= b < |P| && a != i ==> table[a, b] == old(table[a, b])
  {
    var j := 0;
    while j < |P|
      invariant 0 <= j <= |P|
      invariant forall b :: 0 <= b < j ==> table[i, b] == Entry(sqrt, P, i, b)
      invariant forall a, b :: 0 <= a < |P| && 0 <= b < |P| && a != i ==> table[a, b] == old(table[a, b])
    {
      var h := Symmetric(sqrt, P, i, j);
      table[i, j] := h;
      j := j + 1;
    }
  }

  /** `max(h_ij, h_ji)` for one pair of portraits. */
  method Symmetric(sqrt: real -> real, P: seq<seq<Point>>, i: nat, j: nat) returns (h: real)
    requires i < |P| && j < |P| && |P[i]| > 0 && |P[j]| > 0
    ensures h == Entry(sqrt, P, i, j)
  {
    var hij := HausdorffDistance(sqrt, P[i], P[j], false);
    var hji := HausdorffDistance(sqrt, P[i], P[j], true);
    InvertedIsReverse(sqrt, P[i], P[j]);
    h := Max(hij.value, hji.value);
  }

  /** The rows of a square array, as sequences. */
  function Rows(table: array2<real>): (H: seq<seq<real>>)
    reads table
    ensures |H| == table.Length0
    ensures forall a :: 0 <= a < |H| ==> |H[a]| == table.Length1
    ensures forall a, b :: 0 <= a < table.Length0 && 0 <= b < table.Length1 ==> H[a][b] == table[a, b]
  {
    seq(table.Length0, a requires 0 <= a < table.Length0 reads table =>
      seq(table.Length1, b requires 0 <= b < table.Length1 reads table => table[a, b]))
  }
}
