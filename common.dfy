/** Small numeric vocabulary shared by every component: optional and
    failing results, absolute value, ceiling, sums, and the minimum,
    maximum and first-minimiser of a sample array (numpy's min, max and
    argmin). */
module Common {

  datatype Option<+T> = None | Some(value: T)

  /** The Python exceptions the modelled code can raise. */
  datatype Error = KeyError | IndexError | AttributeError | ZeroDivisionError | ValueError | TypeError

  datatype Result<+T> = Ok(value: T) | Err(error: Error)

  function Abs(x: real): real
  {
    if x < 0.0 then -x else x
  }

  /** np.ceil(x).astype(int) */
  function Ceil(x: real): (r: int)
    ensures (r - 1) as real < x <= r as real
  {
    -((-x).Floor)
  }

  function Sum(s: seq<real>): real
  {
    if |s| == 0 then 0.0 else Sum(s[..|s| - 1]) + s[|s| - 1]
  }

  lemma {:induction false} SumAppend(s: seq<real>, x: real)
    ensures Sum(s + [x]) == Sum(s) + x
  {
    assert (s + [x])[..|s|] == s;
  }

  /** Summing from the front gives the same total as summing from the back. */
  lemma {:induction false} SumCons(x: real, s: seq<real>)
    ensures Sum([x] + s) == x + Sum(s)
  {
    if |s| > 0 {
      var init := s[..|s| - 1];
      assert ([x] + s)[..|s|] == [x] + init;
      SumCons(x, init);
    }
  }

  /** numpy's min of a non-empty array. */
  function SeqMin(s: seq<real>): real
    requires |s| > 0
  {
    if |s| == 1 then s[0]
    else
      var m := SeqMin(s[..|s| - 1]);
      if s[|s| - 1] < m then s[|s| - 1] else m
  }

  /** The minimum is an element, and no element is below it. */
  lemma {:induction false} SeqMinIsMin(s: seq<real>)
    requires |s| > 0
    ensures forall i :: 0 <= i < |s| ==> SeqMin(s) <= s[i]
    ensures exists i :: 0 <= i < |s| && SeqMin(s) == s[i]
  {
    if |s| > 1 {
      var init := s[..|s| - 1];
      SeqMinIsMin(init);
      assert forall i :: 0 <= i < |init| ==> init[i] == s[i];
      var k :| 0 <= k < |init| && SeqMin(init) == init[k];
      if SeqMin(s) == s[k] {
        assert 0 <= k < |s| && SeqMin(s) == s[k];
      } else {
        assert 0 <= |s| - 1 < |s| && SeqMin(s) == s[|s| - 1];
      }
    } else {
      assert SeqMin(s) == s[0];
    }
  }

  /** numpy's max of a non-empty array. */
  function SeqMax(s: seq<real>): real
    requires |s| > 0
  {
    if |s| == 1 then s[0]
    else
      var m := SeqMax(s[..|s| - 1]);
      if s[|s| - 1] > m then s[|s| - 1] else m
  }

  /** The maximum is an element, and no element is above it. */
  lemma {:induction false} SeqMaxIsMax(s: seq<real>)
    requires |s| > 0
    ensures forall i :: 0 <= i < |s| ==> s[i] <= SeqMax(s)
    ensures exists i :: 0 <= i < |s| && SeqMax(s) == s[i]
  {
    if |s| > 1 {
      var init := s[..|s| - 1];
      SeqMaxIsMax(init);
      assert forall i :: 0 <= i < |init| ==> init[i] == s[i];
      var k :| 0 <= k < |init| && SeqMax(init) == init[k];
      if SeqMax(s) == s[k] {
        assert 0 <= k < |s| && SeqMax(s) == s[k];
      } else {
        assert 0 <= |s| - 1 < |s| && SeqMax(s) == s[|s| - 1];
      }
    } else {
      assert SeqMax(s) == s[0];
    }
  }

  /** numpy's argmin: the FIRST index holding the smallest element. */
  function ArgMin(s: seq<real>): (k: nat)
    requires |s| > 0
    ensures k < |s|
  {
    if |s| == 1 then 0
    else
      var k := ArgMin(s[..|s| - 1]);
      if s[|s| - 1] < s[k] then |s| - 1 else k
  }

  /** The argmin holds the smallest element, and every element before it is
      strictly larger. */
  lemma {:induction false} ArgMinIsFirstMin(s: seq<real>)
    requires |s| > 0
    ensures forall j :: 0 <= j < |s| ==> s[ArgMin(s)] <= s[j]
    ensures forall j :: 0 <= j < ArgMin(s) ==> s[ArgMin(s)] < s[j]
  {
    if |s| > 1 {
      var init := s[..|s| - 1];
      ArgMinIsFirstMin(init);
      assert forall j :: 0 <= j < |init| ==> init[j] == s[j];
    }
  }

  /** The two properties in ArgMin's contract pin the index down: any index
      that is a minimiser with no smaller-or-equal element before it is the
      argmin. */
  lemma ArgMinUnique(s: seq<real>, k: nat)
    requires k < |s|
    requires forall j :: 0 <= j < |s| ==> s[k] <= s[j]
    requires forall j :: 0 <= j < k ==> s[k] < s[j]
    ensures ArgMin(s) == k
  {
    ArgMinIsFirstMin(s);
  }
}
