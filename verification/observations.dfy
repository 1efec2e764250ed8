/**
 * The observation binders of the split-parameter model: each observation
 * names the processes it covers by id, and the binder turns it into a 0/1
 * selection over the flow matrix (or over the input vector), plus the
 * observed value and its standard deviation.
 *
 * A flow observation selects its (source, target) pairs the way numpy's
 * indexing with two index lists does: lists of equal length are paired
 * element by element, a list of length one is repeated against the other,
 * and any other pair of lengths is an error. An id that is not a process is
 * an error (a KeyError).
 */
module Observations {
  import opened Common
  import opened RealSeqs
  import opened Network

  datatype FlowObservation = FlowObservation(sources: seq<string>, targets: seq<string>, value: real, std: real)

  datatype InputObservation = InputObservation(targets: seq<string>, value: real, std: real)

  /** numpy broadcasts two one-dimensional index lists when their lengths agree or one of them is one. */
  predicate Broadcastable(s: seq<nat>, t: seq<nat>) {
    |s| == |t| || |s| == 1 || |t| == 1
  }

  /** The number of pairs two broadcastable index lists select. */
  function Width(s: seq<nat>, t: seq<nat>): nat {
    if |s| == 1 then |t| else |s|
  }

  /** The `k`-th selected pair: element-wise, with a list of length one repeated. */
  function PairAt(s: seq<nat>, t: seq<nat>, k: nat): (nat, nat)
    requires Broadcastable(s, t) && k < Width(s, t)
  {
    (if |s| == 1 then s[0] else s[k], if |t| == 1 then t[0] else t[k])
  }

  /** `(a, b)` is one of the first `w` selected pairs. */
  predicate SelectedBefore(s: seq<nat>, t: seq<nat>, w: nat, a: nat, b: nat)
    requires Broadcastable(s, t) && w <= Width(s, t)
  {
    exists k :: 0 <= k < w && PairAt(s, t, k) == (a, b)
  }

  /** The selected pairs in order: `(s[k], t[k])`, with a list of length one repeated. */
  function Pairs(s: seq<nat>, t: seq<nat>): (r: seq<(nat, nat)>)
    requires Broadcastable(s, t)
    ensures |r| == Width(s, t) && forall k :: 0 <= k < |r| ==> r[k] == PairAt(s, t, k)
  {
    seq(Width(s, t), k requires 0 <= k < Width(s, t) => PairAt(s, t, k))
  }

  /** `(a, b)` is one of the pairs the two index lists select; both of its ends are listed. */
  predicate Selected(s: seq<nat>, t: seq<nat>, a: nat, b: nat)
    requires Broadcastable(s, t)
    ensures Selected(s, t, a, b) <==> (a, b) in Pairs(s, t)
    ensures Selected(s, t, a, b) ==> a in s && b in t
  {
    var r := Pairs(s, t);
    assert (a, b) in r ==> exists k :: 0 <= k < |r| && r[k] == (a, b);
    SelectedBefore(s, t, Width(s, t), a, b)
  }

  /**
   * Pairs of equal-length lists are selected element by element: `(a, b)`
   * is selected exactly when `a` and `b` stand at the same position.
   */
  lemma SelectedZips(s: seq<nat>, t: seq<nat>, a: nat, b: nat)
    requires |s| == |t|
    ensures Selected(s, t, a, b) <==> exists k :: 0 <= k < |s| && s[k] == a && t[k] == b
  {
    if exists k :: 0 <= k < |s| && s[k] == a && t[k] == b {
      var k :| 0 <= k < |s| && s[k] == a && t[k] == b;
      assert PairAt(s, t, k) == (a, b);
    }
  }

  /** A single source is paired with every target, and a single target with every source. */
  lemma SelectedBroadcasts(s: seq<nat>, t: seq<nat>, a: nat, b: nat)
    requires |s| == 1 || |t| == 1
    ensures |s| == 1 ==> (Selected(s, t, a, b) <==> a == s[0] && b in t)
    ensures |t| == 1 ==> (Selected(s, t, a, b) <==> a in s && b == t[0])
  {
    if |s| == 1 && a == s[0] && b in t {
      var k :| 0 <= k < |t| && t[k] == b;
      assert PairAt(s, t, k) == (a, b);
    }
    if |t| == 1 && a in s && b == t[0] {
      var k :| 0 <= k < |s| && s[k] == a;
      assert PairAt(s, t, k) == (a, b);
    }
  }

  /**
   * Two sources and two targets observe two flows, not four: with
   * `[a1, a2]` and `[b1, b2]` the cross pair `(a1, b2)` is not selected.
   */
  lemma PairsNotProduct(a1: nat, a2: nat, b1: nat, b2: nat)
    requires a1 != a2 && b1 != b2
    ensures Selected([a1, a2], [b1, b2], a1, b1) && Selected([a1, a2], [b1, b2], a2, b2)
    ensures !Selected([a1, a2], [b1, b2], a1, b2) && !Selected([a1, a2], [b1, b2], a2, b1)
  {
    var s, t := [a1, a2], [b1, b2];
    assert s[0] == a1 && t[0] == b1 && s[1] == a2 && t[1] == b2;
    SelectedZips([a1, a2], [b1, b2], a1, b1);
    SelectedZips([a1, a2], [b1, b2], a2, b2);
    SelectedZips([a1, a2], [b1, b2], a1, b2);
    SelectedZips([a1, a2], [b1, b2], a2, b1);
  }

  /** Every id of the observation is a process, and the two index lists broadcast. */
  predicate FlowBinds(keys: seq<string>, ob: FlowObservation) {
    && Pids(keys, ob.sources).Some?
    && Pids(keys, ob.targets).Some?
    && Broadcastable(Pids(keys, ob.sources).value, Pids(keys, ob.targets).value)
  }

  /** Entry `[a][b]` of an observation's selection matrix: one on the observed pairs. */
  function FlowIndicator(keys: seq<string>, ob: FlowObservation, a: nat, b: nat): real
    requires FlowBinds(keys, ob)
  {
    if Selected(Pids(keys, ob.sources).value, Pids(keys, ob.targets).value, a, b) then 1.0 else 0.0
  }

  /**
   * `_flow_observations`: a selection matrix per observation (zero outside
   * the observed pairs), the observed values and their standard deviations.
   * `ok` is false where the source raises: an unknown id or index lists that
   * do not broadcast.
   */
  method FlowObservations(keys: seq<string>, obs: seq<FlowObservation>)
    returns (ok: bool, sel: array3<real>, data: array<real>, stds: array<real>)
    ensures fresh(sel) && fresh(data) && fresh(stds)
    ensures sel.Length0 == |obs| && sel.Length1 == |keys| && sel.Length2 == |keys|
    ensures data.Length == |obs| && stds.Length == |obs|
    ensures ok <==> forall o :: 0 <= o < |obs| ==> FlowBinds(keys, obs[o])
    ensures ok ==> forall o, a, b :: 0 <= o < |obs| && 0 <= a < |keys| && 0 <= b < |keys| ==>
                     sel[o, a, b] == FlowIndicator(keys, obs[o], a, b)
    ensures ok ==> forall o :: 0 <= o < |obs| ==> data[o] == obs[o].value && stds[o] == obs[o].std
  {
    sel := new real[|obs|, |keys|, |keys|]((_, _, _) => 0.0);
    data := new real[|obs|](_ => 0.0);
    stds := new real[|obs|](_ => 0.0);
    for o := 0 to |obs|
      invariant forall p :: 0 <= p < o ==> FlowBinds(keys, obs[p])
      invariant forall p, a, b :: 0 <= p < o && 0 <= a < |keys| && 0 <= b < |keys| ==>
                  sel[p, a, b] == FlowIndicator(keys, obs[p], a, b)
      invariant forall p, a, b :: o <= p < |obs| && 0 <= a < |keys| && 0 <= b < |keys| ==> sel[p, a, b] == 0.0
      invariant forall p :: 0 <= p < o ==> data[p] == obs[p].value && stds[p] == obs[p].std
    {
      var bound := BindFlow(sel, data, stds, o, keys, obs[o]);
      if !bound {
        return false, sel, data, stds;
      }
    }
    ok := true;
  }

  /**
   * One iteration of `_flow_observations`: resolves the ids of `ob` and sets
   * its pairs in slice `o`; false is the KeyError or the broadcast error.
   */
  method BindFlow(sel: array3<real>, data: array<real>, stds: array<real>, o: nat, keys: seq<string>, ob: FlowObservation)
    returns (ok: bool)
    requires o < sel.Length0 && sel.Length1 == |keys| && sel.Length2 == |keys|
    requires o < data.Length && o < stds.Length && data != stds
    requires forall a, b :: 0 <= a < sel.Length1 && 0 <= b < sel.Length2 ==> sel[o, a, b] == 0.0
    modifies sel, data, stds
    ensures ok <==> FlowBinds(keys, ob)
    ensures ok ==> data[o] == ob.value && stds[o] == ob.std
    ensures forall p :: 0 <= p < data.Length && p != o ==> data[p] == old(data[p])
    ensures forall p :: 0 <= p < stds.Length && p != o ==> stds[p] == old(stds[p])
    ensures ok ==> forall a, b :: 0 <= a < sel.Length1 && 0 <= b < sel.Length2 ==>
                     sel[o, a, b] == FlowIndicator(keys, ob, a, b)
    ensures forall p, a, b :: 0 <= p < sel.Length0 && 0 <= a < sel.Length1 && 0 <= b < sel.Length2 && p != o ==>
              sel[p, a, b] == old(sel[p, a, b])
  {
    var src, tgt := Pids(keys, ob.sources), Pids(keys, ob.targets);
    if src.None? || tgt.None? || !Broadcastable(src.value, tgt.value) {
      return false;
    }
    SelectPairs(sel, o, src.value, tgt.value);
    data[o] := ob.value;
    stds[o] := ob.std;
    ok := true;
  }

  /**
   * `flow_obs[o, sources, targets] = 1`: sets the selected pairs of slice `o`
   * to one and leaves every other entry as it was.
   */
  method SelectPairs(sel: array3<real>, o: nat, s: seq<nat>, t: seq<nat>)
    requires o < sel.Length0 && Broadcastable(s, t)
    requires IndicesBelow(s, sel.Length1) && IndicesBelow(t, sel.Length2)
    requires forall a, b :: 0 <= a < sel.Length1 && 0 <= b < sel.Length2 ==> sel[o, a, b] == 0.0
    modifies sel
    ensures forall a, b :: 0 <= a < sel.Length1 && 0 <= b < sel.Length2 ==>
              sel[o, a, b] == if Selected(s, t, a, b) then 1.0 else 0.0
    ensures forall p, a, b :: 0 <= p < sel.Length0 && 0 <= a < sel.Length1 && 0 <= b < sel.Length2 && p != o ==>
              sel[p, a, b] == old(sel[p, a, b])
  {
    for k := 0 to Width(s, t)
      invariant forall a, b :: 0 <= a < sel.Length1 && 0 <= b < sel.Length2 ==>
                  sel[o, a, b] == if SelectedBefore(s, t, k, a, b) then 1.0 else 0.0
      invariant forall p, a, b :: 0 <= p < sel.Length0 && 0 <= a < sel.Length1 && 0 <= b < sel.Length2 && p != o ==>
                  sel[p, a, b] == old(sel[p, a, b])
    {
      var (a, b) := PairAt(s, t, k);
      sel[o, a, b] := 1.0;
      forall a', b' | 0 <= a' < sel.Length1 && 0 <= b' < sel.Length2
        ensures SelectedBefore(s, t, k + 1, a', b') <==> SelectedBefore(s, t, k, a', b') || (a', b') == (a, b)
      {
        if SelectedBefore(s, t, k + 1, a', b') && (a', b') != (a, b) {
          var m :| 0 <= m < k + 1 && PairAt(s, t, m) == (a', b');
          assert m < k;
        }
      }
    }
  }

  /**
   * `T.tensordot(flow_obs, flows, 2)` for one observation: the flows summed
   * over the selection matrix.
   */
  function Observed(sel: Matrix, F: Matrix): (r: real)
    requires |sel| == |F| && forall j :: 0 <= j < |sel| ==> |sel[j]| == |F[j]|
    ensures (forall j, i :: 0 <= j < |sel| && 0 <= i < |sel[j]| ==> sel[j][i] == 0.0) ==> r == 0.0
  {
    var rows := seq(|sel|, j requires 0 <= j < |sel| => Dot(sel[j], F[j]));
    if forall j, i :: 0 <= j < |sel| && 0 <= i < |sel[j]| ==> sel[j][i] == 0.0 then
      NothingSelected(sel, F, rows);
      Sum(rows)
    else
      Sum(rows)
  }

  lemma NothingSelected(sel: Matrix, F: Matrix, rows: seq<real>)
    requires |sel| == |F| && forall j :: 0 <= j < |sel| ==> |sel[j]| == |F[j]|
    requires forall j, i :: 0 <= j < |sel| && 0 <= i < |sel[j]| ==> sel[j][i] == 0.0
    requires rows == seq(|sel|, j requires 0 <= j < |sel| => Dot(sel[j], F[j]))
    ensures Sum(rows) == 0.0
  {
    forall j | 0 <= j < |sel|
      ensures rows[j] == 0.0
    {
      var terms := seq(|sel[j]|, i requires 0 <= i < |sel[j]| => sel[j][i] * F[j][i]);
      assert terms == Zeros(|sel[j]|);
      SumZeros(|sel[j]|);
    }
    assert rows == Zeros(|sel|);
    SumZeros(|sel|);
  }

  /** An observation of the single pair `(a, b)` observes the flow from `a` to `b`. */
  lemma ObservedSinglePair(sel: Matrix, F: Matrix, n: nat, a: nat, b: nat)
    requires IsSquare(sel, n) && IsSquare(F, n) && a < n && b < n
    requires forall j, i :: 0 <= j < n && 0 <= i < n ==> sel[j][i] == if j == a && i == b then 1.0 else 0.0
    ensures Observed(sel, F) == F[a][b]
  {
    var rows := seq(n, j requires 0 <= j < n => Dot(sel[j], F[j]));
    forall j | 0 <= j < n
      ensures rows[j] == if j == a then F[a][b] else 0.0
    {
      var terms := seq(n, i requires 0 <= i < n => sel[j][i] * F[j][i]);
      OneHotSum(terms, if j == a then b else n, F[j][b]);
    }
    OneHotSum(rows, a, F[a][b]);
  }

  /** Every pair lies inside an `n` by `n` matrix. */
  predicate PairsBelow(pairs: seq<(nat, nat)>, n: nat) {
    forall k :: 0 <= k < |pairs| ==> pairs[k].0 < n && pairs[k].1 < n
  }

  predicate DistinctPairs(pairs: seq<(nat, nat)>) {
    forall k, l :: 0 <= k < l < |pairs| ==> pairs[k] != pairs[l]
  }

  /** The 0/1 matrix with ones exactly at the given pairs. */
  function Indicator(pairs: seq<(nat, nat)>, n: nat): (sel: Matrix)
    ensures IsSquare(sel, n)
    ensures forall j, i :: 0 <= j < n && 0 <= i < n ==> sel[j][i] == if (j, i) in pairs then 1.0 else 0.0
  {
    seq(n, j requires 0 <= j < n => seq(n, i requires 0 <= i < n => if (j, i) in pairs then 1.0 else 0.0))
  }

  /** The flows at the given pairs, in their order. */
  function PairFlows(pairs: seq<(nat, nat)>, F: Matrix, n: nat): (r: seq<real>)
    requires IsSquare(F, n) && PairsBelow(pairs, n)
    ensures |r| == |pairs| && forall k :: 0 <= k < |pairs| ==> r[k] == F[pairs[k].0][pairs[k].1]
  {
    seq(|pairs|, k requires 0 <= k < |pairs| => F[pairs[k].0][pairs[k].1])
  }

  lemma DistributeRight(x: real, y: real, c: real)
    ensures (x + y) * c == x * c + y * c
  {
  }

  /** The dot product is additive in its first argument. */
  lemma DotAdd(a: seq<real>, b: seq<real>, c: seq<real>, f: seq<real>)
    requires |a| == |b| == |c| == |f|
    requires forall i :: 0 <= i < |c| ==> c[i] == a[i] + b[i]
    ensures Dot(c, f) == Dot(a, f) + Dot(b, f)
  {
    var ta := seq(|a|, i requires 0 <= i < |a| => a[i] * f[i]);
    var tb := seq(|b|, i requires 0 <= i < |b| => b[i] * f[i]);
    var tc := seq(|c|, i requires 0 <= i < |c| => c[i] * f[i]);
    forall i | 0 <= i < |c|
      ensures tc[i] == ta[i] + tb[i]
    {
      DistributeRight(a[i], b[i], f[i]);
    }
    assert tc == seq(|ta|, i requires 0 <= i < |ta| => ta[i] + tb[i]);
    SumPointwise(ta, tb);
  }

  /** An observation is additive in its selection matrix. */
  lemma ObservedAdd(x: Matrix, y: Matrix, z: Matrix, F: Matrix, n: nat)
    requires IsSquare(x, n) && IsSquare(y, n) && IsSquare(z, n) && IsSquare(F, n)
    requires forall j, i :: 0 <= j < n && 0 <= i < n ==> z[j][i] == x[j][i] + y[j][i]
    ensures Observed(z, F) == Observed(x, F) + Observed(y, F)
  {
    var rx := seq(n, j requires 0 <= j < n => Dot(x[j], F[j]));
    var ry := seq(n, j requires 0 <= j < n => Dot(y[j], F[j]));
    var rz := seq(n, j requires 0 <= j < n => Dot(z[j], F[j]));
    forall j | 0 <= j < n
      ensures rz[j] == rx[j] + ry[j]
    {
      DotAdd(x[j], y[j], z[j], F[j]);
    }
    assert rz == seq(|rx|, j requires 0 <= j < |rx| => rx[j] + ry[j]);
    SumPointwise(rx, ry);
  }

  /** Dropping the last of distinct pairs unselects exactly that pair. */
  lemma LastPairSplit(pairs: seq<(nat, nat)>, j: nat, i: nat)
    requires |pairs| > 0 && DistinctPairs(pairs)
    ensures var k := |pairs| - 1;
            ((j, i) in pairs <==> (j, i) in pairs[..k] || (j, i) == pairs[k])
            && !((j, i) in pairs[..k] && (j, i) == pairs[k])
  {
    var k := |pairs| - 1;
    assert pairs == pairs[..k] + [pairs[k]];
    if (j, i) in pairs[..k] {
      var m :| 0 <= m < k && pairs[..k][m] == (j, i);
      assert pairs[m] != pairs[k];
    }
  }

  /** Selecting distinct pairs observes the sum of their flows. */
  lemma {:induction false} ObservedPairs(pairs: seq<(nat, nat)>, sel: Matrix, F: Matrix, n: nat)
    requires IsSquare(sel, n) && IsSquare(F, n) && PairsBelow(pairs, n) && DistinctPairs(pairs)
    requires forall j, i :: 0 <= j < n && 0 <= i < n ==> sel[j][i] == if (j, i) in pairs then 1.0 else 0.0
    ensures Observed(sel, F) == Sum(PairFlows(pairs, F, n))
    decreases |pairs|
  {
    if |pairs| == 0 {
      assert Sum(PairFlows(pairs, F, n)) == 0.0;
    } else {
      var k := |pairs| - 1;
      var prefix, last := pairs[..k], pairs[k];
      var before := Indicator(prefix, n);
      ObservedPairs(prefix, before, F, n);
      var one := Indicator([last], n);
      ObservedSinglePair(one, F, n, last.0, last.1);
      forall j, i | 0 <= j < n && 0 <= i < n
        ensures sel[j][i] == before[j][i] + one[j][i]
      {
        LastPairSplit(pairs, j, i);
      }
      ObservedAdd(before, one, sel, F, n);
      assert PairFlows(pairs, F, n)[..k] == PairFlows(prefix, F, n);
      SumLast(PairFlows(pairs, F, n));
    }
  }

  /** The selection matrix of a bound flow observation, as `_flow_observations` fills it. */
  function FlowSelection(keys: seq<string>, ob: FlowObservation): (sel: Matrix)
    requires FlowBinds(keys, ob)
    ensures IsSquare(sel, |keys|)
    ensures forall a, b :: 0 <= a < |keys| && 0 <= b < |keys| ==> sel[a][b] == FlowIndicator(keys, ob, a, b)
  {
    seq(|keys|, a requires 0 <= a < |keys| =>
      seq(|keys|, b requires 0 <= b < |keys| => FlowIndicator(keys, ob, a, b)))
  }

  /**
   * `T.tensordot(flow_obs, flows, 2)` for one observation whose pairs are
   * distinct: the sum of the flows of the observed pairs.
   */
  lemma ObservedFlows(keys: seq<string>, ob: FlowObservation, F: Matrix)
    requires FlowBinds(keys, ob) && IsSquare(F, |keys|)
    requires DistinctPairs(Pairs(Pids(keys, ob.sources).value, Pids(keys, ob.targets).value))
    ensures var pairs := Pairs(Pids(keys, ob.sources).value, Pids(keys, ob.targets).value);
            PairsBelow(pairs, |keys|) && Observed(FlowSelection(keys, ob), F) == Sum(PairFlows(pairs, F, |keys|))
  {
    var s, t := Pids(keys, ob.sources).value, Pids(keys, ob.targets).value;
    var pairs := Pairs(s, t);
    forall k | 0 <= k < |pairs|
      ensures pairs[k].0 < |keys| && pairs[k].1 < |keys|
    {
      assert pairs[k] == PairAt(s, t, k);
    }
    var sel := FlowSelection(keys, ob);
    forall a, b | 0 <= a < |keys| && 0 <= b < |keys|
      ensures sel[a][b] == if (a, b) in pairs then 1.0 else 0.0
    {
      assert Selected(s, t, a, b) <==> (a, b) in pairs;
    }
    ObservedPairs(pairs, sel, F, |keys|);
  }

  /** A vector that is zero outside position `p` sums to its entry at `p` (to zero when `p` is out of range). */
  lemma {:induction false} OneHotSum(s: seq<real>, p: nat, v: real)
    requires forall i :: 0 <= i < |s| ==> s[i] == if i == p then v else 0.0
    ensures Sum(s) == if p < |s| then v else 0.0
    decreases |s|
  {
    if |s| > 0 {
      if p == 0 {
        OneHotSum(s[1..], |s|, v);
      } else {
        OneHotSum(s[1..], p - 1, v);
      }
    }
  }

  predicate InputBinds(keys: seq<string>, ob: InputObservation) {
    Pids(keys, ob.targets).Some?
  }

  /** Entry `b` of an observation's selection row: one at the observed processes. */
  function InputIndicator(keys: seq<string>, ob: InputObservation, b: nat): real
    requires InputBinds(keys, ob)
  {
    if b in Pids(keys, ob.targets).value then 1.0 else 0.0
  }

  /**
   * `_input_observations`: a selection row per observation (one at the
   * observed processes), the observed values and their standard deviations;
   * `ok` is false where an id is not a process.
   */
  method InputObservations(keys: seq<string>, obs: seq<InputObservation>)
    returns (ok: bool, sel: array2<real>, data: array<real>, stds: array<real>)
    ensures fresh(sel) && fresh(data) && fresh(stds)
    ensures sel.Length0 == |obs| && sel.Length1 == |keys|
    ensures data.Length == |obs| && stds.Length == |obs|
    ensures ok <==> forall o :: 0 <= o < |obs| ==> InputBinds(keys, obs[o])
    ensures ok ==> forall o, b :: 0 <= o < |obs| && 0 <= b < |keys| ==> sel[o, b] == InputIndicator(keys, obs[o], b)
    ensures ok ==> forall o :: 0 <= o < |obs| ==> data[o] == obs[o].value && stds[o] == obs[o].std
  {
    sel := new real[|obs|, |keys|]((_, _) => 0.0);
    data := new real[|obs|](_ => 0.0);
    stds := new real[|obs|](_ => 0.0);
    for o := 0 to |obs|
      invariant forall p :: 0 <= p < o ==> InputBinds(keys, obs[p])
      invariant forall p, b :: 0 <= p < o && 0 <= b < |keys| ==> sel[p, b] == InputIndicator(keys, obs[p], b)
      invariant forall p, b :: o <= p < |obs| && 0 <= b < |keys| ==> sel[p, b] == 0.0
      invariant forall p :: 0 <= p < o ==> data[p] == obs[p].value && stds[p] == obs[p].std
    {
      var bound := BindInput(sel, data, stds, o, keys, obs[o]);
      if !bound {
        return false, sel, data, stds;
      }
    }
    ok := true;
  }

  /** One iteration of `_input_observations`; false is the KeyError of an unknown id. */
  method BindInput(sel: array2<real>, data: array<real>, stds: array<real>, o: nat, keys: seq<string>, ob: InputObservation)
    returns (ok: bool)
    requires o < sel.Length0 && sel.Length1 == |keys|
    requires o < data.Length && o < stds.Length && data != stds
    requires forall b :: 0 <= b < sel.Length1 ==> sel[o, b] == 0.0
    modifies sel, data, stds
    ensures ok <==> InputBinds(keys, ob)
    ensures ok ==> data[o] == ob.value && stds[o] == ob.std
    ensures forall p :: 0 <= p < data.Length && p != o ==> data[p] == old(data[p])
    ensures forall p :: 0 <= p < stds.Length && p != o ==> stds[p] == old(stds[p])
    ensures ok ==> forall b :: 0 <= b < sel.Length1 ==> sel[o, b] == InputIndicator(keys, ob, b)
    ensures forall p, b :: 0 <= p < sel.Length0 && 0 <= b < sel.Length1 && p != o ==> sel[p, b] == old(sel[p, b])
  {
    var tgt := Pids(keys, ob.targets);
    if tgt.None? {
      return false;
    }
    SelectRow(sel, o, tgt.value);
    data[o] := ob.value;
    stds[o] := ob.std;
    ok := true;
  }

  /** `input_obs[o, targets] = 1`. */
  method SelectRow(sel: array2<real>, o: nat, t: seq<nat>)
    requires o < sel.Length0 && IndicesBelow(t, sel.Length1)
    requires forall b :: 0 <= b < sel.Length1 ==> sel[o, b] == 0.0
    modifies sel
    ensures forall b :: 0 <= b < sel.Length1 ==> sel[o, b] == if b in t then 1.0 else 0.0
    ensures forall p, b :: 0 <= p < sel.Length0 && 0 <= b < sel.Length1 && p != o ==> sel[p, b] == old(sel[p, b])
  {
    for k := 0 to |t|
      invariant forall b :: 0 <= b < sel.Length1 ==> sel[o, b] == if b in t[..k] then 1.0 else 0.0
      invariant forall p, b :: 0 <= p < sel.Length0 && 0 <= b < sel.Length1 && p != o ==> sel[p, b] == old(sel[p, b])
    {
      sel[o, t[k]] := 1.0;
      assert t[..k + 1] == t[..k] + [t[k]];
    }
    assert t[..|t|] == t;
  }

  /** The selection row of an input observation as a vector. */
  function InputRow(keys: seq<string>, ob: InputObservation): (row: seq<real>)
    requires InputBinds(keys, ob)
    ensures |row| == |keys| && forall b :: 0 <= b < |keys| ==> row[b] == InputIndicator(keys, ob, b)
  {
    seq(|keys|, b requires 0 <= b < |keys| => InputIndicator(keys, ob, b))
  }

  /** `v[idx]`: the entries of `v` at the given positions. */
  function Gather(v: seq<real>, idx: seq<nat>): (r: seq<real>)
    requires IndicesBelow(idx, |v|)
    ensures |r| == |idx| && forall m :: 0 <= m < |idx| ==> r[m] == v[idx[m]]
  {
    seq(|idx|, m requires 0 <= m < |idx| => v[idx[m]])
  }

  /**
   * `T.dot(input_obs, all_inputs)` for one observation with distinct ids:
   * the sum of the inputs of the observed processes.
   */
  lemma ObservedInputs(keys: seq<string>, ob: InputObservation, v: seq<real>)
    requires InputBinds(keys, ob) && |v| == |keys|
    requires DistinctNames(ob.targets)
    ensures Dot(InputRow(keys, ob), v) == Sum(Gather(v, Pids(keys, ob.targets).value))
  {
    PidsDistinct(keys, ob.targets);
    DotIndicator(InputRow(keys, ob), v, Pids(keys, ob.targets).value);
  }

  /** A 0/1 row with ones at distinct positions picks out the sum of the entries there. */
  lemma DotIndicator(row: seq<real>, v: seq<real>, idx: seq<nat>)
    requires |row| == |v| && IndicesBelow(idx, |v|) && Distinct(idx)
    requires forall b :: 0 <= b < |row| ==> row[b] == if b in idx then 1.0 else 0.0
    ensures Dot(row, v) == Sum(Gather(v, idx))
  {
    var vals := Gather(v, idx);
    var w := Scatter(Zeros(|v|), idx, vals);
    ScatterDistinct(Zeros(|v|), idx, vals);
    var terms := seq(|row|, b requires 0 <= b < |row| => row[b] * v[b]);
    forall b | 0 <= b < |row|
      ensures terms[b] == w[b]
    {
      if b in idx {
        var m :| 0 <= m < |idx| && idx[m] == b;
        assert w[idx[m]] == vals[m];
      } else {
        assert w[b] == 0.0;
      }
    }
    assert terms == w;
    ScatterZerosSum(|v|, idx, vals);
  }
}
