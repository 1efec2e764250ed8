/**
 * `SplitParamModel`: how the process dictionary becomes a transfer-coefficient
 * matrix `A`, an input vector and a flow matrix `F`, how observations become
 * 0/1 selection tensors, and how a flow is read back from a trace.
 *
 * Processes are numbered by their position in the dictionary (`pids`). A
 * sampled parameter vector is given per process (`None` for a sink, whose
 * `param_rv` returns `None`). The Leontief solve `X = (I - A)^-1 inputs` is not
 * computed: lemmas take the equilibrium `X = A X + inputs` as a hypothesis.
 */
module Network {
  import opened Common
  import opened RealSeqs
  import opened ProcessKinds
  import Strings

  /** One item of the ordered process dictionary. */
  datatype Entry = Entry(id: string, process: Process)

  /** The processes in the dictionary's iteration order. */
  type Graph = seq<Entry>

  /** The keys of the dictionary, in iteration order. */
  function Keys(g: Graph): (keys: seq<string>)
    ensures |keys| == |g| && forall a :: 0 <= a < |g| ==> keys[a] == g[a].id
  {
    seq(|g|, a requires 0 <= a < |g| => g[a].id)
  }

  /** No name occurs twice. */
  predicate DistinctNames(ks: seq<string>) {
    forall a, b :: 0 <= a < b < |ks| ==> ks[a] != ks[b]
  }

  /**
   * `pids[k]` with `pids = {k: i for i, k in enumerate(processes)}`: the
   * position of `k` among the keys, the last one if it were repeated; `None`
   * is the KeyError.
   */
  function Pid(keys: seq<string>, k: string): (r: Option<nat>)
    ensures r.Some? <==> exists a :: 0 <= a < |keys| && keys[a] == k
    ensures r.Some? ==> r.value < |keys| && keys[r.value] == k
    ensures r.Some? ==> forall a :: r.value < a < |keys| ==> keys[a] != k
    decreases |keys|
  {
    if |keys| == 0 then None
    else if keys[|keys| - 1] == k then Some(|keys| - 1)
    else
      var r := Pid(keys[..|keys| - 1], k);
      assert forall a :: 0 <= a < |keys| - 1 ==> keys[..|keys| - 1][a] == keys[a];
      r
  }

  /** With distinct keys, `pids` inverts the numbering. */
  lemma PidOfPosition(keys: seq<string>, a: nat)
    requires DistinctNames(keys) && a < |keys|
    ensures Pid(keys, keys[a]) == Some(a)
  {
  }

  /** `[pids[k] for k in ks]`: all positions, or `None` if some id is not a key. */
  function Pids(keys: seq<string>, ks: seq<string>): (r: Option<seq<nat>>)
    ensures r.Some? ==> |r.value| == |ks| && IndicesBelow(r.value, |keys|)
    decreases |ks|
  {
    if |ks| == 0 then Some([])
    else
      var head := Pid(keys, ks[0]);
      var tail := Pids(keys, ks[1..]);
      if head.None? || tail.None? then None
      else Some([head.value] + tail.value)
  }

  /** Each position the lookup gives is the dictionary lookup of the corresponding id. */
  lemma {:induction false} PidsAt(keys: seq<string>, ks: seq<string>)
    requires Pids(keys, ks).Some?
    ensures forall m :: 0 <= m < |ks| ==> Pid(keys, ks[m]) == Some(Pids(keys, ks).value[m])
    decreases |ks|
  {
    if |ks| > 0 {
      PidsAt(keys, ks[1..]);
      assert forall m :: 1 <= m < |ks| ==> ks[1..][m - 1] == ks[m];
    }
  }

  /** The lookup fails exactly when one of the ids is not a key. */
  lemma {:induction false} PidsResolve(keys: seq<string>, ks: seq<string>)
    ensures Pids(keys, ks).Some? <==> forall m :: 0 <= m < |ks| ==> Pid(keys, ks[m]).Some?
    decreases |ks|
  {
    if |ks| > 0 {
      PidsResolve(keys, ks[1..]);
      if Pids(keys, ks).Some? {
        PidsAt(keys, ks);
      }
      assert forall m :: 1 <= m < |ks| ==> ks[1..][m - 1] == ks[m];
    }
  }

  /** Distinct names resolve to distinct positions. */
  /** Every position the lookup gives holds one of the looked-up ids. */
  lemma PidsOnlyKeys(keys: seq<string>, ks: seq<string>)
    requires Pids(keys, ks).Some?
    ensures forall i :: i in Pids(keys, ks).value ==> i < |keys| && keys[i] in ks
  {
    var idx := Pids(keys, ks).value;
    PidsAt(keys, ks);
    forall i | i in idx
      ensures i < |keys| && keys[i] in ks
    {
      var m :| 0 <= m < |idx| && idx[m] == i;
      assert Pid(keys, ks[m]) == Some(i);
    }
  }

  lemma PidsDistinct(keys: seq<string>, ks: seq<string>)
    requires Pids(keys, ks).Some? && DistinctNames(ks)
    ensures Distinct(Pids(keys, ks).value)
  {
    var idx := Pids(keys, ks).value;
    PidsAt(keys, ks);
    forall a, b | 0 <= a < b < |idx|
      ensures idx[a] != idx[b]
    {
      assert keys[idx[a]] == ks[a] && keys[idx[b]] == ks[b];
    }
  }

  // ---------------------------------------------------------------------
  // Indexed assignment
  // ---------------------------------------------------------------------

  predicate IndicesBelow(idx: seq<nat>, n: nat) {
    forall m :: 0 <= m < |idx| ==> idx[m] < n
  }

  predicate Distinct(idx: seq<nat>) {
    forall a, b :: 0 <= a < b < |idx| ==> idx[a] != idx[b]
  }

  /**
   * `v[idx] = vals` (numpy assignment, theano `set_subtensor`): the writes
   * happen in order, so a repeated index keeps the last value.
   */
  function Scatter(base: seq<real>, idx: seq<nat>, vals: seq<real>): (r: seq<real>)
    requires |idx| == |vals| && IndicesBelow(idx, |base|)
    ensures |r| == |base|
    ensures forall i :: 0 <= i < |base| && i !in idx ==> r[i] == base[i]
    decreases |idx|
  {
    if |idx| == 0 then base
    else Scatter(base, idx[..|idx| - 1], vals[..|vals| - 1])[idx[|idx| - 1] := vals[|vals| - 1]]
  }

  /** The position of the last write to index `i`, if any. */
  function LastWrite(idx: seq<nat>, i: nat): (r: Option<nat>)
    ensures r.Some? <==> exists m :: 0 <= m < |idx| && idx[m] == i
    ensures r.Some? ==> r.value < |idx| && idx[r.value] == i
    ensures r.Some? ==> forall m :: r.value < m < |idx| ==> idx[m] != i
    decreases |idx|
  {
    if |idx| == 0 then None
    else if idx[|idx| - 1] == i then Some(|idx| - 1)
    else
      var r := LastWrite(idx[..|idx| - 1], i);
      assert forall m :: 0 <= m < |idx| - 1 ==> idx[..|idx| - 1][m] == idx[m];
      r
  }

  /** Each entry after the assignment is the last value written to it, or the old entry if none was. */
  lemma {:induction false} ScatterAt(base: seq<real>, idx: seq<nat>, vals: seq<real>, i: nat)
    requires |idx| == |vals| && IndicesBelow(idx, |base|) && i < |base|
    ensures Scatter(base, idx, vals)[i] == match LastWrite(idx, i)
                                           case None => base[i]
                                           case Some(m) => vals[m]
    decreases |idx|
  {
    if |idx| > 0 {
      var k := |idx| - 1;
      ScatterAt(base, idx[..k], vals[..k], i);
      if idx[k] != i {
        assert LastWrite(idx, i) == LastWrite(idx[..k], i);
      }
    }
  }

  /** With distinct indices the last write to `idx[m]` is the one at `m`. */
  lemma LastWriteDistinct(idx: seq<nat>, m: nat)
    requires Distinct(idx) && m < |idx|
    ensures LastWrite(idx, idx[m]) == Some(m)
  {
    var v := LastWrite(idx, idx[m]).value;
    assert idx[v] == idx[m];
    assert !(v < m) && !(m < v);
  }

  /** An index never written has no last write. */
  lemma LastWriteAbsent(idx: seq<nat>, i: nat)
    requires i !in idx
    ensures LastWrite(idx, i) == None
  {
  }

  /** With distinct indices every written value lands at its index and nothing else changes. */
  lemma ScatterDistinct(base: seq<real>, idx: seq<nat>, vals: seq<real>)
    requires |idx| == |vals| && IndicesBelow(idx, |base|) && Distinct(idx)
    ensures forall m :: 0 <= m < |idx| ==> Scatter(base, idx, vals)[idx[m]] == vals[m]
    ensures forall i :: 0 <= i < |base| && i !in idx ==> Scatter(base, idx, vals)[i] == base[i]
  {
    forall m | 0 <= m < |idx|
      ensures Scatter(base, idx, vals)[idx[m]] == vals[m]
    {
      ScatterAt(base, idx, vals, idx[m]);
      LastWriteDistinct(idx, m);
    }
    forall i | 0 <= i < |base| && i !in idx
      ensures Scatter(base, idx, vals)[i] == base[i]
    {
      ScatterAt(base, idx, vals, i);
      LastWriteAbsent(idx, i);
    }
  }

  /** Writing distinct indices of a zero vector gives a vector with the written values' sum. */
  lemma {:induction false} ScatterZerosSum(n: nat, idx: seq<nat>, vals: seq<real>)
    requires |idx| == |vals| && IndicesBelow(idx, n) && Distinct(idx)
    ensures Sum(Scatter(Zeros(n), idx, vals)) == Sum(vals)
    decreases |idx|
  {
    if |idx| == 0 {
      SumZeros(n);
    } else {
      var k := |idx| - 1;
      var prefix := Scatter(Zeros(n), idx[..k], vals[..k]);
      ScatterZerosSum(n, idx[..k], vals[..k]);
      ScatterAt(Zeros(n), idx[..k], vals[..k], idx[k]);
      assert LastWrite(idx[..k], idx[k]).None?;
      SumUpdate(prefix, idx[k], vals[k]);
      SumLast(vals);
    }
  }

  // ---------------------------------------------------------------------
  // _build_matrices
  // ---------------------------------------------------------------------

  /**
   * The process sample handed to `_build_matrices`: one parameter vector per
   * process, `None` exactly where `param_rv` returned `None`.
   */
  predicate ParamsMatch(g: Graph, params: seq<Option<seq<real>>>) {
    && |params| == |g|
    && (forall j :: 0 <= j < |g| ==> WellFormed(g[j].process))
    && (forall j :: 0 <= j < |g| && params[j].Some? ==> ParamsFit(g[j].process, params[j].value))
  }

  /** Whether process `j` writes its column: it has parameters and outputs. */
  predicate Writes(g: Graph, params: seq<Option<seq<real>>>, j: nat)
    requires |params| == |g| && j < |g|
  {
    params[j].Some? && |g[j].process.outputs| > 0
  }

  /** The outputs of every writing process are processes (no KeyError). */
  predicate Resolvable(g: Graph, params: seq<Option<seq<real>>>)
    requires |params| == |g|
  {
    forall j :: 0 <= j < |g| ==> Resolves(g, params, j)
  }

  /** Process `j` either writes nothing or all its outputs are processes. */
  predicate Resolves(g: Graph, params: seq<Option<seq<real>>>, j: nat)
    requires |params| == |g| && j < |g|
  {
    Writes(g, params, j) ==> Pids(Keys(g), g[j].process.outputs).Some?
  }

  /** When every output is a process id, every process that writes resolves its outputs. */
  lemma OutputsResolve(g: Graph, params: seq<Option<seq<real>>>)
    requires |params| == |g|
    requires forall j, m :: 0 <= j < |g| && 0 <= m < |g[j].process.outputs| ==> g[j].process.outputs[m] in Keys(g)
    ensures Resolvable(g, params)
  {
    forall j | 0 <= j < |g|
      ensures Resolves(g, params, j)
    {
      var outs := g[j].process.outputs;
      PidsResolve(Keys(g), outs);
      forall m | 0 <= m < |outs|
        ensures Pid(Keys(g), outs[m]).Some?
      {
        var a :| 0 <= a < |Keys(g)| && Keys(g)[a] == outs[m];
      }
    }
  }

  /**
   * Column `j` of the transfer-coefficient matrix: the shares of process `j`
   * at the rows of its outputs, zero everywhere else.
   */
  function TransferColumn(g: Graph, params: seq<Option<seq<real>>>, j: nat): (col: seq<real>)
    requires ParamsMatch(g, params) && j < |g|
    ensures |col| == |g|
    ensures forall i :: 0 <= i < |g| && g[i].id !in g[j].process.outputs ==> col[i] == 0.0
  {
    var dest := Pids(Keys(g), g[j].process.outputs);
    if Writes(g, params, j) && dest.Some? then
      PidsOnlyKeys(Keys(g), g[j].process.outputs);
      Scatter(Zeros(|g|), dest.value, TransferFunctions(g[j].process, params[j].value))
    else
      Zeros(|g|)
  }

  /** The whole matrix, `A[i][j]` being the share of process `j`'s throughput sent to process `i`. */
  function TransferMatrix(g: Graph, params: seq<Option<seq<real>>>): (A: Matrix)
    requires ParamsMatch(g, params)
    ensures IsSquare(A, |g|)
    ensures forall i, j :: 0 <= i < |g| && 0 <= j < |g| ==> A[i][j] == TransferColumn(g, params, j)[i]
  {
    seq(|g|, i requires 0 <= i < |g| =>
      seq(|g|, j requires 0 <= j < |g| => TransferColumn(g, params, j)[i]))
  }

  /** A sink, or a process without outputs, leaves its column at zero. */
  lemma NonWritingColumnIsZero(g: Graph, params: seq<Option<seq<real>>>, j: nat)
    requires ParamsMatch(g, params) && j < |g| && !Writes(g, params, j)
    ensures forall i :: 0 <= i < |g| ==> TransferColumn(g, params, j)[i] == 0.0
  {
  }

  /**
   * A writing process with distinct outputs: its column holds the share of
   * each output at that output's row, and zero at every row that is not one
   * of its outputs.
   */
  lemma TransferColumnEntries(g: Graph, params: seq<Option<seq<real>>>, j: nat)
    requires ParamsMatch(g, params) && j < |g| && Writes(g, params, j) && Resolves(g, params, j)
    requires DistinctNames(g[j].process.outputs)
    ensures var col, dest := TransferColumn(g, params, j), Pids(Keys(g), g[j].process.outputs).value;
            var shares := TransferFunctions(g[j].process, params[j].value);
            && (forall m :: 0 <= m < |dest| ==> col[dest[m]] == shares[m])
            && (forall i :: 0 <= i < |g| && i !in dest ==> col[i] == 0.0)
  {
    var dest := Pids(Keys(g), g[j].process.outputs).value;
    PidsDistinct(Keys(g), g[j].process.outputs);
    ScatterDistinct(Zeros(|g|), dest, TransferFunctions(g[j].process, params[j].value));
  }

  /**
   * Conservation at one process: the column of a process whose sample is one
   * the priors can produce sums to one when it writes (its shares leave it in
   * full) and to zero when it does not.
   */
  lemma TransferColumnSum(g: Graph, params: seq<Option<seq<real>>>, j: nat)
    requires ParamsMatch(g, params) && j < |g| && Resolves(g, params, j)
    requires params[j].Some? ==> ValidSample(g[j].process, params[j].value)
    requires DistinctNames(g[j].process.outputs)
    ensures Sum(TransferColumn(g, params, j)) == if Writes(g, params, j) then 1.0 else 0.0
  {
    if Writes(g, params, j) {
      var dest := Pids(Keys(g), g[j].process.outputs).value;
      var shares := TransferFunctions(g[j].process, params[j].value);
      PidsDistinct(Keys(g), g[j].process.outputs);
      ScatterZerosSum(|g|, dest, shares);
      SharesSumToOne(g[j].process, params[j].value);
    } else {
      SumZeros(|g|);
    }
  }

  /** `all_inputs`: `inputs[m]` at `pids[possible_inputs[m]]`, zero elsewhere. */
  function InputVector(g: Graph, possibleInputs: seq<string>, inputs: seq<real>): (v: seq<real>)
    requires |inputs| == |possibleInputs| && Pids(Keys(g), possibleInputs).Some?
    ensures |v| == |g|
    ensures forall i :: 0 <= i < |g| && g[i].id !in possibleInputs ==> v[i] == 0.0
  {
    PidsOnlyKeys(Keys(g), possibleInputs);
    Scatter(Zeros(|g|), Pids(Keys(g), possibleInputs).value, inputs)
  }

  /**
   * With distinct input names (they are the sorted keys of a dictionary), each
   * input magnitude lands at its process, every other entry is zero, and the
   * vector carries the total input.
   */
  lemma InputVectorEntries(g: Graph, possibleInputs: seq<string>, inputs: seq<real>)
    requires |inputs| == |possibleInputs| && Pids(Keys(g), possibleInputs).Some?
    requires DistinctNames(possibleInputs)
    ensures var v, dest := InputVector(g, possibleInputs, inputs), Pids(Keys(g), possibleInputs).value;
            && (forall m :: 0 <= m < |dest| ==> v[dest[m]] == inputs[m])
            && (forall i :: 0 <= i < |g| && i !in dest ==> v[i] == 0.0)
            && Sum(v) == Sum(inputs)
  {
    var dest := Pids(Keys(g), possibleInputs).value;
    PidsDistinct(Keys(g), possibleInputs);
    ScatterDistinct(Zeros(|g|), dest, inputs);
    ScatterZerosSum(|g|, dest, inputs);
  }

  /** `sorted(list(input_defs.keys()))`: the input-definition keys in Python's string order. */
  function PossibleInputs(inputDefKeys: seq<string>): (r: seq<string>)
    ensures |r| == |inputDefKeys|
  {
    Strings.SortBy(inputDefKeys, (k: string) => k)
  }

  /**
   * The keys of a dictionary are distinct, so the sorted list of them is
   * strictly increasing, hence distinct, and holds the same keys.
   */
  lemma PossibleInputsDistinct(inputDefKeys: seq<string>)
    requires DistinctNames(inputDefKeys)
    ensures Strings.StrictlySortedBy(PossibleInputs(inputDefKeys), (k: string) => k)
    ensures DistinctNames(PossibleInputs(inputDefKeys))
    ensures multiset(PossibleInputs(inputDefKeys)) == multiset(inputDefKeys)
  {
    var key := (k: string) => k;
    Strings.SortByDistinct(inputDefKeys, key);
    Strings.SortByPermutes(inputDefKeys, key);
  }

  /**
   * `all_inputs` for the list `__init__` builds: each sampled input lands at
   * the row of its key, every other row is zero, and nothing is lost.
   */
  lemma InputVectorOfInputDefs(g: Graph, inputDefKeys: seq<string>, inputs: seq<real>)
    requires DistinctNames(inputDefKeys) && |inputs| == |inputDefKeys|
    requires Pids(Keys(g), PossibleInputs(inputDefKeys)).Some?
    ensures var keys := PossibleInputs(inputDefKeys);
            var v, dest := InputVector(g, keys, inputs), Pids(Keys(g), keys).value;
            && (forall m :: 0 <= m < |dest| ==> v[dest[m]] == inputs[m] && Keys(g)[dest[m]] == keys[m])
            && (forall i :: 0 <= i < |g| && i !in dest ==> v[i] == 0.0)
            && Sum(v) == Sum(inputs)
  {
    var keys := PossibleInputs(inputDefKeys);
    PossibleInputsDistinct(inputDefKeys);
    InputVectorEntries(g, keys, inputs);
    PidsAt(Keys(g), keys);
    forall m | 0 <= m < |keys|
      ensures Keys(g)[Pids(Keys(g), keys).value[m]] == keys[m]
    {
      PidsOnlyKeys(Keys(g), keys);
      assert Pid(Keys(g), keys[m]) == Some(Pids(Keys(g), keys).value[m]);
    }
  }

  /**
   * `_build_matrices`: a zeroed N x N matrix, each writing process's shares
   * scattered into its own column, then the input magnitudes scattered into a
   * zeroed vector. `ok` is false where the source raises a KeyError.
   */
  method BuildMatrices(g: Graph, params: seq<Option<seq<real>>>, possibleInputs: seq<string>, inputs: seq<real>)
    returns (ok: bool, A: array2<real>, allInputs: array<real>)
    requires ParamsMatch(g, params) && |inputs| == |possibleInputs|
    ensures fresh(A) && fresh(allInputs)
    ensures A.Length0 == |g| && A.Length1 == |g| && allInputs.Length == |g|
    ensures ok <==> Resolvable(g, params) && Pids(Keys(g), possibleInputs).Some?
    ensures ok ==> forall i, j :: 0 <= i < |g| && 0 <= j < |g| ==> A[i, j] == TransferMatrix(g, params)[i][j]
    ensures ok ==> allInputs[..] == InputVector(g, possibleInputs, inputs)
  {
    var n := |g|;
    A := new real[n, n]((i, j) => 0.0);
    allInputs := new real[n](i => 0.0);
    var j := 0;
    while j < n
      invariant 0 <= j <= n
      invariant allInputs[..] == Zeros(n)
      invariant forall c :: 0 <= c < j ==> Resolves(g, params, c)
      invariant forall i, c :: 0 <= i < n && 0 <= c < j ==> A[i, c] == TransferColumn(g, params, c)[i]
      invariant forall i, c :: 0 <= i < n && j <= c < n ==> A[i, c] == 0.0
    {
      var written := WriteColumn(g, params, A, j);
      if !written {
        return false, A, allInputs;
      }
      j := j + 1;
    }
    assert Resolvable(g, params);
    var dest := Pids(Keys(g), possibleInputs);
    if dest.None? {
      return false, A, allInputs;
    }
    ScatterVector(allInputs, dest.value, inputs);
    ok := true;
  }

  /**
   * One iteration of the loop in `_build_matrices`: process `j`'s shares go to
   * the rows of its outputs in column `j`; false is the KeyError of an output
   * that is not a process.
   */
  method WriteColumn(g: Graph, params: seq<Option<seq<real>>>, A: array2<real>, j: nat) returns (ok: bool)
    requires ParamsMatch(g, params) && j < |g|
    requires A.Length0 == |g| && A.Length1 == |g|
    requires forall i :: 0 <= i < |g| ==> A[i, j] == 0.0
    modifies A
    ensures ok <==> Resolves(g, params, j)
    ensures forall i, c :: 0 <= i < |g| && 0 <= c < |g| && c != j ==> A[i, c] == old(A[i, c])
    ensures ok ==> forall i :: 0 <= i < |g| ==> A[i, j] == TransferColumn(g, params, j)[i]
  {
    if !Writes(g, params, j) {
      NonWritingColumnIsZero(g, params, j);
      return true;
    }
    var dest := Pids(Keys(g), g[j].process.outputs);
    if dest.None? {
      return false;
    }
    var shares := TransferFunctions(g[j].process, params[j].value);
    ScatterColumn(A, j, dest.value, shares);
    ok := true;
  }

  /** `A[idx, j] = vals` on a column that is still zero; the other columns keep their values. */
  method ScatterColumn(A: array2<real>, j: nat, idx: seq<nat>, vals: seq<real>)
    requires j < A.Length1 && |idx| == |vals| && IndicesBelow(idx, A.Length0)
    requires forall i :: 0 <= i < A.Length0 ==> A[i, j] == 0.0
    modifies A
    ensures forall i, c :: 0 <= i < A.Length0 && 0 <= c < A.Length1 ==>
              A[i, c] == (if c == j then Scatter(Zeros(A.Length0), idx, vals)[i] else old(A[i, c]))
  {
    var k := 0;
    while k < |idx|
      invariant 0 <= k <= |idx|
      invariant forall i, c :: 0 <= i < A.Length0 && 0 <= c < A.Length1 ==>
                  A[i, c] == (if c == j then Scatter(Zeros(A.Length0), idx[..k], vals[..k])[i] else old(A[i, c]))
    {
      A[idx[k], j] := vals[k];
      assert idx[..k + 1][..k] == idx[..k] && vals[..k + 1][..k] == vals[..k];
      k := k + 1;
    }
    assert idx[..k] == idx && vals[..k] == vals;
  }

  /** `v[idx] = vals` on an array. */
  method ScatterVector(v: array<real>, idx: seq<nat>, vals: seq<real>)
    requires |idx| == |vals| && IndicesBelow(idx, v.Length)
    modifies v
    ensures v[..] == Scatter(old(v[..]), idx, vals)
  {
    var m := 0;
    while m < |idx|
      invariant 0 <= m <= |idx|
      invariant v[..] == Scatter(old(v[..]), idx[..m], vals[..m])
    {
      v[idx[m]] := vals[m];
      assert idx[..m + 1][..m] == idx[..m] && vals[..m + 1][..m] == vals[..m];
      m := m + 1;
    }
    assert idx[..m] == idx && vals[..m] == vals;
  }
}
