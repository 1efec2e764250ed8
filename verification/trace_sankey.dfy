/**
 * The helpers that turn sampled inputs and flows into the long-form rows
 * of a Sankey dataset: `inputs_flows_as_dataframe` for one input vector and
 * one flow matrix, and `flows_from_trace` for a thinned sequence of samples.
 *
 * Rows are specified through the positions they come from: the positive
 * entries of the input vector in increasing order, and the positive cells
 * of the flow matrix in row-major order.
 */
module TraceSankey {
  import opened Common
  import opened RealSeqs

  /** A record `(source, target, material, value)` of `inputs_flows_as_dataframe`. */
  datatype Row = Row(source: string, target: string, material: string, value: real)

  /** A record `(source, target, material, sample, value)` of `flows_from_trace`. */
  datatype SampleRow = SampleRow(source: string, target: string, material: string, sample: nat, value: real)

  /** The `ValueError` of a slice whose step is zero. */
  datatype SliceError = ZeroStep

  /** The number of strictly positive entries. */
  function CountPositive(s: seq<real>): nat
    decreases |s|
  {
    if |s| == 0 then 0
    else CountPositive(s[..|s| - 1]) + (if s[|s| - 1] > 0.0 then 1 else 0)
  }

  /** The positions `i < n` with `I[i] > 0`, in increasing order. */
  function PositiveIndices(I: seq<real>, n: nat): (r: seq<nat>)
    requires n <= |I|
    ensures |r| == CountPositive(I[..n])
    ensures forall k :: 0 <= k < |r| ==> r[k] < n
    decreases n
  {
    if n == 0 then []
    else
      assert I[..n][..n - 1] == I[..n - 1];
      PositiveIndices(I, n - 1) + (if I[n - 1] > 0.0 then [n - 1] else [])
  }

  /** The listed positions hold positive inputs, in increasing order, and every positive input below `n` is listed. */
  lemma PositiveIndicesExact(I: seq<real>, n: nat)
    requires n <= |I|
    ensures forall k :: 0 <= k < |PositiveIndices(I, n)| ==> I[PositiveIndices(I, n)[k]] > 0.0
    ensures forall k, l :: 0 <= k < l < |PositiveIndices(I, n)| ==> PositiveIndices(I, n)[k] < PositiveIndices(I, n)[l]
    ensures forall i :: 0 <= i < n && I[i] > 0.0 ==> i in PositiveIndices(I, n)
  {
    PositiveIndicesPositive(I, n);
    PositiveIndicesIncreasing(I, n);
    PositiveIndicesComplete(I, n);
  }

  lemma {:induction false} PositiveIndicesPositive(I: seq<real>, n: nat)
    requires n <= |I|
    ensures forall k :: 0 <= k < |PositiveIndices(I, n)| ==> I[PositiveIndices(I, n)[k]] > 0.0
    decreases n
  {
    if n > 0 {
      PositiveIndicesPositive(I, n - 1);
      var r := PositiveIndices(I, n - 1);
      if I[n - 1] > 0.0 {
        var r' := r + [n - 1];
        assert PositiveIndices(I, n) == r';
        forall k | 0 <= k < |r'|
          ensures I[r'[k]] > 0.0
        {
          if k < |r| {
            assert r'[k] == r[k];
          }
        }
      } else {
        assert PositiveIndices(I, n) == r;
      }
    }
  }

  lemma {:induction false} PositiveIndicesIncreasing(I: seq<real>, n: nat)
    requires n <= |I|
    ensures forall k, l :: 0 <= k < l < |PositiveIndices(I, n)| ==> PositiveIndices(I, n)[k] < PositiveIndices(I, n)[l]
    decreases n
  {
    if n > 0 {
      PositiveIndicesIncreasing(I, n - 1);
      var r := PositiveIndices(I, n - 1);
      if I[n - 1] > 0.0 {
        var r' := r + [n - 1];
        assert PositiveIndices(I, n) == r';
        forall k, l | 0 <= k < l < |r'|
          ensures r'[k] < r'[l]
        {
          assert r'[k] == r[k];
          if l < |r| {
            assert r'[l] == r[l];
          }
        }
      } else {
        assert PositiveIndices(I, n) == r;
      }
    }
  }

  lemma {:induction false} PositiveIndicesComplete(I: seq<real>, n: nat)
    requires n <= |I|
    ensures forall i :: 0 <= i < n && I[i] > 0.0 ==> i in PositiveIndices(I, n)
    decreases n
  {
    if n > 0 {
      PositiveIndicesComplete(I, n - 1);
      var r := PositiveIndices(I, n - 1);
      if I[n - 1] > 0.0 {
        var r' := r + [n - 1];
        assert PositiveIndices(I, n) == r';
        forall i | 0 <= i < n && I[i] > 0.0
          ensures i in r'
        {
          if i < n - 1 {
            assert i in r;
          }
        }
      } else {
        assert PositiveIndices(I, n) == r;
      }
    }
  }

  /** Row-major order of the cells of a matrix. */
  predicate CellBefore(a: (nat, nat), b: (nat, nat)) {
    a.0 < b.0 || (a.0 == b.0 && a.1 < b.1)
  }

  /** Every row of `F` has at least `np` entries. */
  predicate Covers(F: Matrix, np: nat) {
    |F| >= np && forall a :: 0 <= a < np ==> |F[a]| >= np
  }

  /**
   * The cells `(a, b)` with `a, b < np` and `F[a][b] > 0` that come before
   * `(i, j)` in row-major order, in that order.
   */
  function PositiveCells(F: Matrix, np: nat, i: nat, j: nat): (r: seq<(nat, nat)>)
    requires Covers(F, np) && i <= np && j <= np && (j > 0 ==> i < np)
    ensures forall k :: 0 <= k < |r| ==> r[k].0 < np && r[k].1 < np
    decreases i, j
  {
    if j > 0 then
      PositiveCells(F, np, i, j - 1) + (if F[i][j - 1] > 0.0 then [(i, j - 1)] else [])
    else if i > 0 then
      PositiveCells(F, np, i - 1, np)
    else
      []
  }

  /** The listed cells are positive and come before `(i, j)`. */
  lemma {:induction false} PositiveCellsBefore(F: Matrix, np: nat, i: nat, j: nat)
    requires Covers(F, np) && i <= np && j <= np && (j > 0 ==> i < np)
    ensures forall k :: 0 <= k < |PositiveCells(F, np, i, j)| ==> CellBefore(PositiveCells(F, np, i, j)[k], (i, j))
    ensures forall k :: 0 <= k < |PositiveCells(F, np, i, j)| ==>
              F[PositiveCells(F, np, i, j)[k].0][PositiveCells(F, np, i, j)[k].1] > 0.0
    decreases i, j
  {
    if j > 0 {
      var r, r' := PositiveCells(F, np, i, j - 1), PositiveCells(F, np, i, j);
      assert r' == r + (if F[i][j - 1] > 0.0 then [(i, j - 1)] else []);
      PositiveCellsBefore(F, np, i, j - 1);
      forall k | 0 <= k < |r'|
        ensures CellBefore(r'[k], (i, j)) && F[r'[k].0][r'[k].1] > 0.0
      {
        if k < |r| {
          assert r'[k] == r[k];
        }
      }
    } else if i > 0 {
      assert PositiveCells(F, np, i, j) == PositiveCells(F, np, i - 1, np);
      PositiveCellsBefore(F, np, i - 1, np);
    }
  }

  /** The listed cells are in row-major order. */
  lemma {:induction false} PositiveCellsSorted(F: Matrix, np: nat, i: nat, j: nat)
    requires Covers(F, np) && i <= np && j <= np && (j > 0 ==> i < np)
    ensures forall k, l :: 0 <= k < l < |PositiveCells(F, np, i, j)| ==>
              CellBefore(PositiveCells(F, np, i, j)[k], PositiveCells(F, np, i, j)[l])
    decreases i, j
  {
    if j > 0 {
      var r, r' := PositiveCells(F, np, i, j - 1), PositiveCells(F, np, i, j);
      assert r' == r + (if F[i][j - 1] > 0.0 then [(i, j - 1)] else []);
      PositiveCellsSorted(F, np, i, j - 1);
      PositiveCellsBefore(F, np, i, j - 1);
      forall k, l | 0 <= k < l < |r'|
        ensures CellBefore(r'[k], r'[l])
      {
        assert r'[k] == r[k];
        if l < |r| {
          assert r'[l] == r[l];
        }
      }
    } else if i > 0 {
      assert PositiveCells(F, np, i, j) == PositiveCells(F, np, i - 1, np);
      PositiveCellsSorted(F, np, i - 1, np);
    }
  }

  /** Every positive cell before `(i, j)` is listed. */
  lemma {:induction false} PositiveCellsComplete(F: Matrix, np: nat, i: nat, j: nat, a: nat, b: nat)
    requires Covers(F, np) && i <= np && j <= np && (j > 0 ==> i < np)
    requires a < np && b < np && CellBefore((a, b), (i, j)) && F[a][b] > 0.0
    ensures (a, b) in PositiveCells(F, np, i, j)
    decreases i, j
  {
    if j > 0 {
      if (a, b) != (i, j - 1) {
        PositiveCellsComplete(F, np, i, j - 1, a, b);
      }
    } else {
      PositiveCellsComplete(F, np, i - 1, np, a, b);
    }
  }

  /** The number of strictly positive entries among the first `np` columns of the first `n` rows. */
  function CountPositiveRows(F: Matrix, np: nat, n: nat): nat
    requires Covers(F, np) && n <= np
  {
    if n == 0 then 0 else CountPositiveRows(F, np, n - 1) + CountPositive(F[n - 1][..np])
  }

  /** The positive cells before `(i, j)` are counted row by row. */
  lemma {:induction false} PositiveCellsCount(F: Matrix, np: nat, i: nat, j: nat)
    requires Covers(F, np) && i <= np && j <= np && (j > 0 ==> i < np)
    ensures |PositiveCells(F, np, i, j)| == CountPositiveRows(F, np, i) + (if i < np then CountPositive(F[i][..j]) else 0)
    decreases i, j
  {
    if j > 0 {
      PositiveCellsCount(F, np, i, j - 1);
      var row := F[i][..j];
      assert row[..j - 1] == F[i][..j - 1] && row[j - 1] == F[i][j - 1];
      assert CountPositive(row) == CountPositive(F[i][..j - 1]) + (if F[i][j - 1] > 0.0 then 1 else 0);
    } else if i > 0 {
      PositiveCellsCount(F, np, i - 1, np);
      if i < np {
        assert F[i][..0] == [];
      }
    } else if np > 0 {
      assert F[0][..0] == [];
    }
  }

  /** The row for a positive input: `('inputs', possible_inputs[i], '?', I[i])`. */
  function InputRow(possibleInputs: seq<string>, I: seq<real>, i: nat): Row
    requires i < |I| <= |possibleInputs|
  {
    Row("inputs", possibleInputs[i], "?", I[i])
  }

  /** The row for a positive flow: `(process_ids[a], process_ids[b], '?', F[a, b])`. */
  function FlowRow(processIds: seq<string>, F: Matrix, c: (nat, nat)): Row
    requires c.0 < |F| && c.1 < |F[c.0]| && c.0 < |processIds| && c.1 < |processIds|
  {
    Row(processIds[c.0], processIds[c.1], "?", F[c.0][c.1])
  }

  /** The input rows for a list of input positions. */
  function InputRows(possibleInputs: seq<string>, I: seq<real>, idx: seq<nat>): (r: seq<Row>)
    requires |I| <= |possibleInputs| && forall k :: 0 <= k < |idx| ==> idx[k] < |I|
    ensures |r| == |idx| && forall k :: 0 <= k < |idx| ==> r[k] == InputRow(possibleInputs, I, idx[k])
  {
    seq(|idx|, k requires 0 <= k < |idx| => InputRow(possibleInputs, I, idx[k]))
  }

  /** The flow rows for a list of cells. */
  function FlowRows(processIds: seq<string>, F: Matrix, np: nat, cells: seq<(nat, nat)>): (r: seq<Row>)
    requires Covers(F, np) && np <= |processIds|
    requires forall k :: 0 <= k < |cells| ==> cells[k].0 < np && cells[k].1 < np
    ensures |r| == |cells| && forall k :: 0 <= k < |cells| ==> r[k] == FlowRow(processIds, F, cells[k])
  {
    seq(|cells|, k requires 0 <= k < |cells| => FlowRow(processIds, F, cells[k]))
  }

  lemma InputRowsAppend(possibleInputs: seq<string>, I: seq<real>, idx: seq<nat>, i: nat)
    requires |I| <= |possibleInputs| && i < |I| && forall k :: 0 <= k < |idx| ==> idx[k] < |I|
    ensures InputRows(possibleInputs, I, idx + [i]) == InputRows(possibleInputs, I, idx) + [InputRow(possibleInputs, I, i)]
  {
  }

  lemma FlowRowsAppend(processIds: seq<string>, F: Matrix, np: nat, cells: seq<(nat, nat)>, c: (nat, nat))
    requires Covers(F, np) && np <= |processIds| && c.0 < np && c.1 < np
    requires forall k :: 0 <= k < |cells| ==> cells[k].0 < np && cells[k].1 < np
    ensures FlowRows(processIds, F, np, cells + [c]) == FlowRows(processIds, F, np, cells) + [FlowRow(processIds, F, c)]
  {
  }

  /** What a call of `inputs_flows_as_dataframe` needs of its arguments to run without an IndexError. */
  predicate Shaped(possibleInputs: seq<string>, I: seq<real>, processIds: seq<string>, F: Matrix) {
    |I| <= |possibleInputs| && Covers(F, |F|) && |F| <= |processIds|
  }

  /** The rows of `inputs_flows_as_dataframe`: the positive inputs in order, then the positive flows in row-major order. */
  function DataFrameRows(possibleInputs: seq<string>, I: seq<real>, processIds: seq<string>, F: Matrix): (r: seq<Row>)
    requires Shaped(possibleInputs, I, processIds, F)
    ensures forall k :: 0 <= k < |r| ==> r[k].material == "?" && r[k].value > 0.0
  {
    PositiveIndicesPositive(I, |I|);
    PositiveCellsBefore(F, |F|, |F|, 0);
    InputRows(possibleInputs, I, PositiveIndices(I, |I|))
      + FlowRows(processIds, F, |F|, PositiveCells(F, |F|, |F|, 0))
  }

  /** `inputs_flows_as_dataframe`: the records of the data frame, built by appending in the loops of the source. */
  method InputsFlowsAsRows(possibleInputs: seq<string>, I: seq<real>, processIds: seq<string>, F: Matrix)
    returns (flows: seq<Row>)
    requires Shaped(possibleInputs, I, processIds, F)
    ensures flows == DataFrameRows(possibleInputs, I, processIds, F)
  {
    flows := [];
    var np := |F|;
    for i := 0 to |I|
      invariant flows == InputRows(possibleInputs, I, PositiveIndices(I, i))
    {
      if I[i] > 0.0 {
        InputRowsAppend(possibleInputs, I, PositiveIndices(I, i), i);
        flows := flows + [Row("inputs", possibleInputs[i], "?", I[i])];
      }
    }
    var inputRows := flows;
    for i := 0 to np
      invariant flows == inputRows + FlowRows(processIds, F, np, PositiveCells(F, np, i, 0))
    {
      flows := AppendRowFlows(processIds, F, np, i, inputRows, flows);
    }
  }

  /** One pass of the inner loop over `j`: the rows of the positive flows out of process `i`, in order. */
  method AppendRowFlows(processIds: seq<string>, F: Matrix, np: nat, i: nat, before: seq<Row>, flows: seq<Row>)
    returns (out: seq<Row>)
    requires Covers(F, np) && np <= |processIds| && i < np
    requires flows == before + FlowRows(processIds, F, np, PositiveCells(F, np, i, 0))
    ensures out == before + FlowRows(processIds, F, np, PositiveCells(F, np, i + 1, 0))
  {
    out := flows;
    for j := 0 to np
      invariant out == before + FlowRows(processIds, F, np, PositiveCells(F, np, i, j))
    {
      if F[i][j] > 0.0 {
        var cells := PositiveCells(F, np, i, j);
        FlowRowsAppend(processIds, F, np, cells, (i, j));
        assert PositiveCells(F, np, i, j + 1) == cells + [(i, j)];
        out := out + [Row(processIds[i], processIds[j], "?", F[i][j])];
      }
    }
    assert PositiveCells(F, np, i + 1, 0) == PositiveCells(F, np, i, np);
  }

  /** Every row of the data frame is the row of a positive input or of a positive flow. */
  lemma DataFrameRowsSound(possibleInputs: seq<string>, I: seq<real>, processIds: seq<string>, F: Matrix, r: Row)
    requires Shaped(possibleInputs, I, processIds, F)
    requires r in DataFrameRows(possibleInputs, I, processIds, F)
    ensures (exists i :: 0 <= i < |I| && I[i] > 0.0 && r == InputRow(possibleInputs, I, i)) ||
            (exists a, b :: 0 <= a < |F| && 0 <= b < |F| && F[a][b] > 0.0 && r == FlowRow(processIds, F, (a, b)))
    ensures r.material == "?" && r.value > 0.0
  {
    var idx := PositiveIndices(I, |I|);
    var cells := PositiveCells(F, |F|, |F|, 0);
    var ins, fls := InputRows(possibleInputs, I, idx), FlowRows(processIds, F, |F|, cells);
    assert DataFrameRows(possibleInputs, I, processIds, F) == ins + fls;
    if r in ins {
      PositiveIndicesExact(I, |I|);
      var k :| 0 <= k < |ins| && ins[k] == r;
      assert r == InputRow(possibleInputs, I, idx[k]);
    } else {
      PositiveCellsBefore(F, |F|, |F|, 0);
      var k :| 0 <= k < |fls| && fls[k] == r;
      var c := cells[k];
      assert F[cells[k].0][cells[k].1] > 0.0;
      assert r == FlowRow(processIds, F, (c.0, c.1));
    }
  }

  /** The row of every positive input and of every positive flow is in the data frame. */
  lemma DataFrameRowsComplete(possibleInputs: seq<string>, I: seq<real>, processIds: seq<string>, F: Matrix)
    requires Shaped(possibleInputs, I, processIds, F)
    ensures forall i :: 0 <= i < |I| && I[i] > 0.0 ==>
              InputRow(possibleInputs, I, i) in DataFrameRows(possibleInputs, I, processIds, F)
    ensures forall a, b :: 0 <= a < |F| && 0 <= b < |F| && F[a][b] > 0.0 ==>
              FlowRow(processIds, F, (a, b)) in DataFrameRows(possibleInputs, I, processIds, F)
  {
    var idx := PositiveIndices(I, |I|);
    var cells := PositiveCells(F, |F|, |F|, 0);
    var ins, fls := InputRows(possibleInputs, I, idx), FlowRows(processIds, F, |F|, cells);
    assert DataFrameRows(possibleInputs, I, processIds, F) == ins + fls;
    forall i | 0 <= i < |I| && I[i] > 0.0
      ensures InputRow(possibleInputs, I, i) in ins
    {
      PositiveIndicesExact(I, |I|);
      var k :| 0 <= k < |idx| && idx[k] == i;
      assert ins[k] == InputRow(possibleInputs, I, i);
    }
    forall a, b | 0 <= a < |F| && 0 <= b < |F| && F[a][b] > 0.0
      ensures FlowRow(processIds, F, (a, b)) in fls
    {
      PositiveCellsComplete(F, |F|, |F|, 0, a, b);
      var k :| 0 <= k < |cells| && cells[k] == (a, b);
      assert fls[k] == FlowRow(processIds, F, (a, b));
    }
  }

  /** The data frame has one row per positive input and one per positive flow. */
  lemma DataFrameRowsCount(possibleInputs: seq<string>, I: seq<real>, processIds: seq<string>, F: Matrix)
    requires Shaped(possibleInputs, I, processIds, F)
    ensures |DataFrameRows(possibleInputs, I, processIds, F)| == CountPositive(I) + CountPositiveRows(F, |F|, |F|)
  {
    assert I[..|I|] == I;
    PositiveCellsCount(F, |F|, |F|, 0);
  }

  /**
   * The first rows, one per positive input, have the source `inputs`; the
   * flow rows follow, each with a process as its source, and their cells
   * are in row-major order.
   */
  lemma DataFrameRowsLayout(possibleInputs: seq<string>, I: seq<real>, processIds: seq<string>, F: Matrix)
    requires Shaped(possibleInputs, I, processIds, F)
    ensures forall k :: 0 <= k < CountPositive(I) ==> DataFrameRows(possibleInputs, I, processIds, F)[k].source == "inputs"
    ensures forall k :: CountPositive(I) <= k < |DataFrameRows(possibleInputs, I, processIds, F)| ==>
              DataFrameRows(possibleInputs, I, processIds, F)[k].source in processIds[..|F|]
    ensures forall k, l :: 0 <= k < l < |PositiveCells(F, |F|, |F|, 0)| ==>
              CellBefore(PositiveCells(F, |F|, |F|, 0)[k], PositiveCells(F, |F|, |F|, 0)[l])
  {
    var idx := PositiveIndices(I, |I|);
    var cells := PositiveCells(F, |F|, |F|, 0);
    var rows := DataFrameRows(possibleInputs, I, processIds, F);
    DataFrameRowsCount(possibleInputs, I, processIds, F);
    assert I[..|I|] == I;
    PositiveCellsSorted(F, |F|, |F|, 0);
    forall k | CountPositive(I) <= k < |rows|
      ensures rows[k].source in processIds[..|F|]
    {
      var c := cells[k - |idx|];
      assert rows[k] == FlowRow(processIds, F, c);
      assert processIds[..|F|][c.0] == processIds[c.0];
    }
  }

  /**
   * Where the slice `[start::step]` of a sequence of length `n` begins:
   * a negative start counts from the end, and the result is clamped to the
   * first index or one past the last in the walking direction.
   */
  function SliceStart(n: nat, start: int, step: int): (r: int)
    requires step != 0
    ensures step > 0 ==> 0 <= r <= n
    ensures step < 0 ==> -1 <= r < n
    ensures 0 <= start < n ==> r == start
  {
    var s := if start < 0 then start + n else start;
    if step > 0 then
      (if s < 0 then 0 else if s > n then n else s)
    else
      (if s < 0 then -1 else if s >= n then n - 1 else s)
  }

  /** The indices `i, i + step, i + 2 * step, ...` while they stay in `[0, n)`. */
  function Walk(n: nat, i: int, step: int): (r: seq<nat>)
    requires step != 0
    ensures forall k :: 0 <= k < |r| ==> r[k] < n
    decreases if step > 0 then n - i else i + 1
  {
    if i < 0 || i >= n then [] else [i as nat] + Walk(n, i + step, step)
  }

  /** The indices a slice `[start::step]` keeps, or the `ValueError` of a zero step. */
  function SliceIndices(n: nat, start: int, step: int): (r: Result<seq<nat>, SliceError>)
    ensures r.Err? <==> step == 0
    ensures r.Ok? ==> forall k :: 0 <= k < |r.value| ==> r.value[k] < n
  {
    if step == 0 then Err(ZeroStep) else Ok(Walk(n, SliceStart(n, start, step), step))
  }

  /** `s[start::step]`. */
  function Slice<T>(s: seq<T>, start: int, step: int): (r: Result<seq<T>, SliceError>)
    ensures r.Err? <==> step == 0
    ensures r.Ok? ==> var idx := SliceIndices(|s|, start, step).value;
                      |r.value| == |idx| && forall k :: 0 <= k < |idx| ==> r.value[k] == s[idx[k]]
  {
    match SliceIndices(|s|, start, step)
    case Err(e) => Err(e)
    case Ok(idx) => Ok(seq(|idx|, k requires 0 <= k < |idx| => s[idx[k]]))
  }

  /** A walk starts where it is told to and moves by `step` each time. */
  lemma {:induction false} WalkSteps(n: nat, i: int, step: int)
    requires step != 0
    ensures |Walk(n, i, step)| > 0 <==> 0 <= i < n
    ensures |Walk(n, i, step)| > 0 ==> Walk(n, i, step)[0] == i
    ensures forall k :: 0 <= k < |Walk(n, i, step)| - 1 ==> Walk(n, i, step)[k + 1] == Walk(n, i, step)[k] + step
    decreases if step > 0 then n - i else i + 1
  {
    if 0 <= i < n {
      var w, w' := Walk(n, i, step), Walk(n, i + step, step);
      assert w == [i as nat] + w';
      WalkSteps(n, i + step, step);
      forall k | 0 <= k < |w| - 1
        ensures w[k + 1] == w[k] + step
      {
        assert w[k + 1] == w'[k];
        if k > 0 {
          assert w[k] == w'[k - 1];
        }
      }
    }
  }

  lemma MulNonNegative(a: int, b: int)
    requires a >= 0 && b >= 0
    ensures a * b >= 0
  {
  }

  /** A multiple of a positive `d` strictly between `-d` and `d` is zero. */
  lemma SmallMultiple(k: int, d: int)
    requires d > 0 && -d < k * d < d
    ensures k == 0
  {
    if k > 0 {
      MulNonNegative(k - 1, d);
    } else if k < 0 {
      MulNonNegative(-k - 1, d);
    }
  }

  /** Adding the divisor leaves the remainder unchanged. */
  lemma ModShift(x: int, step: int)
    requires step > 0
    ensures (x + step) % step == x % step
  {
    var q, r := x / step, x % step;
    var q', r' := (x + step) / step, (x + step) % step;
    assert (q' - q - 1) * step == r - r';
    SmallMultiple(q' - q - 1, step);
  }

  /** A forward walk from `i` keeps exactly the indices below `n` that are `i` plus a multiple of `step`. */
  lemma {:induction false} WalkForward(n: nat, i: int, step: int, m: int)
    requires step > 0 && i >= 0
    ensures m in Walk(n, i, step) <==> i <= m < n && (m - i) % step == 0
    decreases n - i
  {
    if 0 <= i < n {
      var w' := Walk(n, i + step, step);
      assert Walk(n, i, step) == [i as nat] + w';
      WalkForward(n, i + step, step, m);
      ModShift(m - i - step, step);
      if i < m < i + step {
        assert 0 < m - i < step;
      }
    }
  }

  /**
   * With a burn-in `nburn >= 0` and a thinning `thin > 0`, the slice keeps
   * the draws `nburn, nburn + thin, nburn + 2 * thin, ...` that exist, in
   * that order, and no other.
   */
  lemma BurnAndThin(n: nat, nburn: int, thin: int)
    requires nburn >= 0 && thin > 0
    ensures SliceIndices(n, nburn, thin).Ok?
    ensures var idx := SliceIndices(n, nburn, thin).value;
            && (forall m :: m in idx <==> nburn <= m < n && (m - nburn) % thin == 0)
            && (|idx| > 0 <==> nburn < n)
            && (|idx| > 0 ==> idx[0] == nburn)
            && (forall k :: 0 <= k < |idx| - 1 ==> idx[k + 1] == idx[k] + thin)
  {
    var start := SliceStart(n, nburn, thin);
    assert start == if nburn > n then n else nburn;
    WalkSteps(n, start, thin);
    forall m
      ensures m in Walk(n, start, thin) <==> nburn <= m < n && (m - nburn) % thin == 0
    {
      WalkForward(n, start, thin, m);
    }
  }

  /** A sample row: a data-frame row with the position of its draw in the thinned trace. */
  function Tag(rows: seq<Row>, t: nat): (r: seq<SampleRow>)
    ensures |r| == |rows|
    ensures forall k :: 0 <= k < |rows| ==> r[k].sample == t
  {
    seq(|rows|, k requires 0 <= k < |rows| =>
      SampleRow(rows[k].source, rows[k].target, rows[k].material, t, rows[k].value))
  }

  /** A sample row without its sample column. */
  function Untag(r: SampleRow): Row {
    Row(r.source, r.target, r.material, r.value)
  }

  /** Dropping the sample column of tagged rows gives the rows back. */
  lemma UntagTag(rows: seq<Row>, t: nat)
    ensures forall k :: 0 <= k < |rows| ==> Untag(Tag(rows, t)[k]) == rows[k]
  {
  }

  lemma TagAppend(a: seq<Row>, b: seq<Row>, t: nat)
    ensures Tag(a + b, t) == Tag(a, t) + Tag(b, t)
  {
  }

  /** The draws of a trace have the shapes that `flows_from_trace` indexes without an IndexError. */
  predicate TraceShaped(possibleInputs: seq<string>, processIds: seq<string>, inputs: seq<seq<real>>, flows: seq<Matrix>, np: nat) {
    && |inputs| == |flows|
    && AllSquare(flows, np)
    && np <= |processIds|
    && (forall s :: 0 <= s < |inputs| ==> |inputs[s]| <= |possibleInputs|)
  }

  /** The draws `inputs[s]` and `flows[s]` meet the demands of `inputs_flows_as_dataframe`. */
  lemma TraceShapedSample(possibleInputs: seq<string>, processIds: seq<string>, inputs: seq<seq<real>>, flows: seq<Matrix>, np: nat, s: nat)
    requires TraceShaped(possibleInputs, processIds, inputs, flows, np) && s < |flows|
    ensures Shaped(possibleInputs, inputs[s], processIds, flows[s]) && |flows[s]| == np
  {
  }

  /** The rows of the first `n` draws: the data frame of each draw, tagged with its position, one draw after the other. */
  function TraceRows(possibleInputs: seq<string>, processIds: seq<string>, inputs: seq<seq<real>>, flows: seq<Matrix>, np: nat, n: nat): (r: seq<SampleRow>)
    requires TraceShaped(possibleInputs, processIds, inputs, flows, np) && n <= |flows|
    ensures forall k :: 0 <= k < |r| ==> r[k].sample < n
  {
    if n == 0 then []
    else
      TraceShapedSample(possibleInputs, processIds, inputs, flows, np, n - 1);
      TraceRows(possibleInputs, processIds, inputs, flows, np, n - 1)
        + Tag(DataFrameRows(possibleInputs, inputs[n - 1], processIds, flows[n - 1]), n - 1)
  }

  /** Every sample row of the first `n` draws comes from one of them, and the rows of draw `t` are its data frame. */
  lemma {:induction false} TraceRowsMembers(possibleInputs: seq<string>, processIds: seq<string>, inputs: seq<seq<real>>, flows: seq<Matrix>, np: nat, n: nat, r: SampleRow)
    requires TraceShaped(possibleInputs, processIds, inputs, flows, np) && n <= |flows|
    ensures r in TraceRows(possibleInputs, processIds, inputs, flows, np, n) <==>
              r.sample < n && Untag(r) in DataFrameRows(possibleInputs, inputs[r.sample], processIds, flows[r.sample])
  {
    if n > 0 {
      TraceRowsMembers(possibleInputs, processIds, inputs, flows, np, n - 1, r);
      var before := TraceRows(possibleInputs, processIds, inputs, flows, np, n - 1);
      var rows := DataFrameRows(possibleInputs, inputs[n - 1], processIds, flows[n - 1]);
      var tagged := Tag(rows, n - 1);
      assert TraceRows(possibleInputs, processIds, inputs, flows, np, n) == before + tagged;
      TaggedMembers(rows, n - 1, r);
    }
  }

  /** A sample row is among the rows tagged with `t` exactly when it carries `t` and its untagged row is among them. */
  lemma TaggedMembers(rows: seq<Row>, t: nat, r: SampleRow)
    ensures r in Tag(rows, t) <==> r.sample == t && Untag(r) in rows
  {
    var tagged := Tag(rows, t);
    if r in tagged {
      var k :| 0 <= k < |tagged| && tagged[k] == r;
      assert Untag(r) == rows[k];
    }
    if r.sample == t && Untag(r) in rows {
      var k :| 0 <= k < |rows| && rows[k] == Untag(r);
      assert tagged[k] == r;
    }
  }

  /** The sample column never decreases: the rows of each draw come together, in the order of the draws. */
  lemma {:induction false} TraceRowsGrouped(possibleInputs: seq<string>, processIds: seq<string>, inputs: seq<seq<real>>, flows: seq<Matrix>, np: nat, n: nat)
    requires TraceShaped(possibleInputs, processIds, inputs, flows, np) && n <= |flows|
    ensures forall k :: 0 <= k < |TraceRows(possibleInputs, processIds, inputs, flows, np, n)| ==>
              TraceRows(possibleInputs, processIds, inputs, flows, np, n)[k].sample < n
    ensures forall k, l :: 0 <= k < l < |TraceRows(possibleInputs, processIds, inputs, flows, np, n)| ==>
              TraceRows(possibleInputs, processIds, inputs, flows, np, n)[k].sample <=
              TraceRows(possibleInputs, processIds, inputs, flows, np, n)[l].sample
  {
    if n > 0 {
      TraceRowsGrouped(possibleInputs, processIds, inputs, flows, np, n - 1);
      var before := TraceRows(possibleInputs, processIds, inputs, flows, np, n - 1);
      var tagged := Tag(DataFrameRows(possibleInputs, inputs[n - 1], processIds, flows[n - 1]), n - 1);
      var all := TraceRows(possibleInputs, processIds, inputs, flows, np, n);
      assert all == before + tagged;
      forall k | 0 <= k < |all|
        ensures all[k].sample < n && (k >= |before| ==> all[k].sample == n - 1)
      {
        if k < |before| {
          assert all[k] == before[k];
        } else {
          assert all[k] == tagged[k - |before|];
        }
      }
      forall k, l | 0 <= k < l < |all|
        ensures all[k].sample <= all[l].sample
      {
        if l < |before| {
          assert all[k] == before[k] && all[l] == before[l];
        }
      }
    }
  }

  /** The number of rows of the first `n` draws: their positive inputs and positive flows. */
  function CountTraceRows(inputs: seq<seq<real>>, flows: seq<Matrix>, np: nat, n: nat): nat
    requires n <= |inputs| && n <= |flows| && AllSquare(flows, np)
  {
    if n == 0 then 0
    else CountTraceRows(inputs, flows, np, n - 1) + CountPositive(inputs[n - 1]) + CountPositiveRows(flows[n - 1], np, np)
  }

  lemma {:induction false} TraceRowsCount(possibleInputs: seq<string>, processIds: seq<string>, inputs: seq<seq<real>>, flows: seq<Matrix>, np: nat, n: nat)
    requires TraceShaped(possibleInputs, processIds, inputs, flows, np) && n <= |flows|
    ensures |TraceRows(possibleInputs, processIds, inputs, flows, np, n)| == CountTraceRows(inputs, flows, np, n)
  {
    if n > 0 {
      TraceRowsCount(possibleInputs, processIds, inputs, flows, np, n - 1);
      TraceShapedSample(possibleInputs, processIds, inputs, flows, np, n - 1);
      var before := TraceRows(possibleInputs, processIds, inputs, flows, np, n - 1);
      var rows := DataFrameRows(possibleInputs, inputs[n - 1], processIds, flows[n - 1]);
      assert TraceRows(possibleInputs, processIds, inputs, flows, np, n) == before + Tag(rows, n - 1);
      DataFrameRowsCount(possibleInputs, inputs[n - 1], processIds, flows[n - 1]);
      assert |flows[n - 1]| == np;
      assert CountTraceRows(inputs, flows, np, n) == |before| + |rows|;
    }
  }

  /** One pass of the outer loop of `flows_from_trace`: the rows of draw `t`, appended to `rows`. */
  method AppendSample(possibleInputs: seq<string>, processIds: seq<string>, I: seq<real>, F: Matrix, np: nat, t: nat, rows: seq<SampleRow>)
    returns (out: seq<SampleRow>)
    requires |I| <= |possibleInputs| && IsSquare(F, np) && np <= |processIds|
    ensures Shaped(possibleInputs, I, processIds, F)
    ensures out == rows + Tag(DataFrameRows(possibleInputs, I, processIds, F), t)
  {
    var inputRows := InputRows(possibleInputs, I, PositiveIndices(I, |I|));
    out := AppendSampleInputs(possibleInputs, I, t, rows);
    var mid := out;
    for j := 0 to np
      invariant out == mid + Tag(FlowRows(processIds, F, np, PositiveCells(F, np, j, 0)), t)
    {
      out := AppendSampleRowFlows(processIds, F, np, j, t, mid, out);
    }
    TagAppend(inputRows, FlowRows(processIds, F, np, PositiveCells(F, np, np, 0)), t);
  }

  /** The loop over the inputs of draw `t`: the rows of its positive inputs, in order. */
  method AppendSampleInputs(possibleInputs: seq<string>, I: seq<real>, t: nat, rows: seq<SampleRow>)
    returns (out: seq<SampleRow>)
    requires |I| <= |possibleInputs|
    ensures out == rows + Tag(InputRows(possibleInputs, I, PositiveIndices(I, |I|)), t)
  {
    out := rows;
    for j := 0 to |I|
      invariant out == rows + Tag(InputRows(possibleInputs, I, PositiveIndices(I, j)), t)
    {
      TaggedInputStep(possibleInputs, I, j, t);
      if I[j] > 0.0 {
        out := out + [SampleRow("inputs", possibleInputs[j], "?", t, I[j])];
      }
    }
  }

  /** The tagged input rows grow by the row of input `j` when it is positive, and not otherwise. */
  lemma TaggedInputStep(possibleInputs: seq<string>, I: seq<real>, j: nat, t: nat)
    requires j < |I| <= |possibleInputs|
    ensures Tag(InputRows(possibleInputs, I, PositiveIndices(I, j + 1)), t)
         == Tag(InputRows(possibleInputs, I, PositiveIndices(I, j)), t)
              + (if I[j] > 0.0 then [SampleRow("inputs", possibleInputs[j], "?", t, I[j])] else [])
  {
    var idx := PositiveIndices(I, j);
    if I[j] > 0.0 {
      assert PositiveIndices(I, j + 1) == idx + [j];
      InputRowsAppend(possibleInputs, I, idx, j);
      TagAppend(InputRows(possibleInputs, I, idx), [InputRow(possibleInputs, I, j)], t);
    } else {
      assert PositiveIndices(I, j + 1) == idx;
    }
  }

  /** The loops over `j` and `k` for process `j` of draw `t`: the rows of its positive flows, in order. */
  method AppendSampleRowFlows(processIds: seq<string>, F: Matrix, np: nat, i: nat, t: nat, before: seq<SampleRow>, rows: seq<SampleRow>)
    returns (out: seq<SampleRow>)
    requires Covers(F, np) && np <= |processIds| && i < np
    requires rows == before + Tag(FlowRows(processIds, F, np, PositiveCells(F, np, i, 0)), t)
    ensures out == before + Tag(FlowRows(processIds, F, np, PositiveCells(F, np, i + 1, 0)), t)
  {
    out := rows;
    for j := 0 to np
      invariant out == before + Tag(FlowRows(processIds, F, np, PositiveCells(F, np, i, j)), t)
    {
      if F[i][j] > 0.0 {
        var cells := PositiveCells(F, np, i, j);
        FlowRowsAppend(processIds, F, np, cells, (i, j));
        TagAppend(FlowRows(processIds, F, np, cells), [FlowRow(processIds, F, (i, j))], t);
        assert PositiveCells(F, np, i, j + 1) == cells + [(i, j)];
        out := out + [SampleRow(processIds[i], processIds[j], "?", t, F[i][j])];
      }
    }
    assert PositiveCells(F, np, i + 1, 0) == PositiveCells(F, np, i, np);
  }

  /**
   * `flows_from_trace`: the draws `[nburn::thin]` of the inputs and of the
   * flows, and the rows of each kept draw tagged with its position among the
   * kept draws; a zero `thin` is the `ValueError` of the slice.
   */
  method FlowsFromTrace(possibleInputs: seq<string>, processIds: seq<string>, inputsTrace: seq<seq<real>>, flowTrace: seq<Matrix>,
                        np: nat, nburn: int, thin: int)
    returns (r: Result<seq<SampleRow>, SliceError>)
    requires TraceShaped(possibleInputs, processIds, inputsTrace, flowTrace, np)
    ensures r.Err? <==> thin == 0
    ensures r.Ok? ==> var inputs, flows := Slice(inputsTrace, nburn, thin).value, Slice(flowTrace, nburn, thin).value;
                      && TraceShaped(possibleInputs, processIds, inputs, flows, np)
                      && r.value == TraceRows(possibleInputs, processIds, inputs, flows, np, |flows|)
  {
    var inputsSlice, flowsSlice := Slice(inputsTrace, nburn, thin), Slice(flowTrace, nburn, thin);
    if thin == 0 {
      return Err(ZeroStep);
    }
    var inputs, flows := inputsSlice.value, flowsSlice.value;
    assert TraceShaped(possibleInputs, processIds, inputs, flows, np);
    var rows := [];
    for i := 0 to |flows|
      invariant rows == TraceRows(possibleInputs, processIds, inputs, flows, np, i)
    {
      rows := AppendSample(possibleInputs, processIds, inputs[i], flows[i], np, i, rows);
    }
    return Ok(rows);
  }
}
