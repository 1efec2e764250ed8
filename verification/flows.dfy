/**
 * The flow matrix of the Leontief model and the balances it satisfies.
 *
 * The source obtains the throughputs `X` by solving `(I - A) X = inputs` with a
 * matrix inverse. The solve is not computed here: the balance lemmas take the
 * equilibrium `X = A X + inputs` as a hypothesis. From it follow the balance at
 * every process (inflow plus external input equals throughput), the balance of
 * every writing process (outflow equals throughput) and the balance of the
 * whole system (external inputs equal what is not passed on, i.e. what ends in
 * sinks).
 */
module Flows {
  import opened Common
  import opened RealSeqs
  import opened ProcessKinds
  import opened Network

  /**
   * `F = A.T * X[:, None]`: row `j` of the flow matrix is column `j` of the
   * transfer coefficients scaled by process `j`'s throughput, so `F[j][i]` is
   * the flow from process `j` to process `i`.
   */
  function FlowMatrix(A: Matrix, X: seq<real>): (F: Matrix)
    requires IsSquare(A, |X|)
    ensures IsSquare(F, |X|)
    ensures forall j, i :: 0 <= j < |X| && 0 <= i < |X| ==> F[j][i] == X[j] * A[i][j]
  {
    seq(|X|, j requires 0 <= j < |X| => Scale(Column(A, j), X[j]))
  }

  /** What the matrix-inverse solve delivers: `X = A X + inputs`, row by row. */
  predicate Equilibrium(A: Matrix, X: seq<real>, I: seq<real>) {
    && IsSquare(A, |X|)
    && |I| == |X|
    && forall i :: 0 <= i < |X| ==> X[i] == Dot(A[i], X) + I[i]
  }

  /** Process `j` sends on the share of its throughput that its column adds up to. */
  lemma Outflow(A: Matrix, X: seq<real>, j: nat)
    requires IsSquare(A, |X|) && j < |X|
    ensures Sum(FlowMatrix(A, X)[j]) == X[j] * Sum(Column(A, j))
  {
    SumScale(Column(A, j), X[j]);
  }

  /** Balance at each process: what flows in from other processes plus its external input is its throughput. */
  lemma InflowBalance(A: Matrix, X: seq<real>, I: seq<real>)
    requires Equilibrium(A, X, I)
    ensures forall i :: 0 <= i < |X| ==> Sum(Column(FlowMatrix(A, X), i)) + I[i] == X[i]
  {
    forall i | 0 <= i < |X|
      ensures Sum(Column(FlowMatrix(A, X), i)) + I[i] == X[i]
    {
      Inflow(A, X, i);
    }
  }

  /** What flows into process `i` is row `i` of the coefficients applied to the throughputs. */
  lemma Inflow(A: Matrix, X: seq<real>, i: nat)
    requires IsSquare(A, |X|) && i < |X|
    ensures Sum(Column(FlowMatrix(A, X), i)) == Dot(A[i], X)
  {
    var c := Column(FlowMatrix(A, X), i);
    var p := seq(|A[i]|, k requires 0 <= k < |A[i]| => A[i][k] * X[k]);
    forall k | 0 <= k < |X|
      ensures c[k] == p[k]
    {
      assert c[k] == X[k] * A[i][k];
    }
    assert c == p;
  }

  /**
   * Balance of the whole system: the external inputs add up to the total
   * throughput less the total of the flows between processes.
   */
  lemma MassBalance(A: Matrix, X: seq<real>, I: seq<real>)
    requires Equilibrium(A, X, I)
    ensures Sum(I) == Sum(X) - Total(FlowMatrix(A, X))
  {
    var F := FlowMatrix(A, X);
    InflowBalance(A, X, I);
    TotalByColumns(F, |X|);
    SumDifference(X, I, ColumnSums(F, |X|));
  }

  /** The throughput of each process that does not write a column (a sink), zero for the others. */
  function SinkThroughputs(g: Graph, params: seq<Option<seq<real>>>, X: seq<real>): (r: seq<real>)
    requires |params| == |g| == |X|
    ensures |r| == |X|
    ensures forall j :: 0 <= j < |X| ==> r[j] == if Writes(g, params, j) then 0.0 else X[j]
  {
    seq(|X|, j requires 0 <= j < |X| => if Writes(g, params, j) then 0.0 else X[j])
  }

  /**
   * The same balance over the transfer-coefficient matrix of a network whose
   * writing processes all have valid samples and distinct outputs: everything
   * that enters ends in the processes that do not write a column, the sinks.
   */
  lemma InputsEndInSinks(g: Graph, params: seq<Option<seq<real>>>, X: seq<real>, I: seq<real>)
    requires ParamsMatch(g, params) && Resolvable(g, params) && |X| == |g|
    requires forall j :: 0 <= j < |g| && params[j].Some? ==> ValidSample(g[j].process, params[j].value)
    requires forall j :: 0 <= j < |g| ==> DistinctNames(g[j].process.outputs)
    requires Equilibrium(TransferMatrix(g, params), X, I)
    ensures Sum(I) == Sum(SinkThroughputs(g, params, X))
  {
    var A := TransferMatrix(g, params);
    var F := FlowMatrix(A, X);
    var outflows := RowSums(F);
    forall j | 0 <= j < |X|
      ensures outflows[j] == if Writes(g, params, j) then X[j] else 0.0
    {
      assert Column(A, j) == TransferColumn(g, params, j);
      assert Resolves(g, params, j);
      TransferColumnSum(g, params, j);
      Outflow(A, X, j);
    }
    MassBalance(A, X, I);
    TotalByRows(F);
    SumDifference(X, outflows, SinkThroughputs(g, params, X));
  }

  /**
   * `flows / process_throughputs[None, :]`: entry `[j][i]` is the share of
   * process `i`'s throughput that comes from process `j`. Defined where no
   * throughput is zero (numpy gives a non-finite value there).
   */
  function InflowFractions(F: Matrix, X: seq<real>): (R: Matrix)
    requires IsSquare(F, |X|) && forall i :: 0 <= i < |X| ==> X[i] != 0.0
    ensures IsSquare(R, |X|)
    ensures forall j, i :: 0 <= j < |X| && 0 <= i < |X| ==> R[j][i] == Ratio(F[j][i], X[i])
  {
    seq(|X|, j requires 0 <= j < |X| =>
      seq(|X|, i requires 0 <= i < |X| => Ratio(F[j][i], X[i])))
  }

  /**
   * The inflow fractions of a process add up to the part of its throughput
   * not supplied from outside; for a process without external input they add
   * up to one.
   */
  lemma InflowFractionsSum(A: Matrix, X: seq<real>, I: seq<real>, i: nat)
    requires Equilibrium(A, X, I) && i < |X|
    requires forall k :: 0 <= k < |X| ==> X[k] != 0.0
    ensures Sum(Column(InflowFractions(FlowMatrix(A, X), X), i)) == Ratio(X[i] - I[i], X[i])
    ensures I[i] == 0.0 ==> Sum(Column(InflowFractions(FlowMatrix(A, X), X), i)) == 1.0
  {
    var F := FlowMatrix(A, X);
    var inflow, fractions := Column(F, i), Column(InflowFractions(F, X), i);
    SumRatio(inflow, X[i], fractions);
    InflowBalance(A, X, I);
    if I[i] == 0.0 {
      RatioSelf(X[i]);
    }
  }

  /**
   * `get_flow`: the sampled flows from `source` to `target`, one per sample of
   * the trace, each sample being a flow matrix indexed `[source, target]`;
   * `None` is the KeyError of an id that is not a process.
   */
  function GetFlow(g: Graph, trace: seq<Matrix>, source: string, target: string): (r: Option<seq<real>>)
    requires AllSquare(trace, |g|)
    ensures r.Some? <==> Pid(Keys(g), source).Some? && Pid(Keys(g), target).Some?
    ensures r.Some? ==> |r.value| == |trace|
  {
    var a, b := Pid(Keys(g), source), Pid(Keys(g), target);
    if a.None? || b.None? then None
    else Some(seq(|trace|, s requires 0 <= s < |trace| => trace[s][a.value][b.value]))
  }

  /**
   * Read back from a trace of flow matrices, `get_flow` gives for every
   * sample the throughput of the source times the share it sends to the
   * target.
   */
  lemma GetFlowReadsFlows(g: Graph, As: seq<Matrix>, Xs: seq<seq<real>>, trace: seq<Matrix>, a: nat, b: nat)
    requires DistinctNames(Keys(g)) && a < |g| && b < |g|
    requires |As| == |Xs| == |trace|
    requires forall s :: 0 <= s < |Xs| ==> |Xs[s]| == |g|
    requires AllSquare(As, |g|) && AllSquare(trace, |g|)
    requires forall s :: 0 <= s < |trace| ==> trace[s] == FlowMatrix(As[s], Xs[s])
    ensures var r := GetFlow(g, trace, g[a].id, g[b].id);
            r.Some? && forall s :: 0 <= s < |trace| ==> r.value[s] == Xs[s][a] * As[s][b][a]
  {
    PidOfPosition(Keys(g), a);
    PidOfPosition(Keys(g), b);
  }

  /** A trace as the sampler records it: the samples of each model variable, by the variable's name. */
  type NamedTrace = map<string, seq<Matrix>>

  /**
   * `get_flow` as written: it looks the flows up under the name `'flows'`;
   * `None` is the KeyError of a missing variable or of an id that is not a
   * process.
   */
  function GetFlowAsWritten(g: Graph, trace: NamedTrace, source: string, target: string): (r: Option<seq<real>>)
    requires "flows" in trace ==> AllSquare(trace["flows"], |g|)
    ensures r.Some? <==> "flows" in trace && Pid(Keys(g), source).Some? && Pid(Keys(g), target).Some?
    ensures r.Some? ==> r == GetFlow(g, trace["flows"], source, target)
  {
    if "flows" in trace then GetFlow(g, trace["flows"], source, target) else None
  }

  /** `get_flow` reading the deterministic the model declares, `'F'`. */
  function GetFlowNamed(g: Graph, trace: NamedTrace, source: string, target: string): (r: Option<seq<real>>)
    requires "F" in trace ==> AllSquare(trace["F"], |g|)
    ensures r.Some? <==> "F" in trace && Pid(Keys(g), source).Some? && Pid(Keys(g), target).Some?
    ensures r.Some? ==> r == GetFlow(g, trace["F"], source, target)
  {
    if "F" in trace then GetFlow(g, trace["F"], source, target) else None
  }

  /**
   * On a trace of the model, which records the flows under `'F'` and has no
   * variable `'flows'`, `get_flow` as written raises for every pair of
   * processes, while reading `'F'` gives the flow of every sample.
   */
  lemma GetFlowMissesF(g: Graph, trace: NamedTrace, As: seq<Matrix>, Xs: seq<seq<real>>, a: nat, b: nat)
    requires DistinctNames(Keys(g)) && a < |g| && b < |g|
    requires "flows" !in trace && "F" in trace
    requires |As| == |Xs| == |trace["F"]|
    requires forall s :: 0 <= s < |Xs| ==> |Xs[s]| == |g|
    requires AllSquare(As, |g|) && AllSquare(trace["F"], |g|)
    requires forall s :: 0 <= s < |trace["F"]| ==> trace["F"][s] == FlowMatrix(As[s], Xs[s])
    ensures GetFlowAsWritten(g, trace, g[a].id, g[b].id).None?
    ensures var r := GetFlowNamed(g, trace, g[a].id, g[b].id);
            r.Some? && forall s :: 0 <= s < |Xs| ==> r.value[s] == Xs[s][a] * As[s][b][a]
  {
    GetFlowReadsFlows(g, As, Xs, trace["F"], a, b);
  }
}
