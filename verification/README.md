# Leontief material-flow model: the deterministic core

This project models, in Dafny, the deterministic parts of a Bayesian
material-flow analysis of the global steel system. In the Python original:

- **Processes** are efficiency processes, allocation processes (Dirichlet,
  normalised-uniform, symlog and softmax) and sinks.
- Each process turns a sampled parameter vector into shares of its
  throughput sent to its outputs (its transfer functions).
- **`SplitParamModel`** builds two things from the process dictionary:
  - a transfer-coefficient matrix `A`, where column `j` holds the shares of
    process `j`, placed at the rows of its outputs;
  - an input vector.
- With the throughputs `X` of the Leontief solve, the flow matrix is
  `F[j][i] = A[i][j] X[j]`.
- **Observations** of flows and inputs become 0/1 selection tensors.
- **`define_processes`** declares the reference steel network: 72
  processes, returned as a dictionary sorted by id.
- **Two helpers** flatten a sample, or a thinned trace of samples, into
  the long-form rows of a Sankey data set.

Modules:

| file | module | what it holds |
|---|---|---|
| `common.dfy` | `Common` | `Option` and `Result` (an `Err` is a raised exception) |
| `real_seqs.dfy` | `RealSeqs` | sums, scaling, normalisation, columns and totals of real vectors and matrices |
| `strings.dfy` | `Strings` | Python's order on `str` and `sorted` by a key, proved to sort and to permute |
| `process_kinds.dfy` | `ProcessKinds` | the process classes: arity checks, `nparams`, transfer functions, `DirichletAllocationProcess.prior`, the choice made by `param_rv` |
| `network.dfy` | `Network` | the `pids` numbering, indexed assignment, `_build_matrices` as a method over a zeroed `array2` |
| `flows.dfy` | `Flows` | the flow matrix, mass balances under the equilibrium `X = A X + inputs`, inflow fractions, `get_flow` |
| `observations.dfy` | `Observations` | `_flow_observations` and `_input_observations` as methods over preallocated arrays |
| `steel_processes.dfy` | `SteelProcesses` | the steel network of `define_processes` and its well-formedness |
| `trace_sankey.dfy` | `TraceSankey` | `inputs_flows_as_dataframe`, Python slicing `[nburn::thin]` and `flows_from_trace` |

Numbers are Dafny `real`s (exact); sequences of reals stand for numpy vectors
and sequences of rows for matrices. Python's dictionaries with insertion
order are sequences of entries. An exception (`AssertionError`, `KeyError`,
`ValueError`) is an `Err` or `None` result, or a `false` success flag for the
methods.

## Model

| member | source | states |
|---|---|---|
| ProcessKinds.NewProcess | leontief_model.py:152-298 | construction succeeds exactly when the output count suits the class (two for an efficiency, at least one for an allocation, a sink has none), and then keeps kind, name and outputs; otherwise the arity assertion fails |
| ProcessKinds.EfficiencySplit | leontief_model.py:160-164 | the two shares are `eff` and `1 - eff`: they sum to one and lie in (0, 1) when `eff` does |
| ProcessKinds.TransferFunctions | leontief_model.py:160-302 | one share per output: the efficiency split, the parameters themselves for Dirichlet and normalised-uniform allocations, and for symlog and softmax exactly the normalised weights (positive, summing to one); a sink gets the empty vector, since its fresh symbolic `T.dvector()` is never used because `_build_matrices` skips processes without parameters |
| ProcessKinds.PositiveShares | leontief_model.py:252-255 | each share is its weight divided by the sum of the weights, so positive weights give positive shares that sum to one |
| ProcessKinds.SharesSumToOne | leontief_model.py:160-302 | for every kind except the sink, the shares of a valid sample are non-negative and sum to one |
| ProcessKinds.NormalisedUniformIsValid | leontief_model.py:231-236 | uniforms divided by their sum are a valid sample of a normalised-uniform allocation |
| ProcessKinds.PyIndex | leontief_model.py:197-199 | `shares[i]` exists exactly for `-n <= i < n`, counting negative indices from the end |
| ProcessKinds.PriorTotal | leontief_model.py:187-207 | raises exactly when both or neither of concentration and stddev are given; on the concentration path the total is `len(shares)` times it; on the stddev path it raises exactly when the shares sum to zero (`stddev /= factor`), exactly when the index is out of range, exactly when the normalised stddev exceeds the limit at the normalised share `m`, and otherwise returns the concentration for `m` and the normalised stddev |
| ProcessKinds.ExceedsLimit | leontief_model.py:199-201 | `stddev > limit` with `limit = sqrt(m(1-m)/(1+len(shares)))`: it holds exactly when the stddev is above the non-negative square root, and never when the radicand is negative (numpy's NaN) |
| ProcessKinds.ConcentrationFor | leontief_model.py:203-205 | `1e10` at a zero stddev, where the formula is not finite; otherwise the `a` with `(a + 1) s^2 = m(1-m)` |
| ProcessKinds.DirichletPrior | leontief_model.py:187-209 | raises exactly when the total raises, with the same error; otherwise the result sums to the total, is empty for empty shares, and is otherwise the normalised shares scaled by the total |
| ProcessKinds.PriorMatchesRequestedStddev | leontief_model.py:196-205 | on the stddev path, the marginal of share `i` under the resulting Dirichlet has exactly the requested (normalised) standard deviation |
| ProcessKinds.StddevInversion | leontief_model.py:199-203 | below the limit, the concentration formula inverts the Beta variance `m(1-m)/(a+1)` |
| ProcessKinds.PriorZeroStddevIsPointMass | leontief_model.py:203-205 | a requested stddev of zero gives a total concentration of `1e10` |
| ProcessKinds.ParamRvChoice | leontief_model.py:166-305 | the distribution each kind declares: nothing for a sink; for a normalised-uniform allocation the `no parameters` error exactly when given a definition, uniforms of `nparams` otherwise; for the efficiency and logit kinds a Normal with the given means and stds, or uniforms of `nparams` without a definition; for a Dirichlet allocation, success exactly without a definition or with a concentration vector of `nparams` entries, and then a Dirichlet over the given vector (ones by default), or the fixed share `[1]` for a single output |
| ProcessKinds.PriorFeedsParamRv | leontief_model.py:209-216 | a successful prior of the right length is accepted by the allocation's `param_rv` |
| ProcessKinds.SingleShareIsValid | leontief_model.py:215-218 | the fixed share `[1]` of a single-output allocation is a valid sample |
| Network.Keys | leontief_model.py:91 | the keys of the dictionary, in order |
| Network.Pid | leontief_model.py:91 | `pids[k]` exists exactly when `k` is a key, and is the position of its last occurrence |
| Network.PidOfPosition | leontief_model.py:91 | with distinct keys, `pids` maps each key back to its position |
| Network.Pids | leontief_model.py:99 | `[pids[k] for k in ks]` gives one position below `N` per id |
| Network.PidsAt | leontief_model.py:99 | each position in the list is the lookup of the corresponding id |
| Network.PidsResolve | leontief_model.py:99 | the list comprehension raises exactly when some id is not a key |
| Network.PidsDistinct | leontief_model.py:99-100 | distinct output ids give distinct rows |
| Network.ScatterAt | leontief_model.py:100 | after an indexed assignment each entry holds the last value written to it, or its old value |
| Network.Scatter | leontief_model.py:100 | `set_subtensor` of an indexed assignment keeps the length and leaves every entry that is not written unchanged |
| Network.ScatterDistinct | leontief_model.py:100 | with distinct indices each value lands at its index and nothing else changes |
| Network.ScatterZerosSum | leontief_model.py:103-104 | writing distinct indices of a zero vector gives a vector with the written values' sum |
| Network.OutputsResolve | leontief_model.py:93-100 | when every output names a process, no writing process makes the loop over `processes` raise |
| Network.TransferMatrix | leontief_model.py:86-106 | the matrix is N×N and its column `j` is the column of process `j` |
| Network.TransferColumn | leontief_model.py:93-100 | column `j` has one entry per process and is zero at every row that is not an output of process `j` |
| Network.InputVector | leontief_model.py:102-104 | `all_inputs` has one entry per process and is zero at every process that is not a possible input |
| Network.NonWritingColumnIsZero | leontief_model.py:94-95 | the column of a process without parameters (a sink) or without outputs stays zero |
| Network.TransferColumnEntries | leontief_model.py:96-100 | the column of a writing process holds share `m` at the row of output `m` and zero at every other row |
| Network.TransferColumnSum | leontief_model.py:96-100 | with a valid sample, the column of a writing process sums to one and any other column to zero |
| Network.InputVectorEntries | leontief_model.py:102-104 | `all_inputs` holds `inputs[m]` at the row of `possible_inputs[m]`, zero elsewhere, and has the same sum as `inputs` |
| Network.PossibleInputs | leontief_model.py:41 | `possible_inputs`, the sorted input-definition keys, has one entry per key |
| Network.PossibleInputsDistinct | leontief_model.py:41 | the sorted keys of a dictionary are strictly increasing, hence distinct, and are the same keys |
| Network.InputVectorOfInputDefs | leontief_model.py:102-104 | for the `possible_inputs` that `__init__` builds by sorting at line 41, `all_inputs` holds each sampled input at the row of its key, zero elsewhere, with the same sum |
| Network.BuildMatrices | leontief_model.py:86-106 | fresh N×N matrix and N vector; succeeds exactly when no lookup raises, and then they equal the transfer matrix and the input vector |
| Network.WriteColumn | leontief_model.py:93-100 | one process's iteration: succeeds exactly when its outputs resolve, writes its column, leaves every other column unchanged |
| Network.ScatterColumn | leontief_model.py:100 | `A[idx, j] = vals` writes column `j` only |
| Network.ScatterVector | leontief_model.py:104 | `v[idx] = vals` as an in-place assignment |
| Flows.FlowMatrix | leontief_model.py:65 | `F[j][i] = X[j] A[i][j]`, square of the same size |
| Flows.Outflow | leontief_model.py:65 | the outflow of process `j` is its throughput times the sum of its column |
| Flows.Inflow | leontief_model.py:61-65 | the inflow to process `i` is row `i` of the coefficients applied to the throughputs |
| Flows.InflowBalance | leontief_model.py:61-65 | under the equilibrium, the inflow to each process plus its external input is its throughput |
| Flows.MassBalance | leontief_model.py:61-65 | under the equilibrium, the external inputs add up to the total throughput minus the total flow |
| Flows.SinkThroughputs | leontief_model.py:94-95 | the throughput of each process that writes no column, zero for the others |
| Flows.InputsEndInSinks | leontief_model.py:59-65 | with valid samples and the equilibrium, everything that enters ends in the processes that pass nothing on |
| Flows.InflowFractions | leontief_model.py:82 | entry `[j][i]` is `F[j][i] / X[i]`, the part of process `i`'s throughput that comes from `j` |
| Flows.InflowFractionsSum | leontief_model.py:82 | the fractions into process `i` sum to `(X[i] - I[i]) / X[i]`, which is one when it has no external input |
| Flows.GetFlow | leontief_model.py:134-137 | one value per sample; succeeds exactly when both ids are processes |
| Flows.GetFlowReadsFlows | leontief_model.py:134-137 | on a trace of flow matrices, the values are `X[a] A[b][a]` of every sample |
| Flows.GetFlowAsWritten | leontief_model.py:134-137 | a value is given exactly when the trace has a variable `'flows'` and both ids are processes, and it is then the same per-sample column of that variable |
| Flows.GetFlowNamed | leontief_model.py:65 | reading the deterministic `'F'`: succeeds exactly when the trace has it and both ids are processes |
| Flows.GetFlowMissesF | leontief_model.py:134-137 | on a trace of the model (flows under `'F'`, no `'flows'`) the code as written raises for every pair, and reading `'F'` gives the flows |
| Observations.SelectedZips | leontief_model.py:116 | index lists of equal length select the pairs `(s[k], t[k])` and no others |
| Observations.SelectedBroadcasts | leontief_model.py:116 | a list of length one is paired with every element of the other |
| Observations.Pairs | leontief_model.py:116 | the pairs selected by fancy indexing with two index lists, one per position, with a list of length one repeated |
| Observations.Selected | leontief_model.py:116 | a pair is selected exactly when it is one of those pairs, and then both its ends are listed |
| Observations.PairsNotProduct | leontief_model.py:116 | two sources and two targets select two pairs, not the four of a Cartesian product |
| Observations.FlowObservations | leontief_model.py:108-119 | fresh arrays of the right shapes; succeeds exactly when every observation binds, and then row `o` is the 0/1 selection of observation `o` with its value and std copied |
| Observations.BindFlow | leontief_model.py:115-118 | one iteration: writes row `o` and index `o` only |
| Observations.SelectPairs | leontief_model.py:116 | `flow_obs[o, sources, targets] = 1` puts ones exactly at the selected pairs of row `o` |
| Observations.ObservedSinglePair | leontief_model.py:70 | the contraction of a one-pair selection with `F` is that pair's flow |
| Observations.Observed | leontief_model.py:70 | `T.tensordot(flow_obs[o], F, 2)`: a selection of nothing observes zero |
| Observations.DotAdd | leontief_model.py:70 | the dot product is additive in the selection row |
| Observations.ObservedAdd | leontief_model.py:70 | the contraction is additive in the selection matrix |
| Observations.ObservedPairs | leontief_model.py:70 | a 0/1 selection of distinct pairs observes the sum of their flows |
| Observations.ObservedFlows | leontief_model.py:69-70 | for a bound flow observation whose pairs are distinct, `Fobs` is the sum of the flows of the observed pairs |
| Observations.InputObservations | leontief_model.py:121-132 | fresh arrays; succeeds exactly when every id is a process, and then row `o` has ones exactly at the targets of observation `o`, with value and std copied |
| Observations.BindInput | leontief_model.py:128-131 | one iteration: writes row `o` and index `o` only |
| Observations.SelectRow | leontief_model.py:129 | `input_obs[o, targets] = 1` puts ones exactly at the targets |
| Observations.ObservedInputs | leontief_model.py:76 | the dot product of an input selection with `all_inputs` is the sum of the inputs of the targets |
| Observations.DotIndicator | leontief_model.py:76 | a 0/1 row with ones at distinct positions picks out the sum of those entries |
| Strings.StrLessTotal | steel_processes.py:116-117 | Python's string order is total and antisymmetric |
| Strings.StrLessTransitive | steel_processes.py:116-117 | Python's string order is transitive |
| Strings.StrLess | steel_processes.py:116-117 | Python's `<` on strings is never true of equal strings, and a proper prefix comes first |
| Strings.SortBy | steel_processes.py:116-117 | `sorted` keeps the number of items |
| Strings.SortByPermutes | steel_processes.py:116-117 | `sorted` returns a permutation of its input |
| Strings.SortByCorrect | steel_processes.py:116-117 | `sorted` returns its input in order and as a permutation |
| Strings.SortByDistinct | steel_processes.py:116-117 | sorting items with distinct keys gives strictly increasing keys |
| Strings.SortBySortedInput | steel_processes.py:116-117 | sorting a sequence already in order returns it unchanged |
| SteelProcesses.OutputIds | steel_processes.py:19-114 | each output id is the name of a variable of the table |
| SteelProcesses.AllWellDeclared | steel_processes.py:19-114 | every constructor call has a class among efficiency, allocation and sink, an output count its class accepts, no self-output and no repeated output, and an efficiency's second output is a loss or scrap destination; the sinks are exactly the terminal variables |
| SteelProcesses.ConstructOk | steel_processes.py:19-114 | no constructor call of the table raises |
| SteelProcesses.Collect | steel_processes.py:19-117 | running the assignments fails exactly when one raises, with the first error; otherwise it binds every variable in order |
| SteelProcesses.CollectLocals | steel_processes.py:19-117 | the assignments of the table all succeed and bind every variable to its entry |
| SteelProcesses.IdsAscending | steel_processes.py:116-117 | the names of the variables are strictly increasing in the order of their numbers |
| SteelProcesses.IdInjective | steel_processes.py:116-117 | different variables have different names |
| SteelProcesses.DeclIndexAt | steel_processes.py:19-114 | no variable is assigned twice |
| SteelProcesses.DeclAtIndex | steel_processes.py:19-114 | every variable is assigned |
| SteelProcesses.SortEntries | steel_processes.py:116-117 | sorting entries with distinct ids gives the same entries in strictly increasing order |
| SteelProcesses.DefineProcessesResult | steel_processes.py:15-117 | `define_processes` succeeds with 72 entries, strictly sorted by id, which are exactly the entries of the variables |
| SteelProcesses.DefineProcesses | steel_processes.py:15-117 | `define_processes` raises exactly when one of its assignments raises, with that error; otherwise it returns the entries of the local variables, as a permutation, sorted by id |
| SteelProcesses.BoundIn | steel_processes.py:116-117 | every variable's entry is in the result |
| SteelProcesses.EntryOf | steel_processes.py:116-117 | every entry of the result is a variable's entry |
| SteelProcesses.ProcessesSorted | steel_processes.py:116-117 | the entries of the result are in strictly increasing order of id |
| SteelProcesses.KeysDistinct | steel_processes.py:116-117 | the keys of the result are distinct |
| SteelProcesses.OutputsAreKeys | steel_processes.py:19-114 | every output id of every process is a key of the result, including the loss sink `L` |
| SteelProcesses.LossSink | steel_processes.py:28 | `L` is the sink named "Loss" |
| SteelProcesses.ProcessesWellFormed | steel_processes.py:19-114 | every process of the result has an output count its class accepts and no repeated output |
| SteelProcesses.Sinks | steel_processes.py:19-114 | in the result, sink ⟺ no outputs ⟺ no parameters; every process is an efficiency, an allocation or a sink |
| SteelProcesses.VariableShape | steel_processes.py:19-114 | the process of each variable is a sink exactly when it has no outputs, exactly when it has no parameters, and otherwise an efficiency or an allocation |
| SteelProcesses.TerminalSinks | steel_processes.py:28-114 | the sinks are exactly `L` and the finished and cast products; they have no outputs and no parameters, every other process has both |
| SteelProcesses.NoSelfEdges | steel_processes.py:19-114 | no process lists itself as an output |
| SteelProcesses.EfficiencyLosses | steel_processes.py:19-93 | an efficiency in the result has two outputs, and its second output is a loss or scrap destination in the result |
| SteelProcesses.LossOrScrapBound | steel_processes.py:19-93 | a loss or scrap destination is recognisable from its entry |
| SteelProcesses.RecyclingLoops | steel_processes.py:39-59 | each casting process sends its loss to its loss/scrap allocation, which sends material back to it and to `L` |
| SteelProcesses.SingleOutputAllocations | steel_processes.py:23-58 | `DRI`, `OHFS` and `bloom` are allocations with a single output |
| SteelProcesses.ProcessesResolvable | steel_processes.py:15-117 | `_build_matrices` over the steel network raises no KeyError |
| SteelProcesses.ProcessesConserve | steel_processes.py:15-117 | in the steel network each writing column sums to one, and under the equilibrium the inputs equal the sink throughputs |
| TraceSankey.PositiveIndices | trace_sankey_helpers.py:16-18 | one position per positive input, all in range |
| TraceSankey.PositiveIndicesExact | trace_sankey_helpers.py:16-18 | the listed positions are exactly the positive inputs, in increasing order |
| TraceSankey.PositiveCells | trace_sankey_helpers.py:22-25 | the listed cells are in range |
| TraceSankey.PositiveCellsBefore | trace_sankey_helpers.py:22-25 | every listed cell is positive and comes before the loop position |
| TraceSankey.PositiveCellsSorted | trace_sankey_helpers.py:22-25 | the cells are in row-major order |
| TraceSankey.PositiveCellsComplete | trace_sankey_helpers.py:22-25 | every positive cell before the loop position is listed |
| TraceSankey.PositiveCellsCount | trace_sankey_helpers.py:22-25 | the number of cells is the count of positive entries, row by row |
| TraceSankey.InputsFlowsAsRows | trace_sankey_helpers.py:12-26 | the appended records are the rows of the positive inputs, then the rows of the positive flows in row-major order |
| TraceSankey.AppendRowFlows | trace_sankey_helpers.py:23-25 | the inner loop appends the rows of the positive flows out of process `i` |
| TraceSankey.DataFrameRowsSound | trace_sankey_helpers.py:12-26 | every row is the row of a positive input or of a positive flow, with material `'?'` and a positive value |
| TraceSankey.DataFrameRowsComplete | trace_sankey_helpers.py:12-26 | the row of every positive input and of every positive flow is present |
| TraceSankey.DataFrameRowsCount | trace_sankey_helpers.py:12-26 | one row per positive input and one per positive flow |
| TraceSankey.DataFrameRowsLayout | trace_sankey_helpers.py:12-26 | all input rows (source `'inputs'`) come first, then the flow rows with a process as source, in row-major order |
| TraceSankey.DataFrameRows | trace_sankey_helpers.py:12-26 | every record has material `'?'` and a positive value |
| TraceSankey.SliceStart | trace_sankey_helpers.py:30-31 | where `[start::step]` begins: clamped into range, and the start itself when it is a valid index |
| TraceSankey.Walk | trace_sankey_helpers.py:30-31 | the indices a slice visits are in range |
| TraceSankey.WalkSteps | trace_sankey_helpers.py:30-31 | the visited indices start at the start and move by `step` |
| TraceSankey.WalkForward | trace_sankey_helpers.py:30-31 | a forward walk visits exactly the indices below `n` that are the start plus a multiple of `step` |
| TraceSankey.SliceIndices | trace_sankey_helpers.py:30-31 | the slice raises exactly when the step is zero, and otherwise keeps indices in range |
| TraceSankey.Slice | trace_sankey_helpers.py:30-31 | `s[start::step]` is the elements at the kept indices, or the error of a zero step |
| TraceSankey.BurnAndThin | trace_sankey_helpers.py:30-31 | with `nburn >= 0` and `thin > 0` the kept draws are exactly `nburn, nburn + thin, ...` below the trace length, in that order |
| TraceSankey.Tag | trace_sankey_helpers.py:41-46 | every tagged row carries the sample position |
| TraceSankey.UntagTag | trace_sankey_helpers.py:41-46 | dropping the sample column of tagged rows gives the rows back |
| TraceSankey.TaggedMembers | trace_sankey_helpers.py:41-46 | a sample row is among the tagged rows exactly when it carries the tag and its untagged row is among the rows |
| TraceSankey.TraceRows | trace_sankey_helpers.py:38-46 | the rows of the first `n` kept draws carry a sample position below `n` |
| TraceSankey.TraceRowsMembers | trace_sankey_helpers.py:38-48 | a row is in the result exactly when its sample is a kept draw and, without the sample column, it is a row of that draw's data frame |
| TraceSankey.TraceRowsGrouped | trace_sankey_helpers.py:38-46 | the sample column is below the number of kept draws and never decreases |
| TraceSankey.TraceRowsCount | trace_sankey_helpers.py:38-48 | the number of rows is the number of positive inputs and positive flows over the kept draws |
| TraceSankey.AppendSample | trace_sankey_helpers.py:39-46 | one pass of the outer loop appends the data frame of draw `i`, tagged with `i` |
| TraceSankey.AppendSampleInputs | trace_sankey_helpers.py:39-41 | the loop over the inputs appends the tagged rows of the positive inputs |
| TraceSankey.TaggedInputStep | trace_sankey_helpers.py:39-41 | one input step adds the tagged row of input `j` exactly when it is positive |
| TraceSankey.AppendSampleRowFlows | trace_sankey_helpers.py:43-46 | the loops over one process's flows append their tagged rows |
| TraceSankey.FlowsFromTrace | trace_sankey_helpers.py:29-48 | raises exactly when `thin` is zero; otherwise the rows are the data frames of the kept draws, each tagged with its position among the kept draws, one draw after another |

## Left out

- pymc3 and theano: declaring random variables, the likelihood nodes and sampling are not modelled. A sampled parameter vector is an input of the model.
- The Leontief solve `X = (I - A)^-1 inputs` (leontief_model.py:61-62) is floating-point linear algebra. The lemmas take its result as a hypothesis: `X = A X + inputs`.
- The logistic, symlog and softmax functions (leontief_model.py:163, 254-255, 282) are transcendental. An efficiency parameter is the efficiency itself, in (0, 1). Symlog and softmax parameters are the exponentials, so only the normalisation is modelled.
- ProcessKinds.ParamRvChoice: models the choice of distribution and its errors, not the random variable itself.
- ProcessKinds.ParamRvChoice: definitions are typed, a normal (means, stds) pair or a concentration vector. A definition of the other family is the model's own `UnsupportedDefinition` error; the source would unpack whatever it is given (`means, stds = defs` for the efficiency and logit kinds, only `len(defs)` for the Dirichlet allocation). A falsy but present definition (an empty tuple) is not distinguished from `None`.
- ProcessKinds.DirichletPrior: requires a non-empty list of shares not to sum to zero on the concentration path. There numpy divides by zero: a zero share gives NaN and a non-zero one gives an infinity (`[1, -1]` becomes `[inf, -inf]`), which exact reals cannot represent. Empty shares give the empty vector, as in the source. On the stddev path a zero sum is modelled as the `ZeroDivisionError` of `stddev /= factor`.
- Numbers are exact reals. Floating-point rounding, overflow and NaN are not modelled.
- ProcessKinds.ConcentrationFor: the result is non-finite, and so replaced by `1e10`, exactly at a zero stddev. In float64 a non-zero stddev small enough for `m(1-m)/stddev**2` to overflow (for instance `1e-200`, whose square underflows to zero) is also replaced by `1e10`. Exact reals do not reproduce that; the model returns `m(1-m)/s^2 - 1` there.
- Flows.InflowFractions: requires every throughput to be non-zero. With a zero throughput the source divides by zero and numpy gives NaN or infinity.
- `leontief_model.inputs_flows_as_dataframe` (leontief_model.py:17-31) is not modelled. It rebinds `flows` to an empty list before reading its shape, so every call fails. The working copy in trace_sankey_helpers.py is modelled instead.
- `SplitParamModel.show_point` and the widget, plotting and colour helpers of trace_sankey_helpers.py are not modelled. They only render (show_point also refers to an undefined name).
- `SplitParamModel.__init__` only wires the above together inside the sampler. Its steps are modelled through the members it calls; the sort of the input-definition keys at leontief_model.py:41 is `Network.PossibleInputs`. The keys of `input_defs` are given as a sequence, distinct because they are dictionary keys.
- Network.BuildMatrices: a `process_params.get(pid)` that is falsy because of an empty parameter vector is not distinguished from `None`. Every process with outputs has parameters, so the two cases coincide.
- TraceSankey.InputsFlowsAsRows: requires every index to be in range (`len(I) <= len(possible_inputs)`, `F` covering as many processes as it has rows). The source raises IndexError otherwise; that error path is not modelled.
- TraceSankey.FlowsFromTrace: requires the index bounds above for every draw: each flow matrix is `Np`×`Np` with `Np` at most the number of processes, and each input vector is no longer than `possible_inputs`. The IndexError path is not modelled. `Np` (`flows.shape[1]`) is a parameter, because an empty thinned trace still has a shape.
- TraceSankey.FlowsFromTrace: a trace of several chains, whose samples pymc3 concatenates, is not modelled. The trace is one sequence of samples.
- The pandas data frame is the sequence of its records. Column names and dtypes are not modelled.
- The dictionary `processes` is given to the helpers as the sequence of its keys in iteration order.
- Outputs in the steel table are written as variables of the table (`SteelProcesses.Variable`), so an output id is always the name of a variable. `SteelProcesses.OutputsAreKeys` proves that each of these names is a key of the result.

## Findings

| source | as written | input that shows it | evidently intended | confidence | as-written member | corrected member |
|---|---|---|---|---|---|---|
| leontief_model.py:137 | `get_flow` reads `trace['flows']` | any trace of the model: it records the flow matrices under `'F'` (line 65) and has no variable `'flows'`, so the lookup raises for every pair of processes | read the flow deterministic `trace['F']` | not executed; medium (a trace from a different model could hold `'flows'`) | Flows.GetFlowAsWritten (Flows.GetFlowMissesF) | Flows.GetFlowNamed |

The inflow fractions at leontief_model.py:82 divide `F[j][i]` by the
throughput of the receiving process `i` (`process_throughputs[None, :]`).
The model follows the code, which makes the fractions into a process sum to
its share of non-external supply (`Flows.InflowFractionsSum`).
