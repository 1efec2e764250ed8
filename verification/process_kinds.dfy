/**
 * The process kinds of the Leontief material-flow model: how many outputs each
 * kind accepts, how it turns a sampled parameter vector into output shares
 * (its transfer function), which parameter distribution it asks for, and the
 * Dirichlet prior constructor of allocation processes.
 *
 * The probabilistic engine is not modelled. Where the source applies a
 * transcendental function the model takes its value as given:
 *  - an efficiency process's parameter is the efficiency itself, i.e. the
 *    value of the logistic function at the sampled logit;
 *  - a symlog or softmax process's parameters are the exponentials of the
 *    sampled reals, so they are positive and only the normalisation remains.
 */
module ProcessKinds {
  import opened Common
  import opened RealSeqs

  datatype Kind =
    | Efficiency
    | DirichletAllocation
    | NormalisedUniformAllocation
    | SymlogAllocation
    | SoftmaxAllocation
    | Sink

  /** A process: its kind, its display name and the ids of its downstream processes. */
  datatype Process = Process(kind: Kind, name: string, outputs: seq<string>)

  /** The exceptions raised by the constructors and by the prior and parameter logic. */
  datatype ConfigError =
    | WrongOutputCount       // the arity assertion of a constructor
    | ConcentrationOrStddev  // prior(): both or neither of concentration and with_stddev
    | StddevTooHigh          // prior(): the requested stddev exceeds the achievable limit
    | ZeroShareTotal         // prior(): `stddev /= factor` with shares that sum to zero
    | IndexOutOfRange        // prior(): shares[i] with i outside the shares
    | NoParameters           // a normalised-uniform process given a definition
    | ParamCountMismatch     // a Dirichlet definition of the wrong length
    | UnsupportedDefinition  // a definition of the other family for this kind

  predicate IsAllocation(k: Kind) {
    k.DirichletAllocation? || k.NormalisedUniformAllocation? || k.SymlogAllocation? || k.SoftmaxAllocation?
  }

  /** The number of outputs each kind accepts: two, none, or at least one. */
  predicate ArityOk(k: Kind, outputs: nat) {
    match k
    case Efficiency => outputs == 2
    case Sink => outputs == 0
    case _ => outputs >= 1
  }

  /**
   * The constructors: `EfficiencyProcess(name, outputs)` and the allocation
   * constructors assert the number of outputs; `SinkProcess(name)` takes no
   * outputs at all, which is `NewProcess(Sink, name, [])` here.
   */
  function NewProcess(k: Kind, name: string, outputs: seq<string>): (r: Result<Process, ConfigError>)
    ensures r.Ok? <==> ArityOk(k, |outputs|)
    ensures r.Ok? ==> r.value.kind == k && r.value.name == name && r.value.outputs == outputs
    ensures r.Err? ==> r.error == WrongOutputCount
  {
    if ArityOk(k, |outputs|) then Ok(Process(k, name, outputs)) else Err(WrongOutputCount)
  }

  predicate WellFormed(p: Process) {
    ArityOk(p.kind, |p.outputs|)
  }

  /** `nparams`: one for an efficiency, none for a sink, one per output otherwise. */
  function NParams(p: Process): nat {
    match p.kind
    case Efficiency => 1
    case Sink => 0
    case _ => |p.outputs|
  }

  /** The shape of a parameter vector as the sampler hands it to `transfer_functions`. */
  predicate ParamsFit(p: Process, params: seq<real>) {
    && |params| == NParams(p)
    && ((p.kind.SymlogAllocation? || p.kind.SoftmaxAllocation?) ==>
          forall i :: 0 <= i < |params| ==> params[i] > 0.0)
  }

  /**
   * The values the priors can actually produce: an efficiency strictly between
   * zero and one, Dirichlet and normalised-uniform shares on the simplex.
   */
  predicate ValidSample(p: Process, params: seq<real>) {
    && ParamsFit(p, params)
    && (p.kind.Efficiency? ==> 0.0 < params[0] < 1.0)
    && ((p.kind.DirichletAllocation? || p.kind.NormalisedUniformAllocation?) ==>
          (forall i :: 0 <= i < |params| ==> params[i] >= 0.0) && Sum(params) == 1.0)
  }

  /** `EfficiencyProcess.transfer_functions`: the split into product and loss. */
  function EfficiencySplit(eff: real): (r: seq<real>)
    ensures |r| == 2 && r[0] == eff && r[0] + r[1] == 1.0
    ensures 0.0 < eff < 1.0 ==> 0.0 < r[1] < 1.0
  {
    [eff, 1.0 - eff]
  }

  /**
   * `transfer_functions` of each kind: the output shares, one per output.
   * A sink's `transfer_functions` returns a fresh symbolic vector; it is never
   * evaluated, because `_build_matrices` skips every process without
   * parameters, and the model gives the empty vector in its place.
   */
  function TransferFunctions(p: Process, params: seq<real>): (r: seq<real>)
    requires ParamsFit(p, params)
    ensures WellFormed(p) ==> |r| == |p.outputs|
    ensures p.kind.Efficiency? ==> r == EfficiencySplit(params[0])
    ensures (p.kind.DirichletAllocation? || p.kind.NormalisedUniformAllocation?) ==> r == params
    ensures (p.kind.SymlogAllocation? || p.kind.SoftmaxAllocation?) ==> r == PositiveShares(params)
    ensures (p.kind.SymlogAllocation? || p.kind.SoftmaxAllocation?) && |params| > 0 ==>
              Sum(r) == 1.0 && forall i :: 0 <= i < |r| ==> r[i] > 0.0
    ensures p.kind.Sink? ==> r == []
  {
    match p.kind
    case Efficiency => EfficiencySplit(params[0])
    case DirichletAllocation => params
    case NormalisedUniformAllocation => params
    case SymlogAllocation => PositiveShares(params)
    case SoftmaxAllocation => PositiveShares(params)
    case Sink => []
  }

  /** Normalisation of positive weights, `x / x.sum()` after the exponential. */
  function PositiveShares(x: seq<real>): (r: seq<real>)
    requires forall i :: 0 <= i < |x| ==> x[i] > 0.0
    ensures |r| == |x|
    ensures |x| > 0 ==> Sum(x) > 0.0 && forall i :: 0 <= i < |r| ==> r[i] == x[i] / Sum(x)
    ensures |x| > 0 ==> Sum(r) == 1.0 && forall i :: 0 <= i < |r| ==> r[i] > 0.0
  {
    if |x| == 0 then [] else
      SumPositive(x);
      Normalise(x)
  }

  lemma {:induction false} SumPositive(x: seq<real>)
    requires |x| > 0 && forall i :: 0 <= i < |x| ==> x[i] > 0.0
    ensures Sum(x) > 0.0
    decreases |x|
  {
    if |x| > 1 {
      SumPositive(x[1..]);
    } else {
      assert x[1..] == [];
    }
  }

  /**
   * Every process with outputs routes all of its throughput: for any value the
   * priors can produce, the shares are non-negative and sum to one.
   */
  lemma SharesSumToOne(p: Process, params: seq<real>)
    requires WellFormed(p) && !p.kind.Sink?
    requires ValidSample(p, params)
    ensures Sum(TransferFunctions(p, params)) == 1.0
    ensures forall i :: 0 <= i < |p.outputs| ==> TransferFunctions(p, params)[i] >= 0.0
  {
    var r := TransferFunctions(p, params);
    if p.kind.Efficiency? {
      assert Sum(r) == r[0] + Sum(r[1..]);
      assert Sum(r[1..]) == r[1] + Sum(r[1..][1..]);
      assert r[1..][1..] == [];
    }
  }

  /**
   * The normalised-uniform parameter, `uniforms / uniforms.sum()`, lies on the
   * simplex whenever the uniforms are positive, so it is a valid sample.
   */
  lemma NormalisedUniformIsValid(p: Process, uniforms: seq<real>)
    requires p.kind.NormalisedUniformAllocation? && WellFormed(p)
    requires |uniforms| == |p.outputs|
    requires forall i :: 0 <= i < |uniforms| ==> uniforms[i] > 0.0
    ensures ValidSample(p, PositiveShares(uniforms))
  {
  }

  // ---------------------------------------------------------------------
  // DirichletAllocationProcess.prior
  // ---------------------------------------------------------------------

  /** `with_stddev = (i, stddev)`: the target standard deviation of share `i`. */
  datatype StddevTarget = StddevTarget(index: int, stddev: real)

  /** numpy indexing of a vector of length `n`: negative indices count from the end. */
  function PyIndex(n: nat, i: int): (r: Option<nat>)
    ensures r.Some? <==> -(n as int) <= i < n
    ensures r.Some? ==> r.value < n && (r.value == i || r.value == n + i)
  {
    if 0 <= i < n then Some(i) else if -(n as int) <= i < 0 then Some(n + i) else None
  }

  /** `m (1 - m)`: the variance of a Bernoulli variable with mean `m`. */
  function Spread(m: real): real {
    m * (1.0 - m)
  }

  /** The square of the limit `sqrt(m (1 - m) / (1 + k))` on the attainable stddev. */
  function LimitSquared(m: real, k: nat): real {
    Ratio(Spread(m), (1 + k) as real)
  }

  /**
   * `stddev > limit` with `limit = sqrt(L)`: both sides of the comparison are
   * compared as squares, which is exact because the square root is never
   * negative; when `L < 0` numpy's square root is NaN and the comparison is false.
   */
  predicate ExceedsLimit(s: real, m: real, k: nat)
    ensures LimitSquared(m, k) < 0.0 ==> !ExceedsLimit(s, m, k)
    ensures forall root :: root >= 0.0 && Square(root) == LimitSquared(m, k) ==> (ExceedsLimit(s, m, k) <==> s > root)
  {
    SquareAboveAll(s);
    s > 0.0 && LimitSquared(m, k) >= 0.0 && Square(s) > LimitSquared(m, k)
  }

  /**
   * The concentration solving `s^2 = m (1 - m) / (a + 1)` for `a`; at `s = 0`
   * numpy yields a non-finite value, which the source replaces by `1e10`.
   */
  function ConcentrationFor(m: real, s: real): (a: real)
    ensures s == 0.0 ==> a == 1e10
    ensures s != 0.0 ==> (a + 1.0) * Square(s) == Spread(m)
  {
    if s == 0.0 then 1e10 else
      SquareNonZero(s);
      assert Ratio(Spread(m), Square(s)) * Square(s) == Spread(m);
      Ratio(Spread(m), Square(s)) - 1.0
  }

  /**
   * The total concentration `prior` settles on, or the error it raises: both or
   * neither argument, shares summing to zero on the stddev path, an index
   * outside the shares, or a stddev above the limit.
   */
  function PriorTotal(shares: seq<real>, concentration: Option<real>, withStddev: Option<StddevTarget>)
    : (r: Result<real, ConfigError>)
    ensures (r == Err(ConcentrationOrStddev)) <==> (concentration.Some? == withStddev.Some?)
    ensures concentration.Some? && withStddev.None? ==> r == Ok(|shares| as real * concentration.value)
    ensures concentration.None? && withStddev.Some? ==> (r == Err(ZeroShareTotal) <==> Sum(shares) == 0.0)
    ensures concentration.None? && withStddev.Some? && Sum(shares) != 0.0 ==>
              var s := withStddev.value.stddev / Sum(shares);
              var idx := PyIndex(|shares|, withStddev.value.index);
              && (r == Err(IndexOutOfRange) <==> idx.None?)
              && (r == Err(StddevTooHigh) <==>
                    idx.Some? && ExceedsLimit(s, shares[idx.value] / Sum(shares), |shares|))
              && (idx.Some? && !ExceedsLimit(s, shares[idx.value] / Sum(shares), |shares|) ==>
                    r == Ok(ConcentrationFor(shares[idx.value] / Sum(shares), s)))
  {
    if concentration.Some? == withStddev.Some? then
      Err(ConcentrationOrStddev)
    else if withStddev.Some? then
      var factor := Sum(shares);
      if factor == 0.0 then
        Err(ZeroShareTotal)
      else
        var normalised := Normalise(shares);
        var s := withStddev.value.stddev / factor;
        var idx := PyIndex(|normalised|, withStddev.value.index);
        if idx.None? then
          Err(IndexOutOfRange)
        else
          var m := normalised[idx.value];
          if ExceedsLimit(s, m, |normalised|) then Err(StddevTooHigh) else Ok(ConcentrationFor(m, s))
    else
      Ok(|shares| as real * concentration.value)
  }

  /**
   * `DirichletAllocationProcess.prior(shares, concentration, with_stddev)`:
   * the normalised shares times a total concentration, which is either
   * `len(shares) * concentration` or the concentration that gives share `i`
   * the requested standard deviation.
   */
  function DirichletPrior(shares: seq<real>, concentration: Option<real>, withStddev: Option<StddevTarget>)
    : (r: Result<seq<real>, ConfigError>)
    requires concentration.Some? && withStddev.None? && |shares| > 0 ==> Sum(shares) != 0.0
    ensures r.Err? <==> PriorTotal(shares, concentration, withStddev).Err?
    ensures r.Err? ==> r.error == PriorTotal(shares, concentration, withStddev).error
    ensures r.Ok? ==> Sum(r.value) == PriorTotal(shares, concentration, withStddev).value
    ensures r.Ok? && |shares| == 0 ==> r.value == []
    ensures r.Ok? && |shares| > 0 ==> Sum(shares) != 0.0 && r.value == Scale(Normalise(shares), Sum(r.value))
  {
    var total := PriorTotal(shares, concentration, withStddev);
    if total.Err? then
      Err(total.error)
    else if |shares| == 0 then
      Ok([])
    else
      var n := Normalise(shares);
      SumScale(n, total.value);
      Ok(Scale(n, total.value))
  }

  /** The variance of one marginal of a Dirichlet with mean `m` and total concentration `a`. */
  function BetaVariance(m: real, a: real): real
    requires a + 1.0 != 0.0
  {
    Ratio(Spread(m), a + 1.0)
  }

  /**
   * The stddev path inverts the Beta-marginal variance: for non-negative shares
   * and a positive requested stddev, substituting the derived total
   * concentration back into the marginal variance of share `i` gives the
   * requested variance (both taken relative to the sum of the shares).
   */
  lemma PriorMatchesRequestedStddev(shares: seq<real>, i: int, stddev: real)
    requires forall k :: 0 <= k < |shares| ==> shares[k] >= 0.0
    requires stddev > 0.0
    requires DirichletPrior(shares, None, Some(StddevTarget(i, stddev))).Ok?
    ensures var alpha := DirichletPrior(shares, None, Some(StddevTarget(i, stddev))).value;
            var idx := PyIndex(|shares|, i).value;
            && Sum(alpha) + 1.0 > 0.0
            && BetaVariance(shares[idx] / Sum(shares), Sum(alpha)) == Square(stddev / Sum(shares))
  {
    var alpha := DirichletPrior(shares, None, Some(StddevTarget(i, stddev))).value;
    var idx := PyIndex(|shares|, i).value;
    SumNonNegative(shares);
    EntryAtMostSum(shares, idx);
    RatioInUnit(shares[idx], Sum(shares));
    RatioSign(stddev, Sum(shares));
    assert Ratio(shares[idx], Sum(shares)) == shares[idx] / Sum(shares);
    assert Ratio(stddev, Sum(shares)) == stddev / Sum(shares);
    assert !ExceedsLimit(stddev / Sum(shares), shares[idx] / Sum(shares), |shares|);
    assert Sum(alpha) == ConcentrationFor(shares[idx] / Sum(shares), stddev / Sum(shares));
    StddevInversion(shares[idx] / Sum(shares), stddev / Sum(shares), |shares|, Sum(alpha));
  }

  /** The algebra of the stddev path, over plain variables. */
  lemma StddevInversion(m: real, s: real, k: nat, a: real)
    requires 0.0 <= m <= 1.0 && s > 0.0
    requires !ExceedsLimit(s, m, k) && a == ConcentrationFor(m, s)
    ensures a + 1.0 > 0.0 && BetaVariance(m, a) == Square(s)
  {
    ProductNonNegative(m, 1.0 - m, Spread(m));
    SquareNonZero(s);
    ProductPositive(s, s, Square(s));
    RatioSign(Spread(m), (1 + k) as real);
    RatioSign(Spread(m), Square(s));
    RatioInverse(Spread(m), Square(s));
  }

  /** A requested stddev of zero asks for a point mass: the total concentration is `1e10`. */
  lemma PriorZeroStddevIsPointMass(shares: seq<real>, i: int)
    requires Sum(shares) != 0.0
    requires -|shares| <= i < |shares|
    ensures DirichletPrior(shares, None, Some(StddevTarget(i, 0.0))).Ok?
    ensures Sum(DirichletPrior(shares, None, Some(StddevTarget(i, 0.0))).value) == 1e10
  {
    var f := Sum(shares);
    assert 0.0 / f == 0.0;
    var idx := PyIndex(|shares|, i).value;
    assert !ExceedsLimit(0.0, shares[idx] / f, |shares|);
    assert ConcentrationFor(shares[idx] / f, 0.0) == 1e10;
  }

  // ---------------------------------------------------------------------
  // param_rv: which parameter distribution each kind declares
  // ---------------------------------------------------------------------

  /** A per-process parameter definition: a normal (mean, std) pair or a Dirichlet concentration vector. */
  datatype ParamDef =
    | NormalDef(means: seq<real>, stds: seq<real>)
    | ConcentrationDef(alpha: seq<real>)

  /** The random variable `param_rv` declares, or `NoParams` for the `None` a sink returns. */
  datatype ParamRv =
    | NormalRv(means: seq<real>, stds: seq<real>)  // independent normals about the given means
    | UniformRv(size: nat)                         // the default Uniform(0, 1) of that shape
    | DirichletRv(alpha: seq<real>)                // Dirichlet with that concentration
    | FixedShares(shares: seq<real>)               // a deterministic share vector
    | NormalisedUniformRv(size: nat)               // uniforms on [0, 1] divided by their sum
    | NoParams

  /** `param_rv(pid, defs)` of each kind, as the choice of distribution it makes. */
  function ParamRvChoice(p: Process, defs: Option<ParamDef>): (r: Result<ParamRv, ConfigError>)
    requires WellFormed(p)
    ensures p.kind.Sink? ==> r == Ok(NoParams)
    ensures p.kind.NormalisedUniformAllocation? ==>
              (r.Err? <==> defs.Some?) && (r.Ok? ==> r.value == NormalisedUniformRv(|p.outputs|))
    ensures p.kind.NormalisedUniformAllocation? && r.Err? ==> r.error == NoParameters
    ensures (p.kind.Efficiency? || p.kind.SymlogAllocation? || p.kind.SoftmaxAllocation?) && defs.None? ==>
              r == Ok(UniformRv(NParams(p)))
    ensures (p.kind.Efficiency? || p.kind.SymlogAllocation? || p.kind.SoftmaxAllocation?) && defs.Some? ==>
              r == if defs.value.NormalDef? then Ok(NormalRv(defs.value.means, defs.value.stds))
                   else Err(UnsupportedDefinition)
    ensures p.kind.DirichletAllocation? && defs.Some? ==>
              && (defs.value.NormalDef? ==> r == Err(UnsupportedDefinition))
              && (defs.value.ConcentrationDef? && |defs.value.alpha| != |p.outputs| ==> r == Err(ParamCountMismatch))
              && (r.Ok? && |p.outputs| > 1 ==> r.value == DirichletRv(defs.value.alpha))
    ensures p.kind.DirichletAllocation? ==>
              && (r.Ok? <==> match defs
                              case None => true
                              case Some(d) => d.ConcentrationDef? && |d.alpha| == |p.outputs|)
              && (r.Ok? && |p.outputs| == 1 ==> r.value == FixedShares([1.0]))
              && (r.Ok? && |p.outputs| > 1 ==> r.value.DirichletRv? && |r.value.alpha| == |p.outputs|)
              && (defs.None? && |p.outputs| > 1 ==>
                    r.Ok? && forall j :: 0 <= j < |p.outputs| ==> r.value.alpha[j] == 1.0)
  {
    match p.kind
    case Efficiency => NormalOrUniform(p, defs)
    case SymlogAllocation => NormalOrUniform(p, defs)
    case SoftmaxAllocation => NormalOrUniform(p, defs)
    case DirichletAllocation =>
      var alpha :=
        match defs
        case None => Ok(seq(NParams(p), j => 1.0))
        case Some(NormalDef(_, _)) => Err(UnsupportedDefinition)
        case Some(ConcentrationDef(a)) => Ok(a);
      if alpha.Err? then Err(alpha.error)
      else if |alpha.value| != NParams(p) then Err(ParamCountMismatch)
      else if |alpha.value| > 1 then Ok(DirichletRv(alpha.value))
      else Ok(FixedShares([1.0]))
    case NormalisedUniformAllocation =>
      if defs.Some? then Err(NoParameters) else Ok(NormalisedUniformRv(NParams(p)))
    case Sink => Ok(NoParams)
  }

  /** The shared `param_rv` of the logit-scale kinds: normals when a definition is given, else uniforms. */
  function NormalOrUniform(p: Process, defs: Option<ParamDef>): Result<ParamRv, ConfigError> {
    match defs
    case None => Ok(UniformRv(NParams(p)))
    case Some(NormalDef(means, stds)) => Ok(NormalRv(means, stds))
    case Some(ConcentrationDef(_)) => Err(UnsupportedDefinition)
  }

  /**
   * A concentration vector built by the prior constructor for a Dirichlet
   * process with as many outputs as shares is accepted by that process's
   * `param_rv`.
   */
  lemma PriorFeedsParamRv(p: Process, shares: seq<real>, concentration: Option<real>, withStddev: Option<StddevTarget>)
    requires p.kind.DirichletAllocation? && WellFormed(p)
    requires |shares| == |p.outputs|
    requires concentration.Some? && withStddev.None? && |shares| > 0 ==> Sum(shares) != 0.0
    requires DirichletPrior(shares, concentration, withStddev).Ok?
    ensures ParamRvChoice(p, Some(ConcentrationDef(DirichletPrior(shares, concentration, withStddev).value))).Ok?
  {
  }

  /** A single-output allocation's fixed share is itself a valid sample. */
  lemma SingleShareIsValid(p: Process)
    requires p.kind.DirichletAllocation? && |p.outputs| == 1
    ensures ValidSample(p, [1.0])
  {
    assert Sum([1.0]) == 1.0 + Sum([]);
  }
}
