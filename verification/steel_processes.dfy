/**
 * The steel network of `define_processes`: 72 constructor calls, each bound
 * to a local variable whose name is the process id, returned as the
 * dictionary of the local variables sorted by name.
 *
 * A variable is written as a constant of type `Variable`, numbered in the order of
 * the names; `Id` gives its name. Output lists name the variables they refer
 * to, so each output id is `Id` of a variable.
 */
module SteelProcesses {
  import opened Common
  import opened Strings
  import opened ProcessKinds
  import opened RealSeqs
  import opened Network
  import opened Flows

  /** The number of variables, and of processes in the result. */
  const Count := 72

  /** A local variable of `define_processes`, by the position of its name in sorted order. */
  type Variable = i: nat | i < Count

  const BF: Variable := 0
  const CCBM: Variable := 1
  const CCBML: Variable := 2
  const CCBT: Variable := 3
  const CCBTL: Variable := 4
  const CCS: Variable := 5
  const CCSL: Variable := 6
  const CRM: Variable := 7
  const CRMP: Variable := 8
  const DR: Variable := 9
  const DRI: Variable := 10
  const EAF: Variable := 11
  const EAFS: Variable := 12
  const GPP_CR: Variable := 13
  const GP_CR: Variable := 14
  const GP_HR: Variable := 15
  const HSM: Variable := 16
  const HSML: Variable := 17
  const HSMP: Variable := 18
  const IC: Variable := 19
  const ICL: Variable := 20
  const IFC: Variable := 21
  const IFCL: Variable := 22
  const L: Variable := 23
  const OBF: Variable := 24
  const OBFS: Variable := 25
  const OCP: Variable := 26
  const OHF: Variable := 27
  const OHFS: Variable := 28
  const PI: Variable := 29
  const PLM: Variable := 30
  const PLML: Variable := 31
  const PLMP: Variable := 32
  const PRM: Variable := 33
  const PRML: Variable := 34
  const PRMP: Variable := 35
  const RBM: Variable := 36
  const RBML: Variable := 37
  const RBMP: Variable := 38
  const S: Variable := 39
  const SEM: Variable := 40
  const SEML: Variable := 41
  const SEMP: Variable := 42
  const SP: Variable := 43
  const SPC: Variable := 44
  const SPCL: Variable := 45
  const STP: Variable := 46
  const TM: Variable := 47
  const TWP: Variable := 48
  const billet: Variable := 49
  const bloom: Variable := 50
  const castiron: Variable := 51
  const caststeel: Variable := 52
  const crc: Variable := 53
  const crccoated: Variable := 54
  const crcgalv: Variable := 55
  const crctinned: Variable := 56
  const elsheet: Variable := 57
  const hrc: Variable := 58
  const hrcgalv: Variable := 59
  const hrns: Variable := 60
  const ingots: Variable := 61
  const plate: Variable := 62
  const rodbar: Variable := 63
  const rodrebar: Variable := 64
  const rodwire: Variable := 65
  const seamlesstube: Variable := 66
  const secheavy: Variable := 67
  const seclight: Variable := 68
  const secrail: Variable := 69
  const slab: Variable := 70
  const weldedtube: Variable := 71

  /** The name of the variable: the id of its process. */
  function Id(p: Variable): string {
    if p == BF then "BF"
    else if p == CCBM then "CCBM"
    else if p == CCBML then "CCBML"
    else if p == CCBT then "CCBT"
    else if p == CCBTL then "CCBTL"
    else if p == CCS then "CCS"
    else if p == CCSL then "CCSL"
    else if p == CRM then "CRM"
    else if p == CRMP then "CRMP"
    else if p == DR then "DR"
    else if p == DRI then "DRI"
    else if p == EAF then "EAF"
    else if p == EAFS then "EAFS"
    else if p == GPP_CR then "GPP_CR"
    else if p == GP_CR then "GP_CR"
    else if p == GP_HR then "GP_HR"
    else if p == HSM then "HSM"
    else if p == HSML then "HSML"
    else if p == HSMP then "HSMP"
    else if p == IC then "IC"
    else if p == ICL then "ICL"
    else if p == IFC then "IFC"
    else if p == IFCL then "IFCL"
    else if p == L then "L"
    else if p == OBF then "OBF"
    else if p == OBFS then "OBFS"
    else if p == OCP then "OCP"
    else if p == OHF then "OHF"
    else if p == OHFS then "OHFS"
    else if p == PI then "PI"
    else if p == PLM then "PLM"
    else if p == PLML then "PLML"
    else if p == PLMP then "PLMP"
    else if p == PRM then "PRM"
    else if p == PRML then "PRML"
    else if p == PRMP then "PRMP"
    else if p == RBM then "RBM"
    else if p == RBML then "RBML"
    else if p == RBMP then "RBMP"
    else if p == S then "S"
    else if p == SEM then "SEM"
    else if p == SEML then "SEML"
    else if p == SEMP then "SEMP"
    else if p == SP then "SP"
    else if p == SPC then "SPC"
    else if p == SPCL then "SPCL"
    else if p == STP then "STP"
    else if p == TM then "TM"
    else if p == TWP then "TWP"
    else if p == billet then "billet"
    else if p == bloom then "bloom"
    else if p == castiron then "castiron"
    else if p == caststeel then "caststeel"
    else if p == crc then "crc"
    else if p == crccoated then "crccoated"
    else if p == crcgalv then "crcgalv"
    else if p == crctinned then "crctinned"
    else if p == elsheet then "elsheet"
    else if p == hrc then "hrc"
    else if p == hrcgalv then "hrcgalv"
    else if p == hrns then "hrns"
    else if p == ingots then "ingots"
    else if p == plate then "plate"
    else if p == rodbar then "rodbar"
    else if p == rodrebar then "rodrebar"
    else if p == rodwire then "rodwire"
    else if p == seamlesstube then "seamlesstube"
    else if p == secheavy then "secheavy"
    else if p == seclight then "seclight"
    else if p == secrail then "secrail"
    else if p == slab then "slab"
    else "weldedtube"
  }

  /** The variable assigned `i`-th in the body of `define_processes`. */
  function DeclAt(i: nat): Variable
    requires i < Count
  {
    if i == 0 then BF
    else if i == 1 then PI
    else if i == 2 then DR
    else if i == 3 then DRI
    else if i == 4 then SP
    else if i == 5 then S
    else if i == 6 then L
    else if i == 7 then OBF
    else if i == 8 then OBFS
    else if i == 9 then OHF
    else if i == 10 then OHFS
    else if i == 11 then EAF
    else if i == 12 then EAFS
    else if i == 13 then IFC
    else if i == 14 then IFCL
    else if i == 15 then SPC
    else if i == 16 then SPCL
    else if i == 17 then IC
    else if i == 18 then ingots
    else if i == 19 then ICL
    else if i == 20 then CCS
    else if i == 21 then slab
    else if i == 22 then CCSL
    else if i == 23 then CCBT
    else if i == 24 then billet
    else if i == 25 then CCBTL
    else if i == 26 then CCBM
    else if i == 27 then bloom
    else if i == 28 then CCBML
    else if i == 29 then PRM
    else if i == 30 then PRMP
    else if i == 31 then PRML
    else if i == 32 then SEM
    else if i == 33 then SEMP
    else if i == 34 then SEML
    else if i == 35 then RBM
    else if i == 36 then RBMP
    else if i == 37 then RBML
    else if i == 38 then PLM
    else if i == 39 then PLMP
    else if i == 40 then PLML
    else if i == 41 then HSM
    else if i == 42 then HSMP
    else if i == 43 then HSML
    else if i == 44 then STP
    else if i == 45 then TWP
    else if i == 46 then CRM
    else if i == 47 then CRMP
    else if i == 48 then GP_HR
    else if i == 49 then GP_CR
    else if i == 50 then GPP_CR
    else if i == 51 then TM
    else if i == 52 then OCP
    else if i == 53 then secheavy
    else if i == 54 then seclight
    else if i == 55 then secrail
    else if i == 56 then rodrebar
    else if i == 57 then rodwire
    else if i == 58 then rodbar
    else if i == 59 then plate
    else if i == 60 then hrc
    else if i == 61 then hrns
    else if i == 62 then seamlesstube
    else if i == 63 then weldedtube
    else if i == 64 then elsheet
    else if i == 65 then crc
    else if i == 66 then crcgalv
    else if i == 67 then crctinned
    else if i == 68 then crccoated
    else if i == 69 then hrcgalv
    else if i == 70 then castiron
    else caststeel
  }

  /** The position of the variable's assignment in the body. */
  function DeclIndex(p: Variable): nat {
    if p == BF then 0
    else if p == CCBM then 26
    else if p == CCBML then 28
    else if p == CCBT then 23
    else if p == CCBTL then 25
    else if p == CCS then 20
    else if p == CCSL then 22
    else if p == CRM then 46
    else if p == CRMP then 47
    else if p == DR then 2
    else if p == DRI then 3
    else if p == EAF then 11
    else if p == EAFS then 12
    else if p == GPP_CR then 50
    else if p == GP_CR then 49
    else if p == GP_HR then 48
    else if p == HSM then 41
    else if p == HSML then 43
    else if p == HSMP then 42
    else if p == IC then 17
    else if p == ICL then 19
    else if p == IFC then 13
    else if p == IFCL then 14
    else if p == L then 6
    else if p == OBF then 7
    else if p == OBFS then 8
    else if p == OCP then 52
    else if p == OHF then 9
    else if p == OHFS then 10
    else if p == PI then 1
    else if p == PLM then 38
    else if p == PLML then 40
    else if p == PLMP then 39
    else if p == PRM then 29
    else if p == PRML then 31
    else if p == PRMP then 30
    else if p == RBM then 35
    else if p == RBML then 37
    else if p == RBMP then 36
    else if p == S then 5
    else if p == SEM then 32
    else if p == SEML then 34
    else if p == SEMP then 33
    else if p == SP then 4
    else if p == SPC then 15
    else if p == SPCL then 16
    else if p == STP then 44
    else if p == TM then 51
    else if p == TWP then 45
    else if p == billet then 24
    else if p == bloom then 27
    else if p == castiron then 70
    else if p == caststeel then 71
    else if p == crc then 65
    else if p == crccoated then 68
    else if p == crcgalv then 66
    else if p == crctinned then 67
    else if p == elsheet then 64
    else if p == hrc then 60
    else if p == hrcgalv then 69
    else if p == hrns then 61
    else if p == ingots then 18
    else if p == plate then 59
    else if p == rodbar then 58
    else if p == rodrebar then 56
    else if p == rodwire then 57
    else if p == seamlesstube then 62
    else if p == secheavy then 53
    else if p == seclight then 54
    else if p == secrail then 55
    else if p == slab then 21
    else 63
  }

  /** The class and the output list of the constructor call assigned to a variable. */
  datatype Declaration = Declaration(kind: Kind, outputs: seq<Variable>)

  /**
   * `EfficiencyProcess(name, outputs)`, `AllocationProcess(name, outputs)` or
   * `SinkProcess(name)`, without the name, which `Name` gives.
   */
  function Declare(p: Variable): Declaration {
    if p == BF then Declaration(Efficiency, [PI, L])
    else if p == CCBM then Declaration(Efficiency, [bloom, CCBML])
    else if p == CCBML then Declaration(DirichletAllocation, [L, SP, CCBM])
    else if p == CCBT then Declaration(Efficiency, [billet, CCBTL])
    else if p == CCBTL then Declaration(DirichletAllocation, [L, SP, CCBT])
    else if p == CCS then Declaration(Efficiency, [slab, CCSL])
    else if p == CCSL then Declaration(DirichletAllocation, [L, SP, CCS])
    else if p == CRM then Declaration(Efficiency, [CRMP, SP])
    else if p == CRMP then Declaration(DirichletAllocation, [elsheet, crc, GP_CR, TM])
    else if p == DR then Declaration(Efficiency, [DRI, L])
    else if p == DRI then Declaration(DirichletAllocation, [EAF])
    else if p == EAF then Declaration(Efficiency, [EAFS, L])
    else if p == EAFS then Declaration(DirichletAllocation, [CCBT, CCBM, IC, SPC])
    else if p == GPP_CR then Declaration(DirichletAllocation, [crcgalv, OCP])
    else if p == GP_CR then Declaration(Efficiency, [GPP_CR, SP])
    else if p == GP_HR then Declaration(Efficiency, [hrcgalv, SP])
    else if p == HSM then Declaration(Efficiency, [HSMP, HSML])
    else if p == HSML then Declaration(DirichletAllocation, [L, SP])
    else if p == HSMP then Declaration(DirichletAllocation, [TWP, CRM, GP_HR, hrc, hrns])
    else if p == IC then Declaration(Efficiency, [ingots, ICL])
    else if p == ICL then Declaration(DirichletAllocation, [L, IC])
    else if p == IFC then Declaration(Efficiency, [castiron, IFCL])
    else if p == IFCL then Declaration(DirichletAllocation, [L, IFC])
    else if p == L then Declaration(Sink, [])
    else if p == OBF then Declaration(Efficiency, [OBFS, L])
    else if p == OBFS then Declaration(DirichletAllocation, [CCS, CCBT, CCBM, IC])
    else if p == OCP then Declaration(Efficiency, [crccoated, SP])
    else if p == OHF then Declaration(Efficiency, [OHFS, L])
    else if p == OHFS then Declaration(DirichletAllocation, [IC])
    else if p == PI then Declaration(DirichletAllocation, [OBF, OHF, EAF, IFC])
    else if p == PLM then Declaration(Efficiency, [PLMP, PLML])
    else if p == PLML then Declaration(DirichletAllocation, [L, SP])
    else if p == PLMP then Declaration(DirichletAllocation, [TWP, plate])
    else if p == PRM then Declaration(Efficiency, [PRMP, PRML])
    else if p == PRML then Declaration(DirichletAllocation, [L, SP])
    else if p == PRMP then Declaration(DirichletAllocation, [SEM, RBM, PLM, HSM])
    else if p == RBM then Declaration(Efficiency, [RBMP, RBML])
    else if p == RBML then Declaration(DirichletAllocation, [L, SP])
    else if p == RBMP then Declaration(DirichletAllocation, [STP, rodrebar, rodwire, rodbar])
    else if p == S then Declaration(DirichletAllocation, [OBF, EAF])
    else if p == SEM then Declaration(Efficiency, [SEMP, SEML])
    else if p == SEML then Declaration(DirichletAllocation, [L, SP])
    else if p == SEMP then Declaration(DirichletAllocation, [secheavy, seclight, secrail])
    else if p == SP then Declaration(Efficiency, [S, L])
    else if p == SPC then Declaration(Efficiency, [caststeel, SPCL])
    else if p == SPCL then Declaration(DirichletAllocation, [L, SPC])
    else if p == STP then Declaration(Efficiency, [seamlesstube, SP])
    else if p == TM then Declaration(Efficiency, [crctinned, SP])
    else if p == TWP then Declaration(Efficiency, [weldedtube, SP])
    else if p == billet then Declaration(DirichletAllocation, [HSM, RBM])
    else if p == bloom then Declaration(DirichletAllocation, [SEM])
    else if p == castiron then Declaration(Sink, [])
    else if p == caststeel then Declaration(Sink, [])
    else if p == crc then Declaration(Sink, [])
    else if p == crccoated then Declaration(Sink, [])
    else if p == crcgalv then Declaration(Sink, [])
    else if p == crctinned then Declaration(Sink, [])
    else if p == elsheet then Declaration(Sink, [])
    else if p == hrc then Declaration(Sink, [])
    else if p == hrcgalv then Declaration(Sink, [])
    else if p == hrns then Declaration(Sink, [])
    else if p == ingots then Declaration(DirichletAllocation, [PRM, SPC])
    else if p == plate then Declaration(Sink, [])
    else if p == rodbar then Declaration(Sink, [])
    else if p == rodrebar then Declaration(Sink, [])
    else if p == rodwire then Declaration(Sink, [])
    else if p == seamlesstube then Declaration(Sink, [])
    else if p == secheavy then Declaration(Sink, [])
    else if p == seclight then Declaration(Sink, [])
    else if p == secrail then Declaration(Sink, [])
    else if p == slab then Declaration(DirichletAllocation, [HSM, PLM])
    else Declaration(Sink, [])
  }

  /** The name passed to the constructor call of a variable. */
  function Name(p: Variable): string {
    if p == BF then "Blast furnace"
    else if p == CCBM then "CC bloom"
    else if p == CCBML then "CC bloom loss/scrap"
    else if p == CCBT then "CC billet"
    else if p == CCBTL then "CC billet loss/scrap"
    else if p == CCS then "CC slab"
    else if p == CCSL then "CC slab loss/scrap"
    else if p == CRM then "Cold rolling mill"
    else if p == CRMP then "Cold rolling mill products"
    else if p == DR then "Direct reduction"
    else if p == DRI then "Direct reduced iron"
    else if p == EAF then "Electric arc furnace"
    else if p == EAFS then "Electric arc furnace steel"
    else if p == GPP_CR then "Galvanising (CR) products"
    else if p == GP_CR then "Galvanising plant (CR)"
    else if p == GP_HR then "Galvanising plant (HR)"
    else if p == HSM then "Hot strip mill"
    else if p == HSML then "Hot strip mill loss/scrap"
    else if p == HSMP then "Hot strip mill products"
    else if p == IC then "Ingot casting"
    else if p == ICL then "Ingot casting loss/scrap"
    else if p == IFC then "Foundry iron casting"
    else if p == IFCL then "Foundry iron casting loss/scrap"
    else if p == L then "Loss"
    else if p == OBF then "Oxygen blown furnace"
    else if p == OBFS then "Oxygen blown furnace steel"
    else if p == OCP then "Organic coating plant"
    else if p == OHF then "Open hearth furnace"
    else if p == OHFS then "Open hearth furnace steel"
    else if p == PI then "Pig iron"
    else if p == PLM then "Plate mill"
    else if p == PLML then "Plate mill loss/scrap"
    else if p == PLMP then "Plate mill products"
    else if p == PRM then "Primary mill"
    else if p == PRML then "Primary mill loss/scrap"
    else if p == PRMP then "Primary mill products"
    else if p == RBM then "Rod/bar mill"
    else if p == RBML then "Rod/bar mill loss/scrap"
    else if p == RBMP then "Rod/bar mill products"
    else if p == S then "Scrap"
    else if p == SEM then "Section mill"
    else if p == SEML then "Section mill loss/scrap"
    else if p == SEMP then "Section mill products"
    else if p == SP then "Scrap preparation"
    else if p == SPC then "Steel product casting"
    else if p == SPCL then "Steel product casting loss/scrap"
    else if p == STP then "Seamless tube plant"
    else if p == TM then "Tinmill"
    else if p == TWP then "Tube welding plant"
    else if p == billet then "Billet"
    else if p == bloom then "Bloom"
    else if p == castiron then "Cast iron"
    else if p == caststeel then "Cast steel"
    else if p == crc then "Cold rolled coil"
    else if p == crccoated then "CRC coated"
    else if p == crcgalv then "CRC galvanised"
    else if p == crctinned then "CRC tinned"
    else if p == elsheet then "Electical sheet"
    else if p == hrc then "HR coil"
    else if p == hrcgalv then "HRC galvanised"
    else if p == hrns then "HR narrow strip"
    else if p == ingots then "Ingots"
    else if p == plate then "Plate"
    else if p == rodbar then "HR bar"
    else if p == rodrebar then "Rebar"
    else if p == rodwire then "Wire rod"
    else if p == seamlesstube then "Seamless tube"
    else if p == secheavy then "Sections (heavy)"
    else if p == seclight then "Sections (light)"
    else if p == secrail then "Sections (rail)"
    else if p == slab then "Slab"
    else "Welded tube"
  }

  /** The output ids of `p`'s process: the names of the variables its output list mentions. */
  function OutputIds(p: Variable): (r: seq<string>)
    ensures |r| == |Declare(p).outputs|
    ensures forall m :: 0 <= m < |r| ==> r[m] == Id(Declare(p).outputs[m])
  {
    seq(|Declare(p).outputs|, m requires 0 <= m < |Declare(p).outputs| => Id(Declare(p).outputs[m]))
  }

  /** The constructor call bound to `p`: its process, or the error it raises. */
  function Construct(p: Variable): Result<Process, ConfigError> {
    NewProcess(Declare(p).kind, Name(p), OutputIds(p))
  }

  /** The dictionary entry of `p` when its constructor succeeds. */
  function Bound(p: Variable): Entry {
    Entry(Id(p), Process(Declare(p).kind, Name(p), OutputIds(p)))
  }

  /** `locals().items()` at the return: each variable and what its constructor gave, in assignment order. */
  function Locals(): (r: seq<(string, Result<Process, ConfigError>)>)
    ensures |r| == Count
  {
    seq(Count, i requires 0 <= i < Count => (Id(DeclAt(i)), Construct(DeclAt(i))))
  }

  function EntryId(e: Entry): string {
    e.id
  }

  /**
   * Runs the assignments in order: the first constructor that raises ends
   * the function with its error; otherwise every variable holds its process.
   */
  function Collect(ds: seq<(string, Result<Process, ConfigError>)>): (r: Result<Graph, ConfigError>)
    ensures r.Ok? <==> forall i :: 0 <= i < |ds| ==> ds[i].1.Ok?
    ensures r.Ok? ==> |r.value| == |ds|
    ensures r.Ok? ==> forall i :: 0 <= i < |ds| ==> r.value[i] == Entry(ds[i].0, ds[i].1.value)
    ensures r.Err? ==> exists i :: 0 <= i < |ds| && ds[i].1 == Err(r.error) && forall k :: 0 <= k < i ==> ds[k].1.Ok?
    decreases |ds|
  {
    if |ds| == 0 then Ok([])
    else match ds[0].1
      case Err(e) => Err(e)
      case Ok(process) =>
        var rest := Collect(ds[1..]);
        if rest.Err? then
          assert forall k :: 1 <= k < |ds| ==> ds[1..][k - 1] == ds[k];
          Err(rest.error)
        else Ok([Entry(ds[0].0, process)] + rest.value)
  }

  /**
   * `OrderedDict(sorted(locals().items()))`: fails with the first constructor
   * error, and otherwise holds the assigned entries reordered by id.
   */
  function DefineProcesses(): (r: Result<Graph, ConfigError>)
    ensures r.Ok? <==> Collect(Locals()).Ok?
    ensures r.Err? ==> r.error == Collect(Locals()).error
    ensures r.Ok? ==> SortedBy(r.value, EntryId) && multiset(r.value) == multiset(Collect(Locals()).value)
  {
    match Collect(Locals())
    case Err(e) => Err(e)
    case Ok(g) =>
      SortByCorrect(g, EntryId);
      Ok(SortBy(g, EntryId))
  }

  /** The dictionary `define_processes` returns; `DefineProcessesResult` shows that it returns one. */
  function Processes(): Graph {
    match DefineProcesses()
    case Ok(g) => g
    case Err(_) => []
  }

  /** A loss or scrap destination: the loss sink, scrap preparation, or an allocation that sends to the loss sink. */
  predicate LossOrScrap(q: Variable) {
    q == L || q == SP || (Declare(q).kind == DirichletAllocation && L in Declare(q).outputs)
  }

  /**
   * What each constructor call of the table satisfies: its output count suits
   * its class (two for an efficiency, at least one for an allocation, none
   * for a sink), it sends to neither itself nor one variable twice, and the
   * second output of an efficiency is a loss or scrap destination.
   */
  predicate WellDeclared(p: Variable) {
    var d := Declare(p);
    && (d.kind == Efficiency || d.kind == DirichletAllocation || d.kind == Sink)
    && ArityOk(d.kind, |d.outputs|)
    && p !in d.outputs
    && (forall a, b :: 0 <= a < b < |d.outputs| ==> d.outputs[a] != d.outputs[b])
    && (d.kind == Efficiency ==> LossOrScrap(d.outputs[1]))
  }

  lemma AdjacentIdsFrom0(p: Variable)
    requires 0 <= p < 6
    ensures StrLess(Id(p), Id(p + 1))
  {
    if p == BF {
      assert StrLess("BF", "CCBM");
    } else if p == CCBM {
      assert StrLess("CCBM", "CCBML");
    } else if p == CCBML {
      assert StrLess("CCBML", "CCBT");
    } else if p == CCBT {
      assert StrLess("CCBT", "CCBTL");
    } else if p == CCBTL {
      assert StrLess("CCBTL", "CCS");
    } else {
      assert StrLess("CCS", "CCSL");
    }
  }

  lemma AdjacentIdsFrom6(p: Variable)
    requires 6 <= p < 12
    ensures StrLess(Id(p), Id(p + 1))
  {
    if p == CCSL {
      assert StrLess("CCSL", "CRM");
    } else if p == CRM {
      assert StrLess("CRM", "CRMP");
    } else if p == CRMP {
      assert StrLess("CRMP", "DR");
    } else if p == DR {
      assert StrLess("DR", "DRI");
    } else if p == DRI {
      assert StrLess("DRI", "EAF");
    } else {
      assert StrLess("EAF", "EAFS");
    }
  }

  lemma AdjacentIdsFrom12(p: Variable)
    requires 12 <= p < 18
    ensures StrLess(Id(p), Id(p + 1))
  {
    if p == EAFS {
      assert StrLess("EAFS", "GPP_CR");
    } else if p == GPP_CR {
      assert StrLess("GPP_CR", "GP_CR");
    } else if p == GP_CR {
      assert StrLess("GP_CR", "GP_HR");
    } else if p == GP_HR {
      assert StrLess("GP_HR", "HSM");
    } else if p == HSM {
      assert StrLess("HSM", "HSML");
    } else {
      assert StrLess("HSML", "HSMP");
    }
  }

  lemma AdjacentIdsFrom18(p: Variable)
    requires 18 <= p < 24
    ensures StrLess(Id(p), Id(p + 1))
  {
    if p == HSMP {
      assert StrLess("HSMP", "IC");
    } else if p == IC {
      assert StrLess("IC", "ICL");
    } else if p == ICL {
      assert StrLess("ICL", "IFC");
    } else if p == IFC {
      assert StrLess("IFC", "IFCL");
    } else if p == IFCL {
      assert StrLess("IFCL", "L");
    } else {
      assert StrLess("L", "OBF");
    }
  }

  lemma AdjacentIdsFrom24(p: Variable)
    requires 24 <= p < 30
    ensures StrLess(Id(p), Id(p + 1))
  {
    if p == OBF {
      assert StrLess("OBF", "OBFS");
    } else if p == OBFS {
      assert StrLess("OBFS", "OCP");
    } else if p == OCP {
      assert StrLess("OCP", "OHF");
    } else if p == OHF {
      assert StrLess("OHF", "OHFS");
    } else if p == OHFS {
      assert StrLess("OHFS", "PI");
    } else {
      assert StrLess("PI", "PLM");
    }
  }

  lemma AdjacentIdsFrom30(p: Variable)
    requires 30 <= p < 36
    ensures StrLess(Id(p), Id(p + 1))
  {
    if p == PLM {
      assert StrLess("PLM", "PLML");
    } else if p == PLML {
      assert StrLess("PLML", "PLMP");
    } else if p == PLMP {
      assert StrLess("PLMP", "PRM");
    } else if p == PRM {
      assert StrLess("PRM", "PRML");
    } else if p == PRML {
      assert StrLess("PRML", "PRMP");
    } else {
      assert StrLess("PRMP", "RBM");
    }
  }

  lemma AdjacentIdsFrom36(p: Variable)
    requires 36 <= p < 42
    ensures StrLess(Id(p), Id(p + 1))
  {
    if p == RBM {
      assert StrLess("RBM", "RBML");
    } else if p == RBML {
      assert StrLess("RBML", "RBMP");
    } else if p == RBMP {
      assert StrLess("RBMP", "S");
    } else if p == S {
      assert StrLess("S", "SEM");
    } else if p == SEM {
      assert StrLess("SEM", "SEML");
    } else {
      assert StrLess("SEML", "SEMP");
    }
  }

  lemma AdjacentIdsFrom42(p: Variable)
    requires 42 <= p < 48
    ensures StrLess(Id(p), Id(p + 1))
  {
    if p == SEMP {
      assert StrLess("SEMP", "SP");
    } else if p == SP {
      assert StrLess("SP", "SPC");
    } else if p == SPC {
      assert StrLess("SPC", "SPCL");
    } else if p == SPCL {
      assert StrLess("SPCL", "STP");
    } else if p == STP {
      assert StrLess("STP", "TM");
    } else {
      assert StrLess("TM", "TWP");
    }
  }

  lemma AdjacentIdsFrom48(p: Variable)
    requires 48 <= p < 54
    ensures StrLess(Id(p), Id(p + 1))
  {
    if p == TWP {
      assert StrLess("TWP", "billet");
    } else if p == billet {
      assert StrLess("billet", "bloom");
    } else if p == bloom {
      assert StrLess("bloom", "castiron");
    } else if p == castiron {
      assert StrLess("castiron", "caststeel");
    } else if p == caststeel {
      assert StrLess("caststeel", "crc");
    } else {
      assert StrLess("crc", "crccoated");
    }
  }

  lemma AdjacentIdsFrom54(p: Variable)
    requires 54 <= p < 60
    ensures StrLess(Id(p), Id(p + 1))
  {
    if p == crccoated {
      assert StrLess("crccoated", "crcgalv");
    } else if p == crcgalv {
      assert StrLess("crcgalv", "crctinned");
    } else if p == crctinned {
      assert StrLess("crctinned", "elsheet");
    } else if p == elsheet {
      assert StrLess("elsheet", "hrc");
    } else if p == hrc {
      assert StrLess("hrc", "hrcgalv");
    } else {
      assert StrLess("hrcgalv", "hrns");
    }
  }

  lemma AdjacentIdsFrom60(p: Variable)
    requires 60 <= p < 66
    ensures StrLess(Id(p), Id(p + 1))
  {
    if p == hrns {
      assert StrLess("hrns", "ingots");
    } else if p == ingots {
      assert StrLess("ingots", "plate");
    } else if p == plate {
      assert StrLess("plate", "rodbar");
    } else if p == rodbar {
      assert StrLess("rodbar", "rodrebar");
    } else if p == rodrebar {
      assert StrLess("rodrebar", "rodwire");
    } else {
      assert StrLess("rodwire", "seamlesstube");
    }
  }

  lemma AdjacentIdsFrom66(p: Variable)
    requires 66 <= p < 71
    ensures StrLess(Id(p), Id(p + 1))
  {
    if p == seamlesstube {
      assert StrLess("seamlesstube", "secheavy");
    } else if p == secheavy {
      assert StrLess("secheavy", "seclight");
    } else if p == seclight {
      assert StrLess("seclight", "secrail");
    } else if p == secrail {
      assert StrLess("secrail", "slab");
    } else {
      assert StrLess("slab", "weldedtube");
    }
  }

  /**
   * The end points of the network: the loss sink and the finished and cast
   * products, i.e. every variable from `castiron` on except the
   * intermediate products `ingots` and `slab`.
   */
  predicate Terminal(p: Variable) {
    p == L || (castiron <= p && p != ingots && p != slab)
  }

  lemma WellDeclaredFrom0(p: Variable)
    requires 0 <= p < 6
    ensures WellDeclared(p)
    ensures Declare(p).kind == Sink <==> Terminal(p)
  {
  }

  lemma WellDeclaredFrom6(p: Variable)
    requires 6 <= p < 12
    ensures WellDeclared(p)
    ensures Declare(p).kind == Sink <==> Terminal(p)
  {
  }

  lemma WellDeclaredFrom12(p: Variable)
    requires 12 <= p < 18
    ensures WellDeclared(p)
    ensures Declare(p).kind == Sink <==> Terminal(p)
  {
  }

  lemma WellDeclaredFrom18(p: Variable)
    requires 18 <= p < 24
    ensures WellDeclared(p)
    ensures Declare(p).kind == Sink <==> Terminal(p)
  {
  }

  lemma WellDeclaredFrom24(p: Variable)
    requires 24 <= p < 30
    ensures WellDeclared(p)
    ensures Declare(p).kind == Sink <==> Terminal(p)
  {
  }

  lemma WellDeclaredFrom30(p: Variable)
    requires 30 <= p < 36
    ensures WellDeclared(p)
    ensures Declare(p).kind == Sink <==> Terminal(p)
  {
  }

  lemma WellDeclaredFrom36(p: Variable)
    requires 36 <= p < 42
    ensures WellDeclared(p)
    ensures Declare(p).kind == Sink <==> Terminal(p)
  {
  }

  lemma WellDeclaredFrom42(p: Variable)
    requires 42 <= p < 48
    ensures WellDeclared(p)
    ensures Declare(p).kind == Sink <==> Terminal(p)
  {
  }

  lemma WellDeclaredFrom48(p: Variable)
    requires 48 <= p < 54
    ensures WellDeclared(p)
    ensures Declare(p).kind == Sink <==> Terminal(p)
  {
  }

  lemma WellDeclaredFrom54(p: Variable)
    requires 54 <= p < 60
    ensures WellDeclared(p)
    ensures Declare(p).kind == Sink <==> Terminal(p)
  {
  }

  lemma WellDeclaredFrom60(p: Variable)
    requires 60 <= p < 66
    ensures WellDeclared(p)
    ensures Declare(p).kind == Sink <==> Terminal(p)
  {
  }

  lemma WellDeclaredFrom66(p: Variable)
    requires 66 <= p < 72
    ensures WellDeclared(p)
    ensures Declare(p).kind == Sink <==> Terminal(p)
  {
  }

  lemma DeclIndexAtFrom0(i: nat)
    requires 0 <= i < 24
    ensures DeclIndex(DeclAt(i)) == i
  {
  }

  lemma DeclAtIndexFrom0(p: Variable)
    requires 0 <= p < 24
    ensures DeclIndex(p) < Count && DeclAt(DeclIndex(p)) == p
  {
  }

  lemma DeclIndexAtFrom24(i: nat)
    requires 24 <= i < 48
    ensures DeclIndex(DeclAt(i)) == i
  {
  }

  lemma DeclAtIndexFrom24(p: Variable)
    requires 24 <= p < 48
    ensures DeclIndex(p) < Count && DeclAt(DeclIndex(p)) == p
  {
  }

  lemma DeclIndexAtFrom48(i: nat)
    requires 48 <= i < 72
    ensures DeclIndex(DeclAt(i)) == i
  {
  }

  lemma DeclAtIndexFrom48(p: Variable)
    requires 48 <= p < 72
    ensures DeclIndex(p) < Count && DeclAt(DeclIndex(p)) == p
  {
  }
  /** Each name is smaller than the next one. */
  lemma AdjacentIds(p: Variable)
    requires p < Count - 1
    ensures StrLess(Id(p), Id(p + 1))
  {
    if p < 6 {
      AdjacentIdsFrom0(p);
    } else if p < 12 {
      AdjacentIdsFrom6(p);
    } else if p < 18 {
      AdjacentIdsFrom12(p);
    } else if p < 24 {
      AdjacentIdsFrom18(p);
    } else if p < 30 {
      AdjacentIdsFrom24(p);
    } else if p < 36 {
      AdjacentIdsFrom30(p);
    } else if p < 42 {
      AdjacentIdsFrom36(p);
    } else if p < 48 {
      AdjacentIdsFrom42(p);
    } else if p < 54 {
      AdjacentIdsFrom48(p);
    } else if p < 60 {
      AdjacentIdsFrom54(p);
    } else if p < 66 {
      AdjacentIdsFrom60(p);
    } else {
      AdjacentIdsFrom66(p);
    }
  }

  /** Every constructor call of the table is well declared, and the sinks are exactly the terminal variables. */
  lemma AllWellDeclared(p: Variable)
    ensures WellDeclared(p)
    ensures Declare(p).kind == Sink <==> Terminal(p)
  {
    if p < 6 {
      WellDeclaredFrom0(p);
    } else if p < 12 {
      WellDeclaredFrom6(p);
    } else if p < 18 {
      WellDeclaredFrom12(p);
    } else if p < 24 {
      WellDeclaredFrom18(p);
    } else if p < 30 {
      WellDeclaredFrom24(p);
    } else if p < 36 {
      WellDeclaredFrom30(p);
    } else if p < 42 {
      WellDeclaredFrom36(p);
    } else if p < 48 {
      WellDeclaredFrom42(p);
    } else if p < 54 {
      WellDeclaredFrom48(p);
    } else if p < 60 {
      WellDeclaredFrom54(p);
    } else if p < 66 {
      WellDeclaredFrom60(p);
    } else {
      WellDeclaredFrom66(p);
    }
  }

  /** No variable is assigned twice. */
  lemma DeclIndexAt(i: nat)
    requires i < Count
    ensures DeclIndex(DeclAt(i)) == i
  {
    if i < 24 {
      DeclIndexAtFrom0(i);
    } else if i < 48 {
      DeclIndexAtFrom24(i);
    } else {
      DeclIndexAtFrom48(i);
    }
  }

  /** Every variable is assigned. */
  lemma DeclAtIndex(p: Variable)
    ensures DeclIndex(p) < Count && DeclAt(DeclIndex(p)) == p
  {
    if p < 24 {
      DeclAtIndexFrom0(p);
    } else if p < 48 {
      DeclAtIndexFrom24(p);
    } else {
      DeclAtIndexFrom48(p);
    }
  }
  /** The names of the variables, in the order of their numbers, are strictly increasing. */
  lemma IdsAscending(p: Variable, q: Variable)
    requires p < q
    ensures StrLess(Id(p), Id(q))
  {
    var s: seq<Variable> := seq(Count, i requires 0 <= i < Count => i as Variable);
    forall i | 0 <= i < |s| - 1
      ensures StrLess(Id(s[i]), Id(s[i + 1]))
    {
      AdjacentIds(s[i]);
    }
    NeighboursStrictlySorted(s, Id);
    assert s[p] == p && s[q] == q;
  }

  /** Different variables have different names. */
  lemma IdInjective(p: Variable, q: Variable)
    ensures Id(p) == Id(q) <==> p == q
  {
    StrLessIrreflexive(Id(p));
    if p < q {
      IdsAscending(p, q);
    } else if q < p {
      IdsAscending(q, p);
    }
  }

  /** No constructor call of the table raises: each gives the process its arguments describe. */
  lemma ConstructOk(p: Variable)
    ensures Construct(p) == Ok(Bound(p).process)
  {
    AllWellDeclared(p);
  }

  /** The entries of the variables in assignment order. */
  function Assigned(): (r: Graph)
    ensures |r| == Count
  {
    seq(Count, i requires 0 <= i < Count => Bound(DeclAt(i)))
  }

  /** When every assignment succeeds, the variables hold exactly the processes in order. */
  lemma {:induction false} CollectSucceeds(ds: seq<(string, Result<Process, ConfigError>)>, g: Graph)
    requires |ds| == |g|
    requires forall i :: 0 <= i < |ds| ==> ds[i] == (g[i].id, Ok(g[i].process))
    ensures Collect(ds) == Ok(g)
    decreases |ds|
  {
    if |ds| > 0 {
      CollectSucceeds(ds[1..], g[1..]);
      assert g == [g[0]] + g[1..];
    }
  }

  /** Running the assignments raises nothing and binds every variable to its entry. */
  lemma CollectLocals()
    ensures Collect(Locals()) == Ok(Assigned())
  {
    var ds, g := Locals(), Assigned();
    forall i | 0 <= i < Count
      ensures ds[i] == (g[i].id, Ok(g[i].process))
    {
      var p := DeclAt(i);
      ConstructOk(p);
      assert ds[i] == (Id(p), Construct(p));
      assert g[i] == Bound(p);
    }
    CollectSucceeds(ds, g);
  }

  /** The assigned entries have distinct ids and are exactly the entries of the variables. */
  lemma AssignedEntries()
    ensures forall i, j :: 0 <= i < j < Count ==> EntryId(Assigned()[i]) != EntryId(Assigned()[j])
    ensures forall e :: e in Assigned() <==> exists p: Variable :: e == Bound(p)
  {
    var g := Assigned();
    forall i, j | 0 <= i < j < Count
      ensures EntryId(g[i]) != EntryId(g[j])
    {
      DeclIndexAt(i);
      DeclIndexAt(j);
      IdInjective(DeclAt(i), DeclAt(j));
    }
    forall e
      ensures e in g <==> exists p: Variable :: e == Bound(p)
    {
      if exists p: Variable :: e == Bound(p) {
        var p: Variable :| e == Bound(p);
        DeclAtIndex(p);
        assert g[DeclIndex(p)] == e;
      }
    }
  }

  /** Sorting entries with distinct ids by id gives the same entries in strictly increasing order of id. */
  lemma SortEntries(g: Graph)
    requires forall i, j :: 0 <= i < j < |g| ==> EntryId(g[i]) != EntryId(g[j])
    ensures |SortBy(g, EntryId)| == |g|
    ensures StrictlySortedBy(SortBy(g, EntryId), EntryId)
    ensures forall e :: e in SortBy(g, EntryId) <==> e in g
  {
    SortByDistinct(g, EntryId);
    SortByCorrect(g, EntryId);
    var r := SortBy(g, EntryId);
    assert |r| == |multiset(r)| == |multiset(g)| == |g|;
    forall e
      ensures e in r <==> e in g
    {
      assert e in r <==> e in multiset(r);
      assert e in g <==> e in multiset(g);
    }
  }

  /**
   * `define_processes` returns a dictionary of the 72 processes in strictly
   * increasing order of their ids, holding exactly the entries the
   * variables are bound to.
   */
  lemma DefineProcessesResult()
    ensures DefineProcesses() == Ok(Processes())
    ensures |Processes()| == Count
    ensures StrictlySortedBy(Processes(), EntryId)
    ensures forall e :: e in Processes() <==> exists p: Variable :: e == Bound(p)
  {
    CollectLocals();
    AssignedEntries();
    SortEntries(Assigned());
  }

  /** Each variable's entry sits at some position of the result. */
  lemma BoundIn(p: Variable) returns (j: nat)
    ensures j < |Processes()| && Processes()[j] == Bound(p)
  {
    DefineProcessesResult();
    assert Bound(p) in Processes();
    j :| 0 <= j < |Processes()| && Processes()[j] == Bound(p);
  }

  /** Each entry of the result is the entry of some variable. */
  lemma EntryOf(j: nat) returns (p: Variable)
    requires j < |Processes()|
    ensures Processes()[j] == Bound(p)
  {
    DefineProcessesResult();
    assert Processes()[j] in Processes();
    p :| Processes()[j] == Bound(p);
  }

  /** The entry of a loss or scrap destination: the loss sink, scrap preparation, or an allocation that sends to the loss sink. */
  predicate LossOrScrapEntry(e: Entry) {
    e.id == "L" || e.id == "SP" || (e.process.kind == DirichletAllocation && "L" in e.process.outputs)
  }

  /** The entries of the result are in strictly increasing order of id. */
  lemma ProcessesSorted()
    ensures StrictlySortedBy(Processes(), EntryId)
  {
    DefineProcessesResult();
  }

  /** The keys of the result are distinct. */
  lemma KeysDistinct()
    ensures DistinctNames(Keys(Processes()))
  {
    ProcessesSorted();
    var g := Processes();
    forall a, b | 0 <= a < b < |g|
      ensures g[a].id != g[b].id
    {
      assert StrLess(EntryId(g[a]), EntryId(g[b]));
      StrLessIrreflexive(g[a].id);
    }
  }

  /**
   * Every output id of every process is a key of the result: each output
   * names a defined process, the shared loss sink `L` included.
   */
  lemma OutputsAreKeys()
    ensures forall j, m :: 0 <= j < |Processes()| && 0 <= m < |Processes()[j].process.outputs| ==>
              Processes()[j].process.outputs[m] in Keys(Processes())
    ensures Bound(L) in Processes() && Bound(L) == Entry("L", Process(Sink, "Loss", []))
  {
    var g := Processes();
    forall j, m | 0 <= j < |g| && 0 <= m < |g[j].process.outputs|
      ensures g[j].process.outputs[m] in Keys(g)
    {
      var p := EntryOf(j);
      var q := Declare(p).outputs[m];
      var k := BoundIn(q);
      assert Keys(g)[k] == Id(q);
    }
    var k := BoundIn(L);
    LossSink();
  }

  /** The variable `L` holds the loss sink. */
  lemma LossSink()
    ensures Bound(L) == Entry("L", Process(Sink, "Loss", []))
  {
    assert Id(L) == "L";
    assert Name(L) == "Loss";
    assert Declare(L) == Declaration(Sink, []);
  }

  /**
   * Every process of the result is well formed (two outputs for an
   * efficiency, at least one for an allocation, none for a sink) and names
   * no output twice.
   */
  lemma ProcessesWellFormed()
    ensures forall j :: 0 <= j < |Processes()| ==> WellFormed(Processes()[j].process)
    ensures forall j :: 0 <= j < |Processes()| ==> DistinctNames(Processes()[j].process.outputs)
  {
    forall j | 0 <= j < |Processes()|
      ensures WellFormed(Processes()[j].process) && DistinctNames(Processes()[j].process.outputs)
    {
      ProcessWellFormedAt(j);
    }
  }

  lemma ProcessWellFormedAt(j: nat)
    requires j < |Processes()|
    ensures WellFormed(Processes()[j].process) && DistinctNames(Processes()[j].process.outputs)
  {
    var p := EntryOf(j);
    BoundWellFormed(p);
  }

  /** The entry a variable is bound to is well formed and names no output twice. */
  lemma BoundWellFormed(p: Variable)
    ensures WellFormed(Bound(p).process) && DistinctNames(Bound(p).process.outputs)
  {
    AllWellDeclared(p);
    var outs := Declare(p).outputs;
    forall a, b | 0 <= a < b < |outs|
      ensures Id(outs[a]) != Id(outs[b])
    {
      IdInjective(outs[a], outs[b]);
    }
  }

  /**
   * The sinks are exactly the processes without outputs, and exactly the
   * processes without parameters; every other process is an efficiency or
   * a Dirichlet allocation.
   */
  lemma Sinks()
    ensures forall j :: 0 <= j < |Processes()| ==>
              (Processes()[j].process.kind == Sink <==> |Processes()[j].process.outputs| == 0)
    ensures forall j :: 0 <= j < |Processes()| ==>
              (Processes()[j].process.kind == Sink <==> NParams(Processes()[j].process) == 0)
    ensures forall j :: 0 <= j < |Processes()| ==>
              Processes()[j].process.kind in {Efficiency, DirichletAllocation, Sink}
  {
    var g := Processes();
    forall j | 0 <= j < |g|
      ensures g[j].process.kind == Sink <==> |g[j].process.outputs| == 0
      ensures g[j].process.kind == Sink <==> NParams(g[j].process) == 0
      ensures g[j].process.kind in {Efficiency, DirichletAllocation, Sink}
    {
      var p := EntryOf(j);
      VariableShape(p);
    }
  }

  /** The shape of the process a variable holds: a sink exactly when it has no outputs, and exactly when it has no parameters. */
  lemma VariableShape(p: Variable)
    ensures Bound(p).process.kind == Sink <==> |Bound(p).process.outputs| == 0
    ensures Bound(p).process.kind == Sink <==> NParams(Bound(p).process) == 0
    ensures Bound(p).process.kind in {Efficiency, DirichletAllocation, Sink}
  {
    AllWellDeclared(p);
  }

  /**
   * The loss sink and the finished and cast products are the sinks of the
   * result: they send nothing on and take no parameters, and every other
   * variable holds a process that does.
   */
  lemma TerminalSinks(p: Variable)
    ensures Bound(p).process.kind == Sink <==> Terminal(p)
    ensures Terminal(p) <==> |Bound(p).process.outputs| == 0
    ensures Terminal(p) <==> NParams(Bound(p).process) == 0
  {
    AllWellDeclared(p);
  }

  /** No process lists itself among its outputs: material returns to a process only through another one. */
  lemma NoSelfEdges()
    ensures forall j :: 0 <= j < |Processes()| ==> Processes()[j].id !in Processes()[j].process.outputs
  {
    var g := Processes();
    forall j | 0 <= j < |g|
      ensures g[j].id !in g[j].process.outputs
    {
      var p := EntryOf(j);
      AllWellDeclared(p);
      var outs := Declare(p).outputs;
      forall m | 0 <= m < |outs|
        ensures Id(outs[m]) != Id(p)
      {
        IdInjective(outs[m], p);
      }
    }
  }

  /**
   * The second output of every efficiency, the one its loss share goes to,
   * is a loss or scrap destination of the result.
   */
  lemma EfficiencyLosses(j: nat)
    requires j < |Processes()| && Processes()[j].process.kind == Efficiency
    ensures |Processes()[j].process.outputs| == 2
    ensures exists k :: 0 <= k < |Processes()| && Processes()[k].id == Processes()[j].process.outputs[1] &&
              LossOrScrapEntry(Processes()[k])
  {
    var p := EntryOf(j);
    AllWellDeclared(p);
    var q := Declare(p).outputs[1];
    var k := BoundIn(q);
    LossOrScrapBound(q);
  }

  /** The entry of a loss or scrap destination is recognisable by its id and outputs. */
  lemma LossOrScrapBound(q: Variable)
    requires LossOrScrap(q)
    ensures LossOrScrapEntry(Bound(q))
  {
    if q == L {
      assert Id(L) == "L";
    } else if q == SP {
      assert Id(SP) == "SP";
    } else {
      var m :| 0 <= m < |Declare(q).outputs| && Declare(q).outputs[m] == L;
      assert Id(L) == "L";
      assert OutputIds(q)[m] == "L";
    }
  }

  /**
   * The casting processes recycle through their loss/scrap allocation: the
   * second output of each is its loss/scrap allocation, which returns
   * material to it (CCS, CCSL), (CCBT, CCBTL), (CCBM, CCBML), (IC, ICL),
   * (IFC, IFCL), (SPC, SPCL).
   */
  lemma RecyclingLoops(p: Variable, q: Variable)
    requires (p, q) in {(CCS, CCSL), (CCBT, CCBTL), (CCBM, CCBML), (IC, ICL), (IFC, IFCL), (SPC, SPCL)}
    ensures Declare(p).kind == Efficiency && Declare(p).outputs[1] == q
    ensures Declare(q).kind == DirichletAllocation && p in Declare(q).outputs && L in Declare(q).outputs
  {
  }

  /** Direct reduced iron, open hearth furnace steel and bloom are allocations with a single output. */
  lemma SingleOutputAllocations(p: Variable)
    requires p in {DRI, OHFS, bloom}
    ensures Declare(p).kind == DirichletAllocation && |Declare(p).outputs| == 1
  {
  }

  /**
   * `_build_matrices` over the steel network raises no KeyError: with
   * parameters that match the processes, every writing process resolves
   * its outputs.
   */
  lemma ProcessesResolvable(params: seq<Option<seq<real>>>)
    requires ParamsMatch(Processes(), params)
    ensures Resolvable(Processes(), params)
  {
    OutputsAreKeys();
    OutputsResolve(Processes(), params);
  }

  /**
   * In the steel network with valid samples, every process that writes a
   * column passes on all of its throughput, and so everything that enters
   * the system ends in the sinks.
   */
  lemma ProcessesConserve(params: seq<Option<seq<real>>>, X: seq<real>, I: seq<real>, j: nat)
    requires ParamsMatch(Processes(), params) && j < |Processes()|
    requires forall k :: 0 <= k < |Processes()| && params[k].Some? ==> ValidSample(Processes()[k].process, params[k].value)
    ensures Sum(TransferColumn(Processes(), params, j)) == if Writes(Processes(), params, j) then 1.0 else 0.0
    ensures |X| == |Processes()| && Equilibrium(TransferMatrix(Processes(), params), X, I) ==>
              Sum(I) == Sum(SinkThroughputs(Processes(), params, X))
  {
    var g := Processes();
    ProcessesResolvable(params);
    ProcessesWellFormed();
    assert Resolves(g, params, j);
    TransferColumnSum(g, params, j);
    if |X| == |g| && Equilibrium(TransferMatrix(g, params), X, I) {
      InputsEndInSinks(g, params, X, I);
    }
  }
}
