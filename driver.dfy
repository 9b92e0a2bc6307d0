/**
 * `main`: the flag checks, the defaults, the two name lookups and the
 * two-level switch that picks a `curve_dependent_main` instance. Parsing the
 * command line is done by `boost::program_options`; the model starts from its
 * variables map, keyed by long option name.
 */
module Driver {
  import opened Wrappers
  import Pipeline

  /** The parsed variables map: option name to value (switches map to ""). */
  type VariablesMap = map<string, string>

  /** The column counts of `plonk_arithmetization_params<W, PI, C, S>`. */
  datatype ArithmetizationParams = ArithmetizationParams(
    witnessColumns: nat, publicInputColumns: nat, constantColumns: nat, selectorColumns: nat)

  /** What `main` decides before it calls into the pipeline. */
  datatype Decision =
    | Help                                                      // usage printed, return 0
    | MissingFlag(name: string)                                 // usage printed, return 1
    | Dispatch(curve: int, params: ArithmetizationParams, job: Pipeline.Job)  // `curve`: the outer case taken
    | Unsupported(curve: int)                                   // diagnostic, then `assert(1==0 && ...)`
    | NoCase                                                    // no switch case taken: `return 0`

  /** The options that must be present, in the order `main` checks them. */
  const RequiredFlags: seq<string> := ["bytecode", "public-input", "assignment-table", "circuit"]

  const CurveOptions: map<string, int> :=
    map["pallas" := 0, "vesta" := 1, "ed25519" := 2, "bls12-381" := 3]
  const ArithmetizationOptions: map<string, int> :=
    map["tiny" := 0, "standard" := 1, "wide" := 2]

  const DefaultCurve: string := "pallas"
  const DefaultArithmetization: string := "standard"

  /** `std::map<std::string, int>::operator[]`: an absent key yields a value-initialised 0. */
  function Subscript(options: map<string, int>, key: string): (index: int)
    ensures index == 0 || index in options.Values
    ensures key in options ==> index == options[key]
    ensures key !in options ==> index == 0
  {
    if key in options then options[key] else 0
  }

  /** The inner switch: the column parameters each arithmetization index selects. */
  function ParamsFor(index: int): (p: Option<ArithmetizationParams>)
    ensures p.Some? <==> 0 <= index <= 2
  {
    match index
    case 0 => Some(ArithmetizationParams(9, 1, 1, 50))
    case 1 => Some(ArithmetizationParams(15, 5, 5, 50))
    case 2 => Some(ArithmetizationParams(150, 5, 1, 50))
    case _ => None
  }

  /** The value of an optional name flag, or its default when it is absent. */
  function OptionOr(vm: VariablesMap, name: string, default: string): (value: string)
    ensures value == default || value in vm.Values
    ensures name in vm ==> value == vm[name]
    ensures name !in vm ==> value == default
  {
    if name in vm then vm[name] else default
  }

  /** `main` up to the call into the pipeline. */
  function Decide(vm: VariablesMap): (d: Decision)
    ensures d == Help <==> "help" in vm
    ensures d.MissingFlag? ==> d.name in RequiredFlags && d.name !in vm
    ensures d.Dispatch? || d.Unsupported? ==> Complete(vm)
    ensures d.Dispatch? ==> d.curve == 0 && d.job == Pipeline.Job(vm["bytecode"], vm["public-input"],
      vm["assignment-table"], vm["circuit"], "check" in vm)
    ensures d.Unsupported? ==> 1 <= d.curve <= 3
  {
    if "help" in vm then Help
    else if "bytecode" !in vm then MissingFlag("bytecode")
    else if "public-input" !in vm then MissingFlag("public-input")
    else if "assignment-table" !in vm then MissingFlag("assignment-table")
    else if "circuit" !in vm then MissingFlag("circuit")
    else
      var curve := OptionOr(vm, "elliptic-curve-type", DefaultCurve);
      var setting := OptionOr(vm, "arithmetization-setting", DefaultArithmetization);
      var job := Pipeline.Job(vm["bytecode"], vm["public-input"], vm["assignment-table"], vm["circuit"],
                              "check" in vm);
      var curveIndex := Subscript(CurveOptions, curve);
      if curveIndex == 0 then
        match ParamsFor(Subscript(ArithmetizationOptions, setting))
        case Some(params) => Dispatch(curveIndex, params, job)
        case None => NoCase
      else if 1 <= curveIndex <= 3 then Unsupported(curveIndex)
      else NoCase
  }

  /**
   * The whole process: `libsFor` stands for the libraries instantiated with
   * the chosen parameters, `assertsEnabled` for a build without `NDEBUG`.
   */
  function Assigner(vm: VariablesMap, fs: Pipeline.FileSystem,
                    libsFor: ArithmetizationParams -> Pipeline.Libraries,
                    assertsEnabled: bool): (r: Pipeline.Report)
    ensures r.exit == Pipeline.Returned(0) || r.exit == Pipeline.Returned(1) || r.exit == Pipeline.Aborted
    ensures r.table.Some? ==> Decide(vm).Dispatch?
    ensures r.exit == Pipeline.Aborted ==> assertsEnabled && (Decide(vm).Unsupported? || "check" in vm)
  {
    match Decide(vm)
    case Help => Pipeline.Report(Pipeline.Returned(0), None, None)
    case MissingFlag(_) => Pipeline.Failed
    case Dispatch(_, params, job) => Pipeline.Outcome(fs, libsFor(params), job, assertsEnabled)
    case Unsupported(_) =>
      Pipeline.Report(if assertsEnabled then Pipeline.Aborted else Pipeline.Returned(0), None, None)
    case NoCase => Pipeline.Report(Pipeline.Returned(0), None, None)
  }

  /** `help` wins over everything else: exit 0, nothing opened. */
  lemma HelpFirst(vm: VariablesMap, fs: Pipeline.FileSystem,
                  libsFor: ArithmetizationParams -> Pipeline.Libraries, assertsEnabled: bool)
    requires "help" in vm
    ensures Decide(vm) == Help
    ensures Assigner(vm, fs, libsFor, assertsEnabled) == Pipeline.Report(Pipeline.Returned(0), None, None)
  {
  }

  /**
   * Without `help`, the required flags are checked in order and the first
   * missing one is reported, with exit 1 and nothing opened.
   */
  lemma FirstMissingFlag(vm: VariablesMap, k: nat, fs: Pipeline.FileSystem,
                         libsFor: ArithmetizationParams -> Pipeline.Libraries, assertsEnabled: bool)
    requires "help" !in vm && k < |RequiredFlags|
    requires forall j :: 0 <= j < k ==> RequiredFlags[j] in vm
    requires RequiredFlags[k] !in vm
    ensures Decide(vm) == MissingFlag(RequiredFlags[k])
    ensures Assigner(vm, fs, libsFor, assertsEnabled) == Pipeline.Failed
  {
  }

  /** A flag is reported missing exactly when `help` is absent and some required flag is. */
  lemma MissingFlagIff(vm: VariablesMap)
    ensures Decide(vm).MissingFlag? <==>
      "help" !in vm && exists j :: 0 <= j < |RequiredFlags| && RequiredFlags[j] !in vm
    ensures Decide(vm).MissingFlag? ==> Decide(vm).name in RequiredFlags
  {
  }

  /** The curve index of a name: its table entry, and 0 for any other name. */
  lemma CurveIndexOf(name: string)
    ensures 0 <= Subscript(CurveOptions, name) <= 3
    ensures Subscript(CurveOptions, name) == 0 <==>
      name != "vesta" && name != "ed25519" && name != "bls12-381"
  {
  }

  /** The arithmetization index of a name: its table entry, and 0 (tiny) for any other name. */
  lemma ArithmetizationIndexOf(name: string)
    ensures 0 <= Subscript(ArithmetizationOptions, name) <= 2
    ensures Subscript(ArithmetizationOptions, name) == 1 <==> name == "standard"
    ensures Subscript(ArithmetizationOptions, name) == 2 <==> name == "wide"
  {
  }

  /** Every lookup lands on a switch case: the fall-through `return 0` is never reached. */
  lemma NoFallThrough(vm: VariablesMap)
    ensures Decide(vm) != NoCase
  {
  }

  /** Each arithmetization index selects its own column tuple: no two indices share one. */
  lemma ParamsDistinct(i: int, j: int)
    requires ParamsFor(i).Some? && ParamsFor(i) == ParamsFor(j)
    ensures i == j
  {
  }

  /** No `help`, and every required flag present. */
  predicate Complete(vm: VariablesMap)
  {
    "help" !in vm && "bytecode" in vm && "public-input" in vm && "assignment-table" in vm && "circuit" in vm
  }

  /** An omitted `-e` means pallas: the pipeline runs, with the parameters the `-s` setting selects. */
  lemma OmittedCurveIsPallas(vm: VariablesMap)
    requires Complete(vm) && "elliptic-curve-type" !in vm
    ensures Decide(vm).Dispatch? && Decide(vm).curve == 0
    ensures Some(Decide(vm).params) ==
      ParamsFor(Subscript(ArithmetizationOptions, OptionOr(vm, "arithmetization-setting", DefaultArithmetization)))
  {
  }

  /** An omitted `-s` means standard: whenever the pipeline runs, it runs with (15, 5, 5, 50). */
  lemma OmittedSettingIsStandard(vm: VariablesMap)
    requires Complete(vm) && "arithmetization-setting" !in vm && Decide(vm).Dispatch?
    ensures Decide(vm).params == ArithmetizationParams(15, 5, 5, 50)
  {
  }

  /** An explicitly given but unknown curve name runs as pallas. */
  lemma UnknownCurveIsPallas(vm: VariablesMap)
    requires Complete(vm) && "elliptic-curve-type" in vm && vm["elliptic-curve-type"] !in CurveOptions
    ensures Decide(vm).Dispatch? && Decide(vm).curve == 0
  {
  }

  /** An explicitly given but unknown arithmetization name runs as tiny, (9, 1, 1, 50). */
  lemma UnknownSettingIsTiny(vm: VariablesMap)
    requires Complete(vm) && "arithmetization-setting" in vm
    requires vm["arithmetization-setting"] !in ArithmetizationOptions && Decide(vm).Dispatch?
    ensures Decide(vm).params == ArithmetizationParams(9, 1, 1, 50)
  {
  }

  /**
   * Omitted names take their defaults: no `-e` means pallas, no `-s` means
   * standard, so the pipeline runs with (15, 5, 5, 50).
   */
  lemma Defaults(vm: VariablesMap)
    requires Complete(vm)
    requires "elliptic-curve-type" !in vm && "arithmetization-setting" !in vm
    ensures Decide(vm) == Dispatch(0, ArithmetizationParams(15, 5, 5, 50),
      Pipeline.Job(vm["bytecode"], vm["public-input"], vm["assignment-table"], vm["circuit"], "check" in vm))
  {
  }

  /**
   * An explicitly given but unknown curve name is treated as pallas, and an
   * unknown arithmetization name as tiny, (9, 1, 1, 50).
   */
  lemma UnknownNamesFallBack(vm: VariablesMap)
    requires Complete(vm)
    requires "elliptic-curve-type" in vm && vm["elliptic-curve-type"] !in CurveOptions
    requires "arithmetization-setting" in vm && vm["arithmetization-setting"] !in ArithmetizationOptions
    ensures Decide(vm).Dispatch? && Decide(vm).curve == 0
    ensures Decide(vm).params == ArithmetizationParams(9, 1, 1, 50)
  {
  }

  /**
   * A complete command line dispatches exactly when the curve resolves to
   * pallas, and then with the parameters of the arithmetization index; any
   * other curve is unsupported.
   */
  lemma Selection(vm: VariablesMap)
    requires Complete(vm)
    ensures var curveIndex := Subscript(CurveOptions, OptionOr(vm, "elliptic-curve-type", DefaultCurve));
      var arithIndex := Subscript(ArithmetizationOptions, OptionOr(vm, "arithmetization-setting", DefaultArithmetization));
      && (Decide(vm).Dispatch? <==> curveIndex == 0)
      && (Decide(vm).Dispatch? ==> Some(Decide(vm).params) == ParamsFor(arithIndex))
      && (Decide(vm).Unsupported? <==> curveIndex != 0)
  {
  }

  /**
   * Vesta, ed25519 and bls12-381 never reach the pipeline: the assertion
   * aborts, or, with assertions compiled out, control falls to `return 0`.
   */
  lemma UnsupportedCurves(vm: VariablesMap, fs: Pipeline.FileSystem,
                          libsFor: ArithmetizationParams -> Pipeline.Libraries, assertsEnabled: bool)
    requires Complete(vm)
    requires "elliptic-curve-type" in vm
    requires vm["elliptic-curve-type"] in {"vesta", "ed25519", "bls12-381"}
    ensures Decide(vm).Unsupported?
    ensures Assigner(vm, fs, libsFor, assertsEnabled) ==
      Pipeline.Report(if assertsEnabled then Pipeline.Aborted else Pipeline.Returned(0), None, None)
  {
  }
}
