/** The parsed command line (`src/arguments.rs`) and its verbosity-to-filter mapping. */
module Arguments {
  import opened Wrappers

  /** The three verbosity switches `-d`, `-v` and `-q`. */
  datatype Verbosity = Verbosity(debug: bool, verbose: bool, quiet: bool)

  /** `--access-key` and `--secret-key`, each optional. */
  datatype Credentials = Credentials(accessKey: Option<string>, secretKey: Option<string>)

  /** The whole command line; `inputFile` is the optional positional path. */
  datatype Arguments = Arguments(verbosity: Verbosity, credentials: Credentials, inputFile: Option<string>)

  /** The `log` crate's level filter, from most quiet to most verbose. */
  datatype LevelFilter = Off | Error | Warn | Info | Debug | Trace

  /**
   * The verbosity switches are declared as one argument group that admits
   * at most one member, so the parser never yields two of them together.
   */
  predicate AtMostOneFlag(v: Verbosity)
  {
    !(v.debug && v.verbose) && !(v.debug && v.quiet) && !(v.verbose && v.quiet)
  }

  /** `Verbosity::to_filter`: debug wins over verbose, verbose over quiet, and Info is the default. */
  function ToFilter(v: Verbosity): (f: LevelFilter)
    ensures f == Trace <==> v.debug
    ensures f == Debug <==> !v.debug && v.verbose
    ensures f == Warn <==> !v.debug && !v.verbose && v.quiet
    ensures f == Info <==> !v.debug && !v.verbose && !v.quiet
  {
    if v.debug then Trace
    else if v.verbose then Debug
    else if v.quiet then Warn
    else Info
  }

  /** Which switch a rule of the priority table looks at. */
  datatype Switch = DebugSwitch | VerboseSwitch | QuietSwitch

  function IsOn(v: Verbosity, s: Switch): bool
  {
    match s
    case DebugSwitch => v.debug
    case VerboseSwitch => v.verbose
    case QuietSwitch => v.quiet
  }

  /** The switches in priority order, each with the filter it selects. */
  const PriorityTable: seq<(Switch, LevelFilter)> :=
    [(DebugSwitch, Trace), (VerboseSwitch, Debug), (QuietSwitch, Warn)]

  /** Reference reading of a priority table: the filter of the first rule whose switch is on. */
  function FirstOn(v: Verbosity, rules: seq<(Switch, LevelFilter)>, default: LevelFilter): LevelFilter
  {
    if rules == [] then default
    else if IsOn(v, rules[0].0) then rules[0].1
    else FirstOn(v, rules[1..], default)
  }

  /** `to_filter` is exactly the first-match reading of the priority table, with Info as default. */
  lemma ToFilterIsPriorityLookup(v: Verbosity)
    ensures ToFilter(v) == FirstOn(v, PriorityTable, Info)
  {
    var verboseAndQuiet := PriorityTable[1..];
    var quietOnly := verboseAndQuiet[1..];
    assert quietOnly == [(QuietSwitch, Warn)] && quietOnly[1..] == [];
    assert FirstOn(v, quietOnly, Info) == if v.quiet then Warn else Info;
    assert FirstOn(v, verboseAndQuiet, Info) == if v.verbose then Debug else FirstOn(v, quietOnly, Info);
  }

  /** The filter is one of the four the mapping produces; Off and Error never are. */
  lemma ToFilterRange(v: Verbosity)
    ensures ToFilter(v) in {Trace, Debug, Warn, Info}
  {
  }

  /** Under the parser's at-most-one rule, different switch settings select different filters. */
  lemma DistinctFlagsDistinctFilters(a: Verbosity, b: Verbosity)
    requires AtMostOneFlag(a) && AtMostOneFlag(b)
    requires a != b
    ensures ToFilter(a) != ToFilter(b)
  {
  }
}
