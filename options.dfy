/**
 * The command line: the values of the four flags once the flag package has
 * read them, the defaults it falls back to, the decision `parseArgs` takes,
 * and where the metrics file goes.
 */
module Options {
  import opened Wrappers
  import opened Errors
  import opened Records

  const DefaultBaseURL := "http://169.254.169.254"
  const OutputName := ProgramName + ".prom"

  /** The flags as given on the command line; `None` for a flag that was not given. */
  datatype Flags = Flags(
    version: bool,
    baseURL: Option<string>,
    metricPrefix: Option<string>,
    textfilesPath: Option<string>)

  function ValueOr(given: Option<string>, default: string): (v: string)
    ensures given.Some? ==> v == given.value
    ensures given.None? ==> v == default
  {
    match given
    case Some(value) => value
    case None => default
  }

  /** The decision `parseArgs` takes once the values are known: the version request wins, then the required path. */
  function Decision(version: bool, opt: CollectOptions): (e: Option<Error>)
    ensures e == Some(ShowVersion) <==> version
    ensures e == Some(MissingTextfilesPath) <==> !version && opt.textfilesPath == ""
    ensures e == None <==> !version && opt.textfilesPath != ""
  {
    if version then Some(ShowVersion)
    else if |opt.textfilesPath| == 0 then Some(MissingTextfilesPath)
    else None
  }

  /**
   * `parseArgs(args)`: fills the options from the flags or their defaults
   * (the base URL defaults to the link-local metadata address, the prefix and
   * the path to empty), then decides; the options come back with the error too.
   */
  method ParseArgs(flags: Flags) returns (opt: CollectOptions, err: Option<Error>)
    ensures opt.baseURL == (if flags.baseURL.Some? then flags.baseURL.value else DefaultBaseURL)
    ensures opt.metricPrefix == (if flags.metricPrefix.Some? then flags.metricPrefix.value else "")
    ensures opt.textfilesPath == (if flags.textfilesPath.Some? then flags.textfilesPath.value else "")
    ensures err == Decision(flags.version, opt)
  {
    opt := CollectOptions(ValueOr(flags.baseURL, DefaultBaseURL), ValueOr(flags.metricPrefix, ""), ValueOr(flags.textfilesPath, ""));
    if flags.version {
      return opt, Some(ShowVersion);
    }
    if |opt.textfilesPath| == 0 {
      return opt, Some(MissingTextfilesPath);
    }
    err := None;
  }

  /** The file the metrics are written to: the program's name with `.prom`, inside the textfiles directory. */
  function OutputPath(textfilesPath: string): (path: string)
    ensures |path| == |textfilesPath| + 1 + |OutputName|
    ensures path[..|textfilesPath|] == textfilesPath
    ensures path[|textfilesPath|] == '/'
    ensures path[|textfilesPath| + 1..] == OutputName
  {
    textfilesPath + "/" + OutputName
  }

  /** The file name `main` writes, for the directory ".". */
  lemma OutputPathExample()
    ensures OutputPath(".") == "./collect-aws-metadata.prom"
  {
    DotOutputPath();
    OutputNameText();
    DotOutputPathText();
  }

  lemma DotOutputPath()
    ensures OutputPath(".") == "./" + OutputName
  {
    assert "." + "/" == "./";
  }

  lemma DotOutputPathText()
    ensures "./" + "collect-aws-metadata.prom" == "./collect-aws-metadata.prom"
  {
  }

  lemma OutputNameText()
    ensures OutputName == "collect-aws-metadata.prom"
  {
  }

  /** The version request is answered even when the required path is missing. */
  lemma VersionBeforePath(opt: CollectOptions)
    requires opt.textfilesPath == ""
    ensures Decision(true, opt) == Some(ShowVersion)
    ensures Decision(false, opt) == Some(MissingTextfilesPath)
  {
  }
}
