/**
 * The command-line entry point (src/importlinter/cli.py): the caching flags are combined into the
 * cache directory handed to graph building, and the use case's verdict becomes the exit status.
 */
module Cli {
  import opened Wrappers
  import Fields
  import Graphs
  import Contract
  import UseCases

  const ExitStatusSuccess := 0
  const ExitStatusError := 1

  /** The cache directory passed on: not supplied (use the default), caching disabled, or a directory. */
  datatype CacheDir = NotSupplied | NoCache | Dir(path: string)

  /**
   * `_combine_caching_arguments`: `--no-cache` disables caching whatever `--cache-dir` says;
   * otherwise a missing directory is "not supplied" and a given one is passed on unchanged.
   */
  function CombineCachingArguments(cacheDir: Option<string>, noCache: bool): (r: CacheDir)
    ensures r == NoCache <==> noCache
    ensures r == NotSupplied <==> !noCache && cacheDir == None
    ensures r.Dir? <==> !noCache && cacheDir.Some?
    ensures r.Dir? ==> cacheDir == Some(r.path)
  {
    if noCache then NoCache
    else match cacheDir
      case None => NotSupplied
      case Some(path) => Dir(path)
  }

  /** The exit status of a verdict; an exception (debug mode) propagates instead. */
  function ExitStatus(passed: Result<bool>): (r: Result<int>)
    ensures r.Err? <==> passed.Err?
    ensures r.Err? ==> r.error == passed.error
    ensures r == Ok(ExitStatusSuccess) <==> passed == Ok(UseCases.Success)
    ensures r.Ok? ==> r.value == ExitStatusSuccess || r.value == ExitStatusError
  {
    match passed
    case Err(e) => Err(e)
    case Ok(p) => Ok(if p then ExitStatusSuccess else ExitStatusError)
  }

  /** Graph building with the combined cache directory fixed. */
  function GraphBuilder(buildGraph: (CacheDir, Fields.Raw, Option<bool>) -> Result<Graphs.Graph>, cache: CacheDir)
    : (Fields.Raw, Option<bool>) -> Result<Graphs.Graph>
  {
    (rootPackages, includeExternalPackages) => buildGraph(cache, rootPackages, includeExternalPackages)
  }

  /**
   * `lint_imports`: the caching flags are combined and the use case runs with the result; its
   * verdict is mapped to the exit status.
   */
  method LintImports<K, C(==), M>(readOptions: Result<UseCases.UserOptions>, registry: Contract.ContractRegistry<K>,
                                  buildGraph: (CacheDir, Fields.Raw, Option<bool>) -> Result<Graphs.Graph>,
                                  graphBuildingDuration: int, limitToContracts: seq<string>,
                                  cacheDir: Option<string>, noCache: bool, isDebugMode: bool, showTimings: bool,
                                  env: UseCases.Env<K, C, M>)
    returns (r: Result<int>)
    ensures r == ExitStatus(UseCases.LintResult(
                  UseCases.ReportOutcome(readOptions, registry.classesByName,
                                         GraphBuilder(buildGraph, CombineCachingArguments(cacheDir, noCache)),
                                         limitToContracts, env),
                  isDebugMode))
  {
    var combinedCacheDir := CombineCachingArguments(cacheDir, noCache);
    var passed := UseCases.LintImports(readOptions, registry, GraphBuilder(buildGraph, combinedCacheDir),
                                       graphBuildingDuration, limitToContracts, isDebugMode, showTimings, env);
    if passed.Err? {
      return Err(passed.error);
    }
    if passed.value {
      return Ok(ExitStatusSuccess);
    } else {
      return Ok(ExitStatusError);
    }
  }

  /**
   * The command exits with 0 exactly when every contract was checked and kept, with 1 when a
   * contract is broken, could not be built, or (outside debug mode) the run raised; in debug
   * mode an exception escapes instead.
   */
  lemma {:induction false} ExitStatusOfOutcome(outcome: Result<bool>, isDebugMode: bool)
    ensures ExitStatus(UseCases.LintResult(outcome, isDebugMode)) == Ok(ExitStatusSuccess) <==> outcome == Ok(false)
    ensures ExitStatus(UseCases.LintResult(outcome, isDebugMode)) == Ok(ExitStatusError) <==>
              outcome == Ok(true) || (outcome.Err? && !isDebugMode)
    ensures ExitStatus(UseCases.LintResult(outcome, isDebugMode)).Err? <==> outcome.Err? && isDebugMode
  {
  }
}
