/**
 * The forbidden-modules contract (src/importlinter/contracts/forbidden.py): no source module
 * may import a forbidden module, directly or (unless indirect imports are allowed) through a
 * chain of imports.
 */
module Forbidden {
  import opened Wrappers
  import opened Strings
  import opened Imports
  import opened Graphs
  import Common
  import Contract

  function ModuleMissingMessage(name: string): string {
    "Module '" + name + "' does not exist."
  }

  const ExternalsRequiredMessage := "The top level configuration must have include_external_packages=True when there are external forbidden modules."

  function SubpackageOfExternalMessage(name: string): string {
    "Invalid forbidden module " + name + ": subpackages of external packages are not valid."
  }

  /** The error `_check_all_modules_exist_in_graph` raises for the first module missing from the graph. */
  function MissingModuleError(modules: seq<string>, g: Graph): Option<string> {
    match FirstWhere(modules, NotInGraph(g))
    case None => None
    case Some(name) => Some(ModuleMissingMessage(name))
  }

  /** `_check_all_modules_exist_in_graph`: the modules are visited in order and the first missing one is reported. */
  method CheckAllModulesExistInGraph(modules: seq<string>, g: Graph) returns (error: Option<string>)
    ensures error.None? <==> forall k :: 0 <= k < |modules| ==> modules[k] in g.modules
    ensures error == MissingModuleError(modules, g)
  {
    var i := 0;
    while i < |modules|
      invariant 0 <= i <= |modules|
      invariant forall k :: 0 <= k < i ==> modules[k] in g.modules
      invariant FirstWhere(modules, NotInGraph(g)) == FirstWhere(modules[i..], NotInGraph(g))
    {
      if modules[i] !in g.modules {
        return Some(ModuleMissingMessage(modules[i]));
      }
      assert modules[i..][1..] == modules[i + 1..];
      i := i + 1;
    }
    FirstWhereSpec(modules, NotInGraph(g));
    return None;
  }

  /** `_get_external_forbidden_modules`: the forbidden modules in none of the root packages. */
  function ExternalForbiddenModules(forbidden: set<string>, rootPackages: seq<string>): set<string> {
    set m | m in forbidden && forall k :: 0 <= k < |rootPackages| ==> !IsInPackage(Module(m), Module(rootPackages[k]))
  }

  /** `_graph_was_built_with_externals`: `str(option).lower() == "true"`, where a missing option reads "None". */
  predicate GraphWasBuiltWithExternals(includeExternal: Option<string>) {
    IsTrueString(includeExternal.GetOr("None"))
  }

  /** An external forbidden module must be a whole top-level package. */
  function IsExternalSubpackage(name: string): bool {
    RootPackageName(Module(name)) != name
  }

  /** The error `_check_external_forbidden_modules` raises, the externals visited in sorted order. */
  function ExternalModulesError(forbidden: set<string>, rootPackages: seq<string>, includeExternal: Option<string>): Option<string> {
    var externals := ExternalForbiddenModules(forbidden, rootPackages);
    if externals == {} then None
    else if !GraphWasBuiltWithExternals(includeExternal) then Some(ExternalsRequiredMessage)
    else
      match FirstWhere(Sorted(externals), IsExternalSubpackage)
      case None => None
      case Some(name) => Some(SubpackageOfExternalMessage(name))
  }

  /** A name is a subpackage exactly when it has a dot. */
  lemma {:induction false} ExternalSubpackageIffDotted(name: string)
    ensures IsExternalSubpackage(name) <==> '.' in name
  {
    var r := RootPackageName(Module(name));
    if r == name {
      assert '.' !in name;
    } else {
      assert name[|r|] == '.';
    }
  }

  /** What `_check_external_forbidden_modules` decides. */
  lemma {:induction false} ExternalModulesErrorSpec(forbidden: set<string>, rootPackages: seq<string>, includeExternal: Option<string>)
    ensures ExternalForbiddenModules(forbidden, rootPackages) == {} ==> ExternalModulesError(forbidden, rootPackages, includeExternal) == None
    ensures ExternalForbiddenModules(forbidden, rootPackages) != {} && !GraphWasBuiltWithExternals(includeExternal) ==>
              ExternalModulesError(forbidden, rootPackages, includeExternal) == Some(ExternalsRequiredMessage)
    ensures GraphWasBuiltWithExternals(includeExternal) ==>
              (ExternalModulesError(forbidden, rootPackages, includeExternal).None? <==>
                 forall m :: m in ExternalForbiddenModules(forbidden, rootPackages) ==> '.' !in m)
    ensures GraphWasBuiltWithExternals(includeExternal) && ExternalModulesError(forbidden, rootPackages, includeExternal).Some? ==>
              exists m :: m in ExternalForbiddenModules(forbidden, rootPackages) && '.' in m
                          && ExternalModulesError(forbidden, rootPackages, includeExternal) == Some(SubpackageOfExternalMessage(m))
  {
    var externals := ExternalForbiddenModules(forbidden, rootPackages);
    var sorted := Sorted(externals);
    forall m ensures IsExternalSubpackage(m) <==> '.' in m {
      ExternalSubpackageIffDotted(m);
    }
    if GraphWasBuiltWithExternals(includeExternal) && externals != {} {
      FirstWhereInSet(sorted, externals, IsExternalSubpackage);
    }
  }

  /** `_check_external_forbidden_modules`, with its loop over the externals in sorted order. */
  method CheckExternalForbiddenModules(forbidden: set<string>, rootPackages: seq<string>, includeExternal: Option<string>)
    returns (error: Option<string>)
    ensures error == ExternalModulesError(forbidden, rootPackages, includeExternal)
  {
    var externals := ExternalForbiddenModules(forbidden, rootPackages);
    if externals == {} {
      return None;
    }
    if !GraphWasBuiltWithExternals(includeExternal) {
      return Some(ExternalsRequiredMessage);
    }
    var sorted := Sorted(externals);
    var i := 0;
    while i < |sorted|
      invariant 0 <= i <= |sorted|
      invariant FirstWhere(sorted, IsExternalSubpackage) == FirstWhere(sorted[i..], IsExternalSubpackage)
    {
      FirstWhereAt(sorted, i, IsExternalSubpackage);
      if IsExternalSubpackage(sorted[i]) {
        return Some(SubpackageOfExternalMessage(sorted[i]));
      }
      i := i + 1;
    }
    assert sorted[i..] == [];
    return None;
  }

  /** `_get_all_modules_in_package`: the module and, unless it is squashed, its descendants in the graph. */
  function AllModulesInPackage(g: Graph, m: string): set<string> {
    {m} + if m in g.squashed then {} else Descendants(g, m)
  }

  /** A package's family is itself alone when squashed, and otherwise itself and its descendants in the graph. */
  lemma {:induction false} AllModulesInPackageSpec(g: Graph, m: string)
    ensures m in AllModulesInPackage(g, m)
    ensures m in g.squashed ==> AllModulesInPackage(g, m) == {m}
    ensures m !in g.squashed ==>
              forall x :: x in AllModulesInPackage(g, m) <==> x == m || (x in g.modules && IsDescendantOf(Module(x), Module(m)))
  {
  }

  /** The two-module chains of direct imports from the modules in `sources` to those in `targets`. */
  function DirectPairs(g: Graph, sources: set<string>, targets: set<string>): set<seq<string>> {
    set e | e in g.edges && e.0 in sources && e.1 in targets :: [e.0, e.1]
  }

  /** What `_get_direct_chains` returns. */
  function DirectChains(g: Graph, source: string, forbidden: string): set<seq<string>> {
    DirectPairs(g, AllModulesInPackage(g, source), AllModulesInPackage(g, forbidden))
  }

  /** The direct chains are exactly the imports from the source's family into the forbidden module's family. */
  lemma {:induction false} DirectChainsSpec(g: Graph, source: string, forbidden: string, chain: seq<string>)
    ensures chain in DirectChains(g, source, forbidden) <==>
              && |chain| == 2
              && (chain[0], chain[1]) in g.edges
              && chain[0] in AllModulesInPackage(g, source)
              && chain[1] in AllModulesInPackage(g, forbidden)
    ensures chain in DirectChains(g, source, forbidden) ==> Common.IsChain(g, chain, chain[0], chain[1])
  {
    if |chain| == 2 && (chain[0], chain[1]) in g.edges
       && chain[0] in AllModulesInPackage(g, source) && chain[1] in AllModulesInPackage(g, forbidden) {
      var e := (chain[0], chain[1]);
      assert chain == [e.0, e.1];
    }
    if chain in DirectChains(g, source, forbidden) {
      assert Common.Step(chain, 0) == (chain[0], chain[1]);
    }
  }

  /** Splitting the sources splits the pairs. */
  lemma {:induction false} DirectPairsUnion(g: Graph, a: set<string>, b: set<string>, targets: set<string>)
    ensures DirectPairs(g, a + b, targets) == DirectPairs(g, a, targets) + DirectPairs(g, b, targets)
  {
  }

  /** The inner loop of `_get_direct_chains`: the pairs out of one module. */
  method DirectChainsFrom(g: Graph, source: string, targets: set<string>) returns (chains: set<seq<string>>)
    ensures chains == DirectPairs(g, {source}, targets)
  {
    chains := {};
    var rest := DirectlyImportedBy(g, source);
    while rest != {}
      invariant rest <= DirectlyImportedBy(g, source)
      invariant forall c :: c in chains <==>
                  exists x :: x in DirectlyImportedBy(g, source) - rest && x in targets && c == [source, x]
      decreases rest
    {
      var imported :| imported in rest;
      if imported in targets {
        chains := chains + {[source, imported]};
      }
      rest := rest - {imported};
    }
    forall c ensures c in chains <==> c in DirectPairs(g, {source}, targets) {
      if c in DirectPairs(g, {source}, targets) {
        var e :| e in g.edges && e.0 in {source} && e.1 in targets && c == [e.0, e.1];
        assert e.1 in DirectlyImportedBy(g, source);
      }
    }
  }

  /** `_get_direct_chains`: a loop over the source modules and the modules each imports directly. */
  method GetDirectChains(g: Graph, source: string, forbidden: string) returns (chains: set<seq<string>>)
    ensures chains == DirectChains(g, source, forbidden)
  {
    var sources := AllModulesInPackage(g, source);
    var targets := AllModulesInPackage(g, forbidden);
    chains := {};
    var rest := sources;
    while rest != {}
      invariant rest <= sources
      invariant chains == DirectPairs(g, sources - rest, targets)
      decreases rest
    {
      var s :| s in rest;
      var more := DirectChainsFrom(g, s, targets);
      DirectPairsUnion(g, sources - rest, {s}, targets);
      assert sources - (rest - {s}) == (sources - rest) + {s};
      chains := chains + more;
      rest := rest - {s};
    }
    assert sources - rest == sources;
  }

  /** grimp's `find_shortest_chains(importer, imported)`, whose algorithm is not part of this model. */
  type ChainsFinder = (Graph, string, string) -> set<seq<string>>

  /** The chains found for one (source, forbidden) pair, direct only when indirect imports are allowed. */
  function PairChains(g: Graph, source: string, forbidden: string, allowIndirect: string, finder: ChainsFinder): set<seq<string>> {
    if IsTrueString(allowIndirect) then DirectChains(g, source, forbidden) else finder(g, source, forbidden)
  }

  /** One entry of the `invalid_chains` metadata. */
  datatype ChainGroup = ChainGroup(upstream: string, downstream: string, chains: seq<seq<Common.Link>>)

  /** The group for a (source, forbidden) pair: its chains in sorted order, link by link. */
  function Group(g: Graph, source: string, forbidden: string, allowIndirect: string, finder: ChainsFinder): ChainGroup {
    var sorted := SortedTuples(PairChains(g, source, forbidden, allowIndirect, finder));
    ChainGroup(forbidden, source, seq(|sorted|, k requires 0 <= k < |sorted| => Common.SegmentLinks(g, sorted[k])))
  }

  /** The loop over `sorted(chains)` that builds one group. */
  method BuildGroup(g: Graph, source: string, forbidden: string, chains: set<seq<string>>) returns (group: ChainGroup)
    ensures group.upstream == forbidden && group.downstream == source
    ensures |group.chains| == |SortedTuples(chains)|
    ensures forall k :: 0 <= k < |group.chains| ==> group.chains[k] == Common.SegmentLinks(g, SortedTuples(chains)[k])
  {
    var sorted := SortedTuples(chains);
    var data: seq<seq<Common.Link>> := [];
    var i := 0;
    while i < |sorted|
      invariant 0 <= i <= |sorted|
      invariant |data| == i
      invariant forall k :: 0 <= k < i ==> data[k] == Common.SegmentLinks(g, sorted[k])
    {
      var chainData := Common.BuildSegment(g, sorted[i]);
      data := data + [chainData];
      i := i + 1;
    }
    group := ChainGroup(forbidden, source, data);
  }

  /** The key `invalid_chains` is sorted by. */
  function GroupKey(group: ChainGroup): (string, string) {
    (group.upstream, group.downstream)
  }

  /** Whether a (source, forbidden) pair has any chain. */
  predicate Broken(g: Graph, source: string, forbidden: string, allowIndirect: string, finder: ChainsFinder) {
    PairChains(g, source, forbidden, allowIndirect, finder) != {}
  }

  /** The (upstream, downstream) keys of the broken pairs. */
  function BrokenKeys(g: Graph, sources: set<string>, forbidden: set<string>, allowIndirect: string, finder: ChainsFinder)
    : set<(string, string)>
  {
    set s, f | s in sources && f in forbidden && Broken(g, s, f, allowIndirect, finder) :: (f, s)
  }

  /** The forbidden modules that are in the graph. */
  function InGraph(forbidden: set<string>, g: Graph): set<string> {
    set f | f in forbidden && f in g.modules
  }

  /** The `invalid_chains` metadata: one group per broken pair, sorted by (upstream, downstream). */
  function InvalidChains(g: Graph, sources: set<string>, forbidden: set<string>, allowIndirect: string, finder: ChainsFinder)
    : seq<ChainGroup>
  {
    var keys := SortedPairs(BrokenKeys(g, sources, InGraph(forbidden, g), allowIndirect, finder));
    seq(|keys|, k requires 0 <= k < |keys| => Group(g, keys[k].1, keys[k].0, allowIndirect, finder))
  }

  /** The options the check reads, with the contract's own fields. */
  datatype ForbiddenOptions = ForbiddenOptions(
    rootPackages: seq<string>,
    includeExternal: Option<string>,
    allowIndirect: string)

  /** What `check` returns or raises. */
  function CheckOutcome(g: Graph, sources: set<string>, forbidden: set<string>, options: ForbiddenOptions,
                        finder: ChainsFinder, warnings: seq<string>): Result<Contract.ContractCheck<seq<ChainGroup>>>
  {
    match MissingModuleError(Sorted(sources), g)
    case Some(e) => Err(e)
    case None =>
      match ExternalModulesError(forbidden, options.rootPackages, options.includeExternal)
      case Some(e) => Err(e)
      case None =>
        var kept := BrokenKeys(g, sources, InGraph(forbidden, g), options.allowIndirect, finder) == {};
        Ok(Contract.ContractCheck(kept, map["invalid_chains" := InvalidChains(g, sources, forbidden, options.allowIndirect, finder)], warnings))
  }

  /** The body of the inner loop of `check`: the chains of one pair, and its group when there are any. */
  method SearchPair(g: Graph, source: string, target: string, allowIndirect: string, finder: ChainsFinder)
    returns (group: Option<ChainGroup>)
    ensures group.Some? <==> Broken(g, source, target, allowIndirect, finder)
    ensures group.Some? ==> group.value == Group(g, source, target, allowIndirect, finder)
  {
    var chains;
    if IsTrueString(allowIndirect) {
      chains := GetDirectChains(g, source, target);
    } else {
      chains := finder(g, source, target);
    }
    if chains == {} {
      return None;
    }
    var built := BuildGroup(g, source, target, chains);
    return Some(built);
  }

  /**
   * The inner loop of `check` for one source module: the groups of the forbidden modules it
   * reaches, keyed by the forbidden module.
   */
  method SearchSource(g: Graph, source: string, sortedForbidden: seq<string>, allowIndirect: string, finder: ChainsFinder)
    returns (found: map<string, ChainGroup>)
    ensures forall f :: f in found <==> f in sortedForbidden && Broken(g, source, f, allowIndirect, finder)
    ensures forall f :: f in found ==> found[f] == Group(g, source, f, allowIndirect, finder)
  {
    found := map[];
    var j := 0;
    while j < |sortedForbidden|
      invariant 0 <= j <= |sortedForbidden|
      invariant forall f :: f in found <==> f in sortedForbidden[..j] && Broken(g, source, f, allowIndirect, finder)
      invariant forall f :: f in found ==> found[f] == Group(g, source, f, allowIndirect, finder)
    {
      var target := sortedForbidden[j];
      var group := SearchPair(g, source, target, allowIndirect, finder);
      if group.Some? {
        found := found[target := group.value];
      }
      PrefixStep(sortedForbidden, j);
      j := j + 1;
    }
    assert sortedForbidden[..j] == sortedForbidden;
  }

  /** The groups of one source, keyed by (upstream, downstream). */
  function Keyed(source: string, found: map<string, ChainGroup>): (r: map<(string, string), ChainGroup>)
    ensures forall key :: key in r <==> key.1 == source && key.0 in found
    ensures forall key :: key in r ==> r[key] == found[key.0]
  {
    map f | f in found :: (f, source) := found[f]
  }

  /** Adding one source's groups extends the collected groups to one more source. */
  lemma {:induction false} MergeStep(g: Graph, sortedSources: seq<string>, i: int, targets: set<string>, allowIndirect: string, finder: ChainsFinder,
                  groups: map<(string, string), ChainGroup>, found: map<string, ChainGroup>)
    requires 0 <= i < |sortedSources|
    requires forall key :: key in groups <==>
               key.1 in sortedSources[..i] && key.0 in targets && Broken(g, key.1, key.0, allowIndirect, finder)
    requires forall f :: f in found <==> f in Sorted(targets) && Broken(g, sortedSources[i], f, allowIndirect, finder)
    ensures forall key :: key in groups + Keyed(sortedSources[i], found) <==>
              key.1 in sortedSources[..i + 1] && key.0 in targets && Broken(g, key.1, key.0, allowIndirect, finder)
  {
    var added := Keyed(sortedSources[i], found);
    PrefixStep(sortedSources, i);
    forall key ensures key in groups + added <==>
                         key.1 in sortedSources[..i + 1] && key.0 in targets && Broken(g, key.1, key.0, allowIndirect, finder)
    {
      if key.1 != sortedSources[i] {
        assert key !in added;
      }
    }
  }

  /** A source adds groups exactly when it found some. */
  lemma {:induction false} KeyedEmpty(source: string, found: map<string, ChainGroup>)
    ensures Keyed(source, found) == map[] <==> found == map[]
  {
    if found != map[] {
      var f :| f in found;
      assert (f, source) in Keyed(source, found);
    }
  }

  /** The groups added for one source keep every collected group equal to its specification. */
  lemma {:induction false} MergeValues(g: Graph, source: string, allowIndirect: string, finder: ChainsFinder,
                    groups: map<(string, string), ChainGroup>, found: map<string, ChainGroup>)
    requires forall key :: key in groups ==> groups[key] == Group(g, key.1, key.0, allowIndirect, finder)
    requires forall f :: f in found ==> found[f] == Group(g, source, f, allowIndirect, finder)
    ensures forall key :: key in groups + Keyed(source, found) ==>
              (groups + Keyed(source, found))[key] == Group(g, key.1, key.0, allowIndirect, finder)
  {
    var added := Keyed(source, found);
    forall key | key in groups + added
      ensures (groups + added)[key] == Group(g, key.1, key.0, allowIndirect, finder)
    {
      if key in added {
        assert (groups + added)[key] == found[key.0];
      } else {
        assert (groups + added)[key] == groups[key];
      }
    }
  }

  /** `groups` holds exactly the groups of the broken pairs whose source is among the first `i`. */
  ghost predicate CollectedUpTo(g: Graph, sortedSources: seq<string>, i: int, targets: set<string>, allowIndirect: string,
                          finder: ChainsFinder, groups: map<(string, string), ChainGroup>)
    requires 0 <= i <= |sortedSources|
  {
    && (forall key :: key in groups <==>
          key.1 in sortedSources[..i] && key.0 in targets && Broken(g, key.1, key.0, allowIndirect, finder))
    && (forall key :: key in groups ==> groups[key] == Group(g, key.1, key.0, allowIndirect, finder))
  }

  /** One round of the outer loop of `check`: search from the next source module and record what is found. */
  method AddSource(g: Graph, sortedSources: seq<string>, i: int, targets: set<string>, allowIndirect: string,
                   finder: ChainsFinder, groups: map<(string, string), ChainGroup>, isKept: bool)
    returns (groups': map<(string, string), ChainGroup>, isKept': bool)
    requires 0 <= i < |sortedSources|
    requires isKept <==> groups == map[]
    requires CollectedUpTo(g, sortedSources, i, targets, allowIndirect, finder, groups)
    ensures isKept' <==> groups' == map[]
    ensures CollectedUpTo(g, sortedSources, i + 1, targets, allowIndirect, finder, groups')
  {
    var source := sortedSources[i];
    var found := SearchSource(g, source, Sorted(targets), allowIndirect, finder);
    isKept' := isKept;
    if found != map[] {
      isKept' := false;
    }
    KeyedEmpty(source, found);
    MergeStep(g, sortedSources, i, targets, allowIndirect, finder, groups, found);
    MergeValues(g, source, allowIndirect, finder, groups, found);
    groups' := groups + Keyed(source, found);
  }

  /** The outer loop of `check`: the groups of every broken pair, keyed by (upstream, downstream). */
  method CollectGroups(g: Graph, sortedSources: seq<string>, targets: set<string>, allowIndirect: string, finder: ChainsFinder)
    returns (isKept: bool, groups: map<(string, string), ChainGroup>)
    ensures isKept <==> groups == map[]
    ensures CollectedUpTo(g, sortedSources, |sortedSources|, targets, allowIndirect, finder, groups)
  {
    isKept := true;
    groups := map[];
    var i := 0;
    while i < |sortedSources|
      invariant 0 <= i <= |sortedSources|
      invariant isKept <==> groups == map[]
      invariant CollectedUpTo(g, sortedSources, i, targets, allowIndirect, finder, groups)
    {
      groups, isKept := AddSource(g, sortedSources, i, targets, allowIndirect, finder, groups, isKept);
      i := i + 1;
    }
  }

  /** Once every source is searched, the groups are keyed by exactly the broken pairs. */
  lemma {:induction false} CollectedAll(g: Graph, sources: set<string>, targets: set<string>, allowIndirect: string, finder: ChainsFinder,
                     groups: map<(string, string), ChainGroup>)
    requires CollectedUpTo(g, Sorted(sources), |Sorted(sources)|, targets, allowIndirect, finder, groups)
    ensures groups.Keys == BrokenKeys(g, sources, targets, allowIndirect, finder)
  {
    assert Sorted(sources)[..|Sorted(sources)|] == Sorted(sources);
  }

  /**
   * `check`, given the modules the source and forbidden expressions resolve to and the warnings
   * the ignored imports produced: the source modules must exist, external forbidden modules
   * must be allowed, and every (source, forbidden) pair is searched for chains.
   */
  method Check(g: Graph, sources: set<string>, forbidden: set<string>, options: ForbiddenOptions,
               finder: ChainsFinder, warnings: seq<string>)
    returns (r: Result<Contract.ContractCheck<seq<ChainGroup>>>)
    ensures r == CheckOutcome(g, sources, forbidden, options, finder, warnings)
  {
    var sortedSources := Sorted(sources);
    var missing := CheckAllModulesExistInGraph(sortedSources, g);
    if missing.Some? {
      return Err(missing.value);
    }
    var external := CheckExternalForbiddenModules(forbidden, options.rootPackages, options.includeExternal);
    if external.Some? {
      return Err(external.value);
    }
    var inGraph := InGraph(forbidden, g);
    var isKept, groups := CollectGroups(g, sortedSources, inGraph, options.allowIndirect, finder);
    CollectedAll(g, sources, inGraph, options.allowIndirect, finder, groups);
    GroupsInOrder(g, sources, forbidden, options.allowIndirect, finder, groups);
    return Ok(Contract.ContractCheck(isKept, map["invalid_chains" := InOrder(groups)], warnings));
  }

  /** The groups, sorted by their keys. */
  function InOrder(groups: map<(string, string), ChainGroup>): seq<ChainGroup> {
    var keys := SortedPairs(groups.Keys);
    seq(|keys|, k requires 0 <= k < |keys| => groups[keys[k]])
  }

  /** Groups collected for exactly the broken pairs come out, sorted, as the `invalid_chains` metadata. */
  lemma {:induction false} GroupsInOrder(g: Graph, sources: set<string>, forbidden: set<string>, allowIndirect: string, finder: ChainsFinder,
                      groups: map<(string, string), ChainGroup>)
    requires groups.Keys == BrokenKeys(g, sources, InGraph(forbidden, g), allowIndirect, finder)
    requires forall key :: key in groups ==> groups[key] == Group(g, key.1, key.0, allowIndirect, finder)
    ensures InOrder(groups) == InvalidChains(g, sources, forbidden, allowIndirect, finder)
  {
    GroupsAlong(SortedPairs(groups.Keys), groups, g, allowIndirect, finder);
  }

  /** Looking the keys up in the collected groups gives each key's group. */
  lemma {:induction false} GroupsAlong(keys: seq<(string, string)>, groups: map<(string, string), ChainGroup>, g: Graph,
                    allowIndirect: string, finder: ChainsFinder)
    requires forall k :: 0 <= k < |keys| ==> keys[k] in groups
    requires forall key :: key in groups ==> groups[key] == Group(g, key.1, key.0, allowIndirect, finder)
    ensures seq(|keys|, k requires 0 <= k < |keys| => groups[keys[k]])
            == seq(|keys|, k requires 0 <= k < |keys| => Group(g, keys[k].1, keys[k].0, allowIndirect, finder))
  {
  }

  /** No key is broken exactly when no pair has a chain. */
  lemma {:induction false} NoBrokenKeysIff(g: Graph, sources: set<string>, targets: set<string>, allowIndirect: string, finder: ChainsFinder)
    ensures BrokenKeys(g, sources, targets, allowIndirect, finder) == {} <==>
              forall s, f :: s in sources && f in targets ==> PairChains(g, s, f, allowIndirect, finder) == {}
  {
    var broken := BrokenKeys(g, sources, targets, allowIndirect, finder);
    if broken != {} {
      var key :| key in broken;
      var s, f :| s in sources && f in targets && Broken(g, s, f, allowIndirect, finder) && key == (f, s);
    } else {
      forall s, f | s in sources && f in targets ensures !Broken(g, s, f, allowIndirect, finder) {
        assert Broken(g, s, f, allowIndirect, finder) ==> (f, s) in broken;
      }
    }
  }

  /** The contract is kept exactly when no source module reaches a forbidden module in the graph. */
  lemma {:induction false} KeptIffNoChains(g: Graph, sources: set<string>, forbidden: set<string>, options: ForbiddenOptions,
                        finder: ChainsFinder, warnings: seq<string>)
    requires CheckOutcome(g, sources, forbidden, options, finder, warnings).Ok?
    ensures CheckOutcome(g, sources, forbidden, options, finder, warnings).value.kept <==>
              forall s, f :: s in sources && f in forbidden && f in g.modules ==>
                PairChains(g, s, f, options.allowIndirect, finder) == {}
  {
    NoBrokenKeysIff(g, sources, InGraph(forbidden, g), options.allowIndirect, finder);
  }

  /** A check that succeeds found every source module in the graph. */
  lemma {:induction false} OkMeansSourcesExist(g: Graph, sources: set<string>, forbidden: set<string>, options: ForbiddenOptions,
                            finder: ChainsFinder, warnings: seq<string>)
    requires CheckOutcome(g, sources, forbidden, options, finder, warnings).Ok?
    ensures sources <= g.modules
  {
    var sorted := Sorted(sources);
    FirstWhereSpec(sorted, NotInGraph(g));
    forall s | s in sources ensures s in g.modules {
      var k :| 0 <= k < |sorted| && sorted[k] == s;
    }
  }

  /**
   * The groups are strictly sorted by (upstream, downstream); each names a forbidden module in
   * the graph and a source module, and holds at least one chain.
   */
  lemma {:induction false} InvalidChainsShape(g: Graph, sources: set<string>, forbidden: set<string>, allowIndirect: string, finder: ChainsFinder)
    ensures forall i, j :: 0 <= i < j < |InvalidChains(g, sources, forbidden, allowIndirect, finder)| ==>
              PairLess(GroupKey(InvalidChains(g, sources, forbidden, allowIndirect, finder)[i]),
                       GroupKey(InvalidChains(g, sources, forbidden, allowIndirect, finder)[j]))
    ensures forall k :: 0 <= k < |InvalidChains(g, sources, forbidden, allowIndirect, finder)| ==>
              && InvalidChains(g, sources, forbidden, allowIndirect, finder)[k].upstream in forbidden
              && InvalidChains(g, sources, forbidden, allowIndirect, finder)[k].upstream in g.modules
              && InvalidChains(g, sources, forbidden, allowIndirect, finder)[k].downstream in sources
              && InvalidChains(g, sources, forbidden, allowIndirect, finder)[k].chains != []
  {
    var groups := InvalidChains(g, sources, forbidden, allowIndirect, finder);
    var broken := BrokenKeys(g, sources, InGraph(forbidden, g), allowIndirect, finder);
    var keys := SortedPairs(broken);
    forall k | 0 <= k < |groups|
      ensures GroupKey(groups[k]) == keys[k]
      ensures groups[k].upstream in forbidden && groups[k].upstream in g.modules && groups[k].downstream in sources
      ensures groups[k].chains != []
    {
      assert keys[k] in broken;
      assert |groups[k].chains| > 0;
    }
  }
}
