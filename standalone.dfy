/**
 * The standalone contract (src/importlinter/contracts/standalone.py): the listed modules neither
 * import nor are imported by any other module of the graph.
 */
module Standalone {
  import opened Wrappers
  import opened Strings
  import opened Graphs
  import Contract

  function ModuleMissingMessage(name: string): string {
    "Module '" + name + "' does not exist."
  }

  /** The error `_check_all_modules_exist_in_graph` raises for the first listed module missing from the graph. */
  function ExistenceError(modules: seq<string>, g: Graph): Option<string> {
    match FirstWhere(modules, NotInGraph(g))
    case None => None
    case Some(name) => Some(ModuleMissingMessage(name))
  }

  /** The check passes exactly when every listed module is in the graph, and otherwise names a missing one. */
  lemma {:induction false} ExistenceErrorSpec(modules: seq<string>, g: Graph)
    ensures ExistenceError(modules, g).None? <==> forall k :: 0 <= k < |modules| ==> modules[k] in g.modules
    ensures ExistenceError(modules, g).Some? ==>
              exists k :: 0 <= k < |modules| && modules[k] !in g.modules
                          && ExistenceError(modules, g).value == ModuleMissingMessage(modules[k])
  {
    FirstWhereSpec(modules, NotInGraph(g));
  }

  /** `_check_all_modules_exist_in_graph`: the modules are visited in order. */
  method CheckAllModulesExistInGraph(modules: seq<string>, g: Graph) returns (error: Option<string>)
    ensures error == ExistenceError(modules, g)
  {
    var missing := FindFirst(modules, NotInGraph(g));
    error := if missing.Some? then Some(ModuleMissingMessage(missing.value)) else None;
  }

  /** The pairs `(module, importer)`, one per importer in order. */
  function ImportedPairs(m: string, importers: seq<string>): (r: seq<(string, string)>)
    ensures |r| == |importers|
    ensures forall k :: 0 <= k < |r| ==> r[k] == (m, importers[k])
  {
    seq(|importers|, k requires 0 <= k < |importers| => (m, importers[k]))
  }

  /** The pairs `(imported, module)`, one per imported module in order. */
  function ImportingPairs(m: string, imported: seq<string>): (r: seq<(string, string)>)
    ensures |r| == |imported|
    ensures forall k :: 0 <= k < |r| ==> r[k] == (imported[k], m)
  {
    seq(|imported|, k requires 0 <= k < |imported| => (imported[k], m))
  }

  /**
   * The violation entry of one module: a pair (module, importer) for each direct importer,
   * followed by a pair (imported, module) for each module it imports directly. Each pair reads
   * (upstream, downstream); sets are visited in sorted order.
   */
  function Connections(g: Graph, m: string): seq<(string, string)> {
    ImportedPairs(m, Sorted(ImportersOf(g, m))) + ImportingPairs(m, Sorted(DirectlyImportedBy(g, m)))
  }

  /** A module has a connection exactly when some module imports it or it imports some module, directly. */
  predicate IsConnected(g: Graph, m: string) {
    ImportersOf(g, m) != {} || DirectlyImportedBy(g, m) != {}
  }

  /** The pairs name the module with each importer, or each imported module with the module. */
  lemma {:induction false} PairsSpec(m: string, importers: seq<string>, imported: seq<string>)
    ensures forall p: (string, string) :: p in ImportedPairs(m, importers) + ImportingPairs(m, imported) <==>
              (p.0 == m && p.1 in importers) || (p.1 == m && p.0 in imported)
  {
    var c := ImportedPairs(m, importers) + ImportingPairs(m, imported);
    forall p: (string, string) | (p.0 == m && p.1 in importers) || (p.1 == m && p.0 in imported)
      ensures p in c
    {
      if p.0 == m && p.1 in importers {
        var k :| 0 <= k < |importers| && importers[k] == p.1;
        assert c[k] == p;
      } else {
        var k :| 0 <= k < |imported| && imported[k] == p.0;
        assert c[|importers| + k] == p;
      }
    }
  }

  /**
   * The entry holds exactly the direct imports in and out of the module: the importers first,
   * then the imported modules.
   */
  lemma {:induction false} ConnectionsSpec(g: Graph, m: string)
    ensures forall p: (string, string) :: p in Connections(g, m) <==>
              (p.0 == m && (p.1, m) in g.edges) || (p.1 == m && (m, p.0) in g.edges)
    ensures forall k :: 0 <= k < |ImportersOf(g, m)| ==> Connections(g, m)[k].0 == m
    ensures |Connections(g, m)| == |ImportersOf(g, m)| + |DirectlyImportedBy(g, m)|
    ensures Connections(g, m) == [] <==> !IsConnected(g, m)
  {
    PairsSpec(m, Sorted(ImportersOf(g, m)), Sorted(DirectlyImportedBy(g, m)));
  }

  /** The violations recorded for the modules `modules`, visited in order. */
  function Violations(g: Graph, modules: seq<string>): map<string, seq<(string, string)>> {
    if modules == [] then map[]
    else
      var m := modules[|modules| - 1];
      var before := Violations(g, modules[..|modules| - 1]);
      if IsConnected(g, m) then before[m := Connections(g, m)] else before
  }

  /** A module has an entry exactly when it is listed and connected, and the entry is its connections. */
  lemma {:induction false} ViolationsSpec(g: Graph, modules: seq<string>)
    ensures forall m :: m in Violations(g, modules) <==> m in modules && IsConnected(g, m)
    ensures forall m :: m in Violations(g, modules) ==> Violations(g, modules)[m] == Connections(g, m)
    decreases |modules|
  {
    if modules != [] {
      var init := modules[..|modules| - 1];
      ViolationsSpec(g, init);
      assert modules == init + [modules[|modules| - 1]];
    }
  }

  /** What `check` returns: the existence error, or the violations and whether every entry is empty. */
  function CheckOutcome(g: Graph, modules: seq<string>, warnings: seq<string>)
    : Result<Contract.ContractCheck<map<string, seq<(string, string)>>>>
  {
    match ExistenceError(modules, g)
    case Some(message) => Err(message)
    case None =>
      var violations := Violations(g, modules);
      var kept := forall m :: m in violations ==> |violations[m]| == 0;
      Ok(Contract.NewContractCheck(kept, Some(map["violations" := violations]), Some(warnings)))
  }

  /** The contract is kept exactly when no listed module has any direct import in or out. */
  lemma {:induction false} KeptIff(g: Graph, modules: seq<string>, warnings: seq<string>)
    requires CheckOutcome(g, modules, warnings).Ok?
    ensures CheckOutcome(g, modules, warnings).value.kept <==> forall k :: 0 <= k < |modules| ==> !IsConnected(g, modules[k])
    ensures CheckOutcome(g, modules, warnings).value.warnings == warnings
  {
    ViolationsSpec(g, modules);
    var violations := Violations(g, modules);
    if exists k :: 0 <= k < |modules| && IsConnected(g, modules[k]) {
      var k :| 0 <= k < |modules| && IsConnected(g, modules[k]);
      ConnectionsSpec(g, modules[k]);
      assert modules[k] in violations;
    }
    forall m | m in violations ensures |violations[m]| != 0 {
      ConnectionsSpec(g, m);
    }
  }

  /** The check is an error exactly when a listed module is missing from the graph. */
  lemma {:induction false} CheckedModulesExist(g: Graph, modules: seq<string>, warnings: seq<string>)
    ensures CheckOutcome(g, modules, warnings).Ok? <==> forall k :: 0 <= k < |modules| ==> modules[k] in g.modules
  {
    ExistenceErrorSpec(modules, g);
  }

  /**
   * `check`, given the graph with the ignored imports already removed and the warnings that
   * removal produced: every listed module must exist, then each one's connections are recorded.
   */
  method Check(g: Graph, modules: seq<string>, warnings: seq<string>)
    returns (r: Result<Contract.ContractCheck<map<string, seq<(string, string)>>>>)
    ensures r == CheckOutcome(g, modules, warnings)
  {
    var missing := CheckAllModulesExistInGraph(modules, g);
    if missing.Some? {
      return Err(missing.value);
    }
    var violations := map[];
    var i := 0;
    while i < |modules|
      invariant 0 <= i <= |modules|
      invariant violations == Violations(g, modules[..i])
    {
      var m := modules[i];
      var imports := DirectlyImportedBy(g, m);
      var importedBy := ImportersOf(g, m);
      assert modules[..i + 1][..i] == modules[..i];
      if importedBy != {} || imports != {} {
        violations := violations[m := ImportedPairs(m, Sorted(importedBy)) + ImportingPairs(m, Sorted(imports))];
      }
      i := i + 1;
    }
    assert modules[..i] == modules;
    var kept := forall m :: m in violations ==> |violations[m]| == 0;
    r := Ok(Contract.NewContractCheck(kept, Some(map["violations" := violations]), Some(warnings)));
  }
}
