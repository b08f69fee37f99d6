/**
 * Removing ignored imports from a graph and putting them back
 * (src/importlinter/domain/helpers.py: `pop_imports`, `add_imports`).
 */
module Helpers {
  import opened Wrappers
  import opened Imports
  import opened Graphs

  /** The pairs an expression resolves to that have at least one import detail. */
  function PoppablePairs(g: Graph, e: ImportExpression): (r: set<(string, string)>)
    ensures forall p :: p in r <==> p in MatchedPairs(e, g.modules) && DetailsFor(g, p.0, p.1) != {}
  {
    set p | p in MatchedPairs(e, g.modules) && DetailsFor(g, p.0, p.1) != {}
  }

  /** The details of the imports between the given pairs. */
  function DetailsOfPairs(g: Graph, pairs: set<(string, string)>): (r: set<ImportDetail>)
    ensures forall d :: d in r <==> d in g.details && Pair(d) in pairs
  {
    set d | d in g.details && Pair(d) in pairs
  }

  /** The graph without the imports between the given pairs and without their details. */
  function RemovePairs(g: Graph, pairs: set<(string, string)>): (r: Graph)
    ensures r.modules == g.modules && r.squashed == g.squashed
    ensures forall p :: p in r.edges <==> p in g.edges && p !in pairs
    ensures forall d :: d in r.details <==> d in g.details && Pair(d) !in pairs
    ensures g.Valid() ==> r.Valid()
  {
    g.(edges := g.edges - pairs, details := g.details - DetailsOfPairs(g, pairs))
  }

  function MissingImportMessage(e: ImportExpression): string {
    "Ignored import " + ExpressionString(e) + " not present in the graph."
  }

  /** The effect of one turn of `pop_imports`'s outer loop: the new graph and the removed details. */
  function PopOne(g: Graph, e: ImportExpression): (r: Result<(Graph, set<ImportDetail>)>)
  {
    var pairs := PoppablePairs(g, e);
    if pairs == {} then Err(MissingImportMessage(e))
    else Ok((RemovePairs(g, pairs), DetailsOfPairs(g, pairs)))
  }

  /**
   * `pop_imports(graph, imports)`: the graph it leaves behind and what it returns. When an
   * expression matches nothing, `MissingImport` is raised and the imports popped for the
   * earlier expressions stay removed.
   */
  function PopAll(g: Graph, exprs: seq<ImportExpression>): (Graph, Result<set<ImportDetail>>)
    decreases |exprs|
  {
    if exprs == [] then (g, Ok({}))
    else
      match PopOne(g, exprs[0])
      case Err(msg) => (g, Err(msg))
      case Ok((g1, removed)) =>
        var (g2, rest) := PopAll(g1, exprs[1..]);
        (g2, if rest.Ok? then Ok(removed + rest.value) else rest)
  }

  /** `add_imports`: every detail added back as an import with its line number and contents. */
  function AddAll(g: Graph, ds: set<ImportDetail>): (r: Graph)
  {
    g.(modules := g.modules + (set d | d in ds :: d.importer) + (set d | d in ds :: d.imported),
       edges := g.edges + (set d | d in ds :: Pair(d)),
       details := g.details + ds)
  }

  /** One popped expression removes exactly its matched imports that have details, and returns their details. */
  lemma {:induction false} PopOneEffect(g: Graph, e: ImportExpression)
    requires PopOne(g, e).Ok?
    ensures var (g1, removed) := PopOne(g, e).value;
            && g1.modules == g.modules
            && (forall p :: p in g1.edges <==> p in g.edges && p !in PoppablePairs(g, e))
            && (forall d :: d in removed <==> d in g.details && Pair(d) in MatchedPairs(e, g.modules))
            && (forall p :: p in MatchedPairs(e, g.modules) ==> DetailsFor(g1, p.0, p.1) == {})
  {
    var (g1, removed) := PopOne(g, e).value;
    forall d | d in g.details && Pair(d) in MatchedPairs(e, g.modules)
      ensures Pair(d) in PoppablePairs(g, e)
    {
      assert d in DetailsFor(g, d.importer, d.imported);
    }
  }

  /** `pop_imports` fails exactly when some expression, reached in turn, matches no import with details. */
  lemma {:induction false} PopOneFails(g: Graph, e: ImportExpression)
    ensures PopOne(g, e).Err? <==> forall p :: p in MatchedPairs(e, g.modules) ==> DetailsFor(g, p.0, p.1) == {}
  {
    if PopOne(g, e).Ok? {
      var p :| p in PoppablePairs(g, e);
    }
  }

  /** Putting back the details of some imports of a valid graph restores that graph. */
  lemma {:induction false} RestorePairs(g: Graph, pairs: set<(string, string)>)
    requires g.Valid()
    requires forall p :: p in pairs ==> DetailsFor(g, p.0, p.1) != {}
    ensures AddAll(RemovePairs(g, pairs), DetailsOfPairs(g, pairs)) == g
  {
    var ds := DetailsOfPairs(g, pairs);
    var r := AddAll(RemovePairs(g, pairs), ds);
    assert r.modules == g.modules;
    forall p | p in g.edges ensures p in r.edges {
      if p in pairs {
        var d :| d in DetailsFor(g, p.0, p.1);
        assert Pair(d) == p && d in ds;
      }
    }
    assert r.edges == g.edges;
    assert r.details == g.details;
  }

  /** Adding two batches of details is adding their union. */
  lemma {:induction false} AddAllUnion(g: Graph, a: set<ImportDetail>, b: set<ImportDetail>)
    ensures AddAll(AddAll(g, b), a) == AddAll(g, a + b)
  {
    var l := AddAll(AddAll(g, b), a);
    var r := AddAll(g, a + b);
    assert l.modules == r.modules;
    assert l.edges == r.edges;
  }

  /** Popping preserves the graph's consistency and never changes its modules. */
  lemma {:induction false} PopAllValid(g: Graph, exprs: seq<ImportExpression>)
    requires g.Valid()
    ensures PopAll(g, exprs).0.Valid() && PopAll(g, exprs).0.modules == g.modules
    decreases |exprs|
  {
    if exprs != [] && PopOne(g, exprs[0]).Ok? {
      PopAllValid(PopOne(g, exprs[0]).value.0, exprs[1..]);
    }
  }

  /** The documented inverse: `add_imports(graph, pop_imports(graph, imports))` leaves the graph unchanged. */
  lemma {:induction false} PopThenAddRestores(g: Graph, exprs: seq<ImportExpression>)
    requires g.Valid()
    requires PopAll(g, exprs).1.Ok?
    ensures AddAll(PopAll(g, exprs).0, PopAll(g, exprs).1.value) == g
    decreases |exprs|
  {
    if exprs != [] {
      var pairs := PoppablePairs(g, exprs[0]);
      var (g1, removed) := PopOne(g, exprs[0]).value;
      var (g2, rest) := PopAll(g1, exprs[1..]);
      PopThenAddRestores(g1, exprs[1..]);
      AddAllUnion(g2, removed, rest.value);
      RestorePairs(g, pairs);
    }
  }

  /** A failed pop reports the first expression, in iteration order, that matched nothing. */
  lemma {:induction false} PopAllError(g: Graph, exprs: seq<ImportExpression>)
    requires PopAll(g, exprs).1.Err?
    ensures exists i :: 0 <= i < |exprs| && PopAll(g, exprs).1.error == MissingImportMessage(exprs[i])
    decreases |exprs|
  {
    if PopOne(g, exprs[0]).Ok? {
      PopAllError(PopOne(g, exprs[0]).value.0, exprs[1..]);
      var i :| 0 <= i < |exprs[1..]| && PopAll(g, exprs).1.error == MissingImportMessage(exprs[1..][i]);
      assert exprs[1..][i] == exprs[i + 1];
    }
  }

  /** Removing one more pair from a graph whose pairs `done` are removed already. */
  lemma {:induction false} PopPairStep(g: Graph, done: set<(string, string)>, p: (string, string))
    ensures DetailsFor(RemovePairs(g, done), p.0, p.1) == if p in done then {} else DetailsFor(g, p.0, p.1)
    ensures WithoutImport(RemovePairs(g, done), p.0, p.1) == RemovePairs(g, done + {p})
    ensures DetailsOfPairs(g, done) + DetailsFor(RemovePairs(g, done), p.0, p.1) == DetailsOfPairs(g, done + {p})
  {
    var l, r := WithoutImport(RemovePairs(g, done), p.0, p.1), RemovePairs(g, done + {p});
    assert l.edges == r.edges;
    assert l.details == r.details;
  }

  /**
   * One turn of `pop_imports`'s outer loop: removes every import the expression resolves to
   * that has details, collecting the details, and reports whether anything was removed.
   */
  method PopExpression(graph: MutableGraph, importToRemove: ImportExpression)
    returns (removed: set<ImportDetail>, wasAnyRemoved: bool)
    modifies graph
    ensures PopOne(old(graph.value), importToRemove)
            == if wasAnyRemoved then Ok((graph.value, removed)) else Err(MissingImportMessage(importToRemove))
    ensures !wasAnyRemoved ==> graph.value == old(graph.value)
  {
    ghost var before := graph.value;
    removed := {};
    wasAnyRemoved := false;
    var pairs := ToModules(importToRemove, graph.value.modules);
    var j := 0;
    ghost var done: set<(string, string)> := {};
    while j < |pairs|
      invariant 0 <= j <= |pairs|
      invariant forall p :: p in done <==> exists k :: 0 <= k < j && p == (pairs[k].0.name, pairs[k].1.name)
                                                        && DetailsFor(before, p.0, p.1) != {}
      invariant graph.value == RemovePairs(before, done)
      invariant removed == DetailsOfPairs(before, done)
      invariant wasAnyRemoved <==> done != {}
    {
      var importer, imported := pairs[j].0, pairs[j].1;
      var importDetails := graph.Details(importer.name, imported.name);
      PopPairStep(before, done, (importer.name, imported.name));
      if importDetails != {} {
        wasAnyRemoved := true;
        removed := removed + importDetails;
        graph.RemoveImport(importer.name, imported.name);
        done := done + {(importer.name, imported.name)};
      }
      j := j + 1;
    }
    assert done == PoppablePairs(before, importToRemove) by {
      forall p | p in PoppablePairs(before, importToRemove) ensures p in done {
        assert (Module(p.0), Module(p.1)) in pairs;
        var k :| 0 <= k < |pairs| && pairs[k] == (Module(p.0), Module(p.1));
      }
    }
    if !wasAnyRemoved {
      assert graph.value == before;
    }
  }

  /**
   * `pop_imports`: for each expression, removes every matched import that has details and
   * collects those details; raises `MissingImport` for an expression that removed nothing.
   */
  method PopImports(graph: MutableGraph, exprs: seq<ImportExpression>) returns (r: Result<set<ImportDetail>>)
    modifies graph
    ensures (graph.value, r) == PopAll(old(graph.value), exprs)
  {
    var removedImports: set<ImportDetail> := {};
    var i := 0;
    ghost var g0 := graph.value;
    assert exprs[i..] == exprs;
    assert PopAll(g0, exprs).1.Ok? ==> {} + PopAll(g0, exprs).1.value == PopAll(g0, exprs).1.value;
    while i < |exprs|
      invariant 0 <= i <= |exprs|
      invariant PopAll(g0, exprs) == (var (g, rest) := PopAll(graph.value, exprs[i..]);
                                      (g, if rest.Ok? then Ok(removedImports + rest.value) else rest))
    {
      ghost var before := graph.value;
      ghost var removedBefore := removedImports;
      var removed, wasAnyRemoved := PopExpression(graph, exprs[i]);
      if !wasAnyRemoved {
        return Err(MissingImportMessage(exprs[i]));
      }
      removedImports := removedImports + removed;
      assert exprs[i..][1..] == exprs[i + 1..];
      ghost var (g2, rest) := PopAll(graph.value, exprs[i + 1..]);
      assert PopAll(before, exprs[i..]) == (g2, if rest.Ok? then Ok(removed + rest.value) else rest);
      assert rest.Ok? ==> removedBefore + (removed + rest.value) == removedImports + rest.value;
      i := i + 1;
    }
    return Ok(removedImports);
  }

  /** `add_imports`: adds every detail back to the graph. */
  method AddImports(graph: MutableGraph, importDetails: set<ImportDetail>)
    modifies graph
    ensures graph.value == AddAll(old(graph.value), importDetails)
  {
    var rest := importDetails;
    while rest != {}
      invariant rest <= importDetails
      invariant graph.value == AddAll(old(graph.value), importDetails - rest)
      decreases rest
    {
      var details :| details in rest;
      AddAllStep(old(graph.value), importDetails - rest, details);
      assert importDetails - (rest - {details}) == (importDetails - rest) + {details};
      graph.AddImport(details);
      rest := rest - {details};
    }
  }

  /** Adding one more detail to the details already added back. */
  lemma {:induction false} AddAllStep(g: Graph, ds: set<ImportDetail>, d: ImportDetail)
    ensures WithImport(AddAll(g, ds), d) == AddAll(g, ds + {d})
  {
    var before, after := AddAll(g, ds), AddAll(g, ds + {d});
    assert after.modules == before.modules + {d.importer, d.imported};
    assert after.edges == before.edges + {Pair(d)};
  }
}
