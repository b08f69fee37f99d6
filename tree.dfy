/**
 * The tree contract (src/importlinter/contracts/tree.py): the imports between modules, and,
 * when package dependencies are considered, between all their ancestor packages, must form a
 * directed graph without cycles.
 */
module Tree {
  import opened Wrappers
  import opened Strings
  import opened Imports
  import opened Graphs
  import Acyclic
  import Contract

  const CyclesMetadataKey := "cycles"

  /** The directed graph the check builds (a networkx `DiGraph`): its nodes and its edges. */
  class DiGraph {
    var nodes: set<string>
    var edges: set<(string, string)>

    constructor ()
      ensures nodes == {} && edges == {}
    {
      nodes := {};
      edges := {};
    }

    predicate HasNode(n: string)
      reads this
    {
      n in nodes
    }

    method AddNode(n: string)
      modifies this
      ensures nodes == old(nodes) + {n} && edges == old(edges)
    {
      nodes := nodes + {n};
    }

    /** `add_edge` adds both ends as nodes too. */
    method AddEdge(u: string, v: string)
      modifies this
      ensures nodes == old(nodes) + {u, v} && edges == old(edges) + {(u, v)}
    {
      nodes := nodes + {u, v};
      edges := edges + {(u, v)};
    }
  }

  // ---------------------------------------------------------------------------------------------
  // Families
  // ---------------------------------------------------------------------------------------------

  /** `_consider_package_dependencies`: the option's text, lower-cased, is "true". */
  predicate ConsiderPackageDependencies(option: string) {
    IsTrueString(option)
  }

  /**
   * The family of a module: the module itself, followed by its ancestors (nearest first) when
   * package dependencies are considered.
   */
  function Family(m: string, consider: bool): (r: seq<string>)
    ensures |r| >= 1 && r[0] == m
    ensures forall a :: a in r <==> a == m || (consider && IsDescendantOf(Module(m), Module(a)))
  {
    Acyclic.ModuleAncestorsSpec(m);
    DescendantIrreflexive(Module(m));
    [m] + (if consider then Acyclic.ModuleAncestors(m) else [])
  }

  /** The family as the check computes it, with `_get_module_ancestors`. */
  method GetFamily(m: string, consider: bool) returns (family: seq<string>)
    ensures family == Family(m, consider)
  {
    family := [m];
    if consider {
      var ancestors := Acyclic.GetModuleAncestors(m);
      family := family + ancestors;
    }
  }

  // ---------------------------------------------------------------------------------------------
  // The graph the check builds
  // ---------------------------------------------------------------------------------------------

  /** The edges from `a` to each member of `members` other than `a`. */
  function EdgesTo(a: string, members: seq<string>): set<(string, string)> {
    set b | b in members && b != a :: (a, b)
  }

  /** The members of the families of `importeds` other than `a`. */
  function Targets(a: string, importeds: seq<string>, consider: bool): set<string> {
    set x, b | x in importeds && b in Family(x, consider) && b != a :: b
  }

  /** The edges from `a` to each member of the families of `importeds` other than `a`. */
  function Arrows(a: string, importeds: seq<string>, consider: bool): set<(string, string)> {
    set x, b | x in importeds && b in Family(x, consider) && b != a :: (a, b)
  }

  /** The nodes added for an importer whose family is `family`. */
  function FamilyNodes(family: seq<string>, importeds: seq<string>, consider: bool): set<string> {
    (set a | a in family) + (set a, x, b | a in family && x in importeds && b in Family(x, consider) && b != a :: b)
  }

  /** The edges added for an importer whose family is `family`. */
  function FamilyArrows(family: seq<string>, importeds: seq<string>, consider: bool): set<(string, string)> {
    set a, x, b | a in family && x in importeds && b in Family(x, consider) && b != a :: (a, b)
  }

  /** The inner loop: one edge from `a` to each other member of an imported module's family. */
  method AddEdgesTo(dg: DiGraph, a: string, members: seq<string>)
    requires a in dg.nodes
    modifies dg
    ensures dg.nodes == old(dg.nodes) + (set b | b in members && b != a)
    ensures dg.edges == old(dg.edges) + EdgesTo(a, members)
  {
    for l := 0 to |members|
      invariant dg.nodes == old(dg.nodes) + (set b | b in members[..l] && b != a)
      invariant dg.edges == old(dg.edges) + EdgesTo(a, members[..l])
      invariant a in dg.nodes
    {
      var b := members[l];
      assert members[..l + 1] == members[..l] + [b];
      if a == b {
        continue;
      }
      if !dg.HasNode(b) {
        dg.AddNode(b);
      }
      dg.AddEdge(a, b);
    }
    assert members[..|members|] == members;
  }

  /** Visiting one more imported module `x` adds the members of its family other than `a`. */
  lemma {:induction false} ArrowsStep(a: string, importeds: seq<string>, x: string, consider: bool)
    ensures Targets(a, importeds + [x], consider)
         == Targets(a, importeds, consider) + (set b | b in Family(x, consider) && b != a)
    ensures Arrows(a, importeds + [x], consider) == Arrows(a, importeds, consider) + EdgesTo(a, Family(x, consider))
  {
    var longer := importeds + [x];
    forall y | y in Targets(a, longer, consider)
      ensures y in Targets(a, importeds, consider) + (set b | b in Family(x, consider) && b != a)
    {
      var z :| z in longer && y in Family(z, consider) && y != a;
      if z !in importeds {
        assert z == x;
      }
    }
    forall e | e in Arrows(a, longer, consider)
      ensures e in Arrows(a, importeds, consider) + EdgesTo(a, Family(x, consider))
    {
      var z, b :| z in longer && b in Family(z, consider) && b != a && e == (a, b);
      if z !in importeds {
        assert z == x;
      }
    }
    assert x in longer;
  }

  /** The loop over the imported modules, for one member `a` of the importer's family. */
  method AddArrows(dg: DiGraph, a: string, importeds: seq<string>, consider: bool)
    requires a in dg.nodes
    modifies dg
    ensures dg.nodes == old(dg.nodes) + Targets(a, importeds, consider)
    ensures dg.edges == old(dg.edges) + Arrows(a, importeds, consider)
  {
    ghost var nodes0, edges0 := dg.nodes, dg.edges;
    for k := 0 to |importeds|
      invariant dg.nodes == nodes0 + Targets(a, importeds[..k], consider)
      invariant dg.edges == edges0 + Arrows(a, importeds[..k], consider)
      invariant a in dg.nodes
    {
      var x := importeds[k];
      var members := GetFamily(x, consider);
      ghost var nodes, edges := dg.nodes, dg.edges;
      AddEdgesTo(dg, a, members);
      AddArrowsStep(nodes0, edges0, a, importeds, k, consider, nodes, edges, dg.nodes, dg.edges);
    }
    assert importeds[..|importeds|] == importeds;
  }

  /** The invariant of `AddArrows` carried over one visited imported module. */
  lemma {:induction false} AddArrowsStep(nodes0: set<string>, edges0: set<(string, string)>, a: string,
                                         importeds: seq<string>, k: int, consider: bool,
                                         nodes: set<string>, edges: set<(string, string)>,
                                         nodes': set<string>, edges': set<(string, string)>)
    requires 0 <= k < |importeds|
    requires nodes == nodes0 + Targets(a, importeds[..k], consider)
    requires edges == edges0 + Arrows(a, importeds[..k], consider)
    requires nodes' == nodes + (set b | b in Family(importeds[k], consider) && b != a)
    requires edges' == edges + EdgesTo(a, Family(importeds[k], consider))
    ensures nodes' == nodes0 + Targets(a, importeds[..k + 1], consider)
    ensures edges' == edges0 + Arrows(a, importeds[..k + 1], consider)
  {
    assert importeds[..k + 1] == importeds[..k] + [importeds[k]];
    ArrowsStep(a, importeds[..k], importeds[k], consider);
  }

  /** Visiting one more member `a` of the importer's family adds `a`, its targets and its arrows. */
  lemma {:induction false} FamilyStep(family: seq<string>, a: string, importeds: seq<string>, consider: bool)
    ensures FamilyNodes(family + [a], importeds, consider)
         == FamilyNodes(family, importeds, consider) + {a} + Targets(a, importeds, consider)
    ensures FamilyArrows(family + [a], importeds, consider)
         == FamilyArrows(family, importeds, consider) + Arrows(a, importeds, consider)
  {
    var longer := family + [a];
    forall y | y in FamilyNodes(longer, importeds, consider)
      ensures y in FamilyNodes(family, importeds, consider) + {a} + Targets(a, importeds, consider)
    {
      if y !in (set c | c in longer) {
        var c, x :| c in longer && x in importeds && y in Family(x, consider) && y != c;
        if c !in family {
          assert c == a;
        }
      }
    }
    forall e | e in FamilyArrows(longer, importeds, consider)
      ensures e in FamilyArrows(family, importeds, consider) + Arrows(a, importeds, consider)
    {
      var c, x, b :| c in longer && x in importeds && b in Family(x, consider) && b != c && e == (c, b);
      if c !in family {
        assert c == a;
      }
    }
    forall y | y in Targets(a, importeds, consider) ensures y in FamilyNodes(longer, importeds, consider) {
      var x :| x in importeds && y in Family(x, consider) && y != a;
      assert a in longer;
    }
    forall y | y in FamilyNodes(family, importeds, consider) ensures y in FamilyNodes(longer, importeds, consider) {
      if y !in (set c | c in family) {
        var c, x :| c in family && x in importeds && y in Family(x, consider) && y != c;
        assert c in longer;
      }
    }
  }

  /** The loop over the members of one importer's family. */
  method AddFamily(dg: DiGraph, family: seq<string>, importeds: seq<string>, consider: bool)
    modifies dg
    ensures dg.nodes == old(dg.nodes) + FamilyNodes(family, importeds, consider)
    ensures dg.edges == old(dg.edges) + FamilyArrows(family, importeds, consider)
  {
    for j := 0 to |family|
      invariant dg.nodes == old(dg.nodes) + FamilyNodes(family[..j], importeds, consider)
      invariant dg.edges == old(dg.edges) + FamilyArrows(family[..j], importeds, consider)
    {
      var a := family[j];
      dg.AddNode(a);
      AddArrows(dg, a, importeds, consider);
      assert family[..j + 1] == family[..j] + [a];
      FamilyStep(family[..j], a, importeds, consider);
    }
    assert family[..|family|] == family;
  }

  /**
   * The nodes of the built graph once the importers `ms` are visited: the families of the
   * importers and the families of the modules they import.
   */
  function NodesUpTo(g: Graph, ms: seq<string>, consider: bool): set<string> {
    (set m, a | m in ms && a in Family(m, consider) :: a)
    + (set e, b | e in g.edges && e.0 in ms && b in Family(e.1, consider) :: b)
  }

  /**
   * The edges of the built graph once the importers `ms` are visited: for each of their
   * imports, each member of the importer's family to each different member of the imported
   * module's family.
   */
  function EdgesUpTo(g: Graph, ms: seq<string>, consider: bool): set<(string, string)> {
    set e, a, b | e in g.edges && e.0 in ms && a in Family(e.0, consider) && b in Family(e.1, consider) && a != b
      :: (a, b)
  }

  /** Visiting one more importer `m` adds the nodes of its family. */
  lemma {:induction false} ImporterNodesStep(g: Graph, ms: seq<string>, m: string, importeds: seq<string>, consider: bool)
    requires forall x :: x in importeds <==> (m, x) in g.edges
    ensures NodesUpTo(g, ms + [m], consider)
         == NodesUpTo(g, ms, consider) + FamilyNodes(Family(m, consider), importeds, consider)
  {
    NodesStepWithin(g, ms, m, importeds, consider);
    NodesStepNew(g, ms, m, importeds, consider);
    NodesStepOld(g, ms, m, consider);
  }

  /** The nodes after visiting `m` were there before or belong to `m`'s family and its targets. */
  lemma {:induction false} NodesStepWithin(g: Graph, ms: seq<string>, m: string, importeds: seq<string>, consider: bool)
    requires forall x :: x in importeds <==> (m, x) in g.edges
    ensures NodesUpTo(g, ms + [m], consider)
         <= NodesUpTo(g, ms, consider) + FamilyNodes(Family(m, consider), importeds, consider)
  {
    var longer := ms + [m];
    var family := Family(m, consider);
    forall y | y in NodesUpTo(g, longer, consider)
      ensures y in NodesUpTo(g, ms, consider) + FamilyNodes(family, importeds, consider)
    {
      var e, own := NodesUpToWitness(g, longer, consider, y);
      if e.0 in ms {
        InNodesUpTo(g, ms, consider, e, own, y);
      } else if own || y == m {
        assert e.0 == m && y in family;
        InFamilyNodes(family, importeds, consider, y, y, y);
      } else {
        assert e.0 == m && e.1 in importeds;
        InFamilyNodes(family, importeds, consider, m, e.1, y);
      }
    }
  }

  /** A node of `NodesUpTo` is in the family of an importer among `ms`, or of a module one of them imports. */
  lemma {:induction false} NodesUpToWitness(g: Graph, ms: seq<string>, consider: bool, y: string)
    returns (e: (string, string), own: bool)
    requires y in NodesUpTo(g, ms, consider)
    ensures e.0 in ms
    ensures own ==> y in Family(e.0, consider)
    ensures !own ==> e in g.edges && y in Family(e.1, consider)
  {
    if y in (set n, a | n in ms && a in Family(n, consider) :: a) {
      var n :| n in ms && y in Family(n, consider);
      e, own := (n, n), true;
    } else {
      e :| e in g.edges && e.0 in ms && y in Family(e.1, consider);
      own := false;
    }
  }

  /** A member of the family of an importer among `ms`, or of a module it imports, is a node of `NodesUpTo`. */
  lemma {:induction false} InNodesUpTo(g: Graph, ms: seq<string>, consider: bool, e: (string, string), own: bool, y: string)
    requires e.0 in ms
    requires own ==> y in Family(e.0, consider)
    requires !own ==> e in g.edges && y in Family(e.1, consider)
    ensures y in NodesUpTo(g, ms, consider)
  {
  }

  /** A member of `family`, or a member other than `a` of the family of a module `x` in `importeds`. */
  lemma {:induction false} InFamilyNodes(family: seq<string>, importeds: seq<string>, consider: bool, a: string, x: string,
                                         y: string)
    requires (a == y && y in family) || (a in family && x in importeds && y in Family(x, consider) && y != a)
    ensures y in FamilyNodes(family, importeds, consider)
  {
  }

  /** The nodes of `m`'s family and its targets are there after visiting `m`. */
  lemma {:induction false} NodesStepNew(g: Graph, ms: seq<string>, m: string, importeds: seq<string>, consider: bool)
    requires forall x :: x in importeds <==> (m, x) in g.edges
    ensures FamilyNodes(Family(m, consider), importeds, consider) <= NodesUpTo(g, ms + [m], consider)
  {
    var longer := ms + [m];
    var family := Family(m, consider);
    forall y | y in FamilyNodes(family, importeds, consider) ensures y in NodesUpTo(g, longer, consider) {
      assert m in longer;
      if y !in (set a | a in family) {
        var a, x :| a in family && x in importeds && y in Family(x, consider) && y != a;
        assert (m, x) in g.edges && (m, x).0 in longer;
      }
    }
  }

  /** Visiting one more importer keeps the nodes already there. */
  lemma {:induction false} NodesStepOld(g: Graph, ms: seq<string>, m: string, consider: bool)
    ensures NodesUpTo(g, ms, consider) <= NodesUpTo(g, ms + [m], consider)
  {
    var longer := ms + [m];
    forall y | y in NodesUpTo(g, ms, consider) ensures y in NodesUpTo(g, longer, consider) {
      if y in (set n, a | n in ms && a in Family(n, consider) :: a) {
        var n :| n in ms && y in Family(n, consider);
        assert n in longer;
      } else {
        var e :| e in g.edges && e.0 in ms && y in Family(e.1, consider);
        assert e.0 in longer;
      }
    }
  }

  /** Visiting one more importer `m` adds the edges of its family. */
  lemma {:induction false} ImporterEdgesStep(g: Graph, ms: seq<string>, m: string, importeds: seq<string>, consider: bool)
    requires forall x :: x in importeds <==> (m, x) in g.edges
    ensures EdgesUpTo(g, ms + [m], consider)
         == EdgesUpTo(g, ms, consider) + FamilyArrows(Family(m, consider), importeds, consider)
  {
    EdgesStepWithin(g, ms, m, importeds, consider);
    EdgesStepNew(g, ms, m, importeds, consider);
    EdgesStepOld(g, ms, m, consider);
  }

  /** The edges after visiting `m` were there before or are arrows of `m`'s family. */
  lemma {:induction false} EdgesStepWithin(g: Graph, ms: seq<string>, m: string, importeds: seq<string>, consider: bool)
    requires forall x :: x in importeds <==> (m, x) in g.edges
    ensures EdgesUpTo(g, ms + [m], consider)
         <= EdgesUpTo(g, ms, consider) + FamilyArrows(Family(m, consider), importeds, consider)
  {
    var longer := ms + [m];
    var family := Family(m, consider);
    forall d | d in EdgesUpTo(g, longer, consider)
      ensures d in EdgesUpTo(g, ms, consider) + FamilyArrows(family, importeds, consider)
    {
      var e, a, b := EdgesUpToWitness(g, longer, consider, d);
      if e.0 in ms {
        InEdgesUpTo(g, ms, consider, e, a, b);
      } else {
        assert e.0 == m && e.1 in importeds;
        InFamilyArrows(family, importeds, consider, a, e.1, b);
      }
    }
  }

  /** An edge of `EdgesUpTo` comes from an import whose importer is among `ms`. */
  lemma {:induction false} EdgesUpToWitness(g: Graph, ms: seq<string>, consider: bool, d: (string, string))
    returns (e: (string, string), a: string, b: string)
    requires d in EdgesUpTo(g, ms, consider)
    ensures e in g.edges && e.0 in ms && a in Family(e.0, consider) && b in Family(e.1, consider) && a != b && d == (a, b)
  {
    e, a, b :| e in g.edges && e.0 in ms && a in Family(e.0, consider) && b in Family(e.1, consider) && a != b && d == (a, b);
  }

  /** An edge between members of the families of an import whose importer is among `ms`. */
  lemma {:induction false} InEdgesUpTo(g: Graph, ms: seq<string>, consider: bool, e: (string, string), a: string, b: string)
    requires e in g.edges && e.0 in ms && a in Family(e.0, consider) && b in Family(e.1, consider) && a != b
    ensures (a, b) in EdgesUpTo(g, ms, consider)
  {
  }

  /** An arrow from a member of `family` to a member of an imported module's family. */
  lemma {:induction false} InFamilyArrows(family: seq<string>, importeds: seq<string>, consider: bool, a: string, x: string,
                                          b: string)
    requires a in family && x in importeds && b in Family(x, consider) && b != a
    ensures (a, b) in FamilyArrows(family, importeds, consider)
  {
  }

  /** The arrows of `m`'s family are there after visiting `m`. */
  lemma {:induction false} EdgesStepNew(g: Graph, ms: seq<string>, m: string, importeds: seq<string>, consider: bool)
    requires forall x :: x in importeds <==> (m, x) in g.edges
    ensures FamilyArrows(Family(m, consider), importeds, consider) <= EdgesUpTo(g, ms + [m], consider)
  {
    var longer := ms + [m];
    var family := Family(m, consider);
    forall d | d in FamilyArrows(family, importeds, consider) ensures d in EdgesUpTo(g, longer, consider) {
      var a, x, b :| a in family && x in importeds && b in Family(x, consider) && b != a && d == (a, b);
      var e := (m, x);
      assert e in g.edges && e.0 in longer;
    }
  }

  /** Visiting one more importer keeps the edges already there. */
  lemma {:induction false} EdgesStepOld(g: Graph, ms: seq<string>, m: string, consider: bool)
    ensures EdgesUpTo(g, ms, consider) <= EdgesUpTo(g, ms + [m], consider)
  {
    var longer := ms + [m];
    forall d | d in EdgesUpTo(g, ms, consider) ensures d in EdgesUpTo(g, longer, consider) {
      var e, a, b :| e in g.edges && e.0 in ms && a in Family(e.0, consider) && b in Family(e.1, consider)
                     && a != b && d == (a, b);
      assert e.0 in longer;
    }
  }

  /** The graph the check builds: every module is visited as an importer. */
  function TreeNodes(g: Graph, consider: bool): set<string> {
    (set m, a | m in g.modules && a in Family(m, consider) :: a)
    + (set e, b | e in g.edges && e.0 in g.modules && b in Family(e.1, consider) :: b)
  }

  function TreeEdges(g: Graph, consider: bool): set<(string, string)> {
    set e, a, b | e in g.edges && e.0 in g.modules && a in Family(e.0, consider) && b in Family(e.1, consider) && a != b
      :: (a, b)
  }

  /** Visiting the modules of the graph, in any order, builds the graph above. */
  lemma {:induction false} AllImporters(g: Graph, ms: seq<string>, consider: bool)
    requires forall m :: m in ms <==> m in g.modules
    ensures NodesUpTo(g, ms, consider) == TreeNodes(g, consider)
    ensures EdgesUpTo(g, ms, consider) == TreeEdges(g, consider)
  {
  }

  /** One turn of the loop over the modules of the graph: the importer `m` and its imports. */
  method VisitImporter(dg: DiGraph, g: Graph, importers: seq<string>, i: nat, consider: bool)
    requires i < |importers|
    requires dg.nodes == NodesUpTo(g, importers[..i], consider) && dg.edges == EdgesUpTo(g, importers[..i], consider)
    modifies dg
    ensures dg.nodes == NodesUpTo(g, importers[..i + 1], consider)
    ensures dg.edges == EdgesUpTo(g, importers[..i + 1], consider)
  {
    var m := importers[i];
    ghost var ms := importers[..i];
    assert importers[..i + 1] == ms + [m];
    var family := GetFamily(m, consider);
    var importeds := Sorted(DirectlyImportedBy(g, m));
    AddFamily(dg, family, importeds, consider);
    ImporterNodesStep(g, ms, m, importeds, consider);
    ImporterEdgesStep(g, ms, m, importeds, consider);
  }

  /** The loop over the modules of the graph, building the directed graph. */
  method BuildGraph(g: Graph, consider: bool) returns (dg: DiGraph)
    ensures fresh(dg)
    ensures dg.nodes == TreeNodes(g, consider) && dg.edges == TreeEdges(g, consider)
  {
    dg := new DiGraph();
    var importers := Sorted(g.modules);
    for i := 0 to |importers|
      invariant dg.nodes == NodesUpTo(g, importers[..i], consider)
      invariant dg.edges == EdgesUpTo(g, importers[..i], consider)
    {
      VisitImporter(dg, g, importers, i, consider);
    }
    assert importers[..|importers|] == importers;
    AllImporters(g, importers, consider);
  }

  // ---------------------------------------------------------------------------------------------
  // Cycles and the outcome
  // ---------------------------------------------------------------------------------------------

  /** Step `i` of the walk `p` follows an edge. */
  predicate Linked(edges: set<(string, string)>, p: seq<string>, i: nat)
    requires i + 1 < |p|
  {
    (p[i], p[i + 1]) in edges
  }

  /** `p` is a closed walk along `edges`: it follows an edge at each step and returns to its start. */
  predicate IsCycle(edges: set<(string, string)>, p: seq<string>) {
    && |p| >= 2
    && p[0] == p[|p| - 1]
    && forall i: nat | i + 1 < |p| :: Linked(edges, p, i)
  }

  ghost predicate HasCycle(edges: set<(string, string)>) {
    exists p :: IsCycle(edges, p)
  }

  /** networkx's `simple_cycles`, which the check only asks for emptiness. */
  type CycleLister = (set<string>, set<(string, string)>) -> seq<seq<string>>

  /** The lister finds some cycle exactly when the graph has one. */
  ghost predicate ListsCycles(simpleCycles: CycleLister) {
    forall nodes, edges :: simpleCycles(nodes, edges) == [] <==> !HasCycle(edges)
  }

  /** What `check` returns: kept when no cycle is listed, with the cycles as metadata. */
  function Outcome(g: Graph, considerPackageDependencies: string, simpleCycles: CycleLister)
    : Contract.ContractCheck<seq<seq<string>>>
  {
    var consider := ConsiderPackageDependencies(considerPackageDependencies);
    var cycles := simpleCycles(TreeNodes(g, consider), TreeEdges(g, consider));
    Contract.NewContractCheck(|cycles| == 0, Some(map[CyclesMetadataKey := cycles]), None)
  }

  /**
   * `check`: the option is read as a string (its `str()`), the graph is built and its cycles
   * listed.
   */
  method Check(g: Graph, considerPackageDependencies: string, simpleCycles: CycleLister)
    returns (r: Contract.ContractCheck<seq<seq<string>>>)
    ensures r == Outcome(g, considerPackageDependencies, simpleCycles)
  {
    var consider := ConsiderPackageDependencies(considerPackageDependencies);
    var nxGraph := BuildGraph(g, consider);
    var cycles := simpleCycles(nxGraph.nodes, nxGraph.edges);
    r := Contract.NewContractCheck(|cycles| == 0, Some(map[CyclesMetadataKey := cycles]), None);
  }

  /** The contract is kept exactly when the built graph has no cycle; the cycles are the only metadata. */
  lemma {:induction false} KeptIff(g: Graph, considerPackageDependencies: string, simpleCycles: CycleLister)
    requires ListsCycles(simpleCycles)
    ensures Outcome(g, considerPackageDependencies, simpleCycles).kept
        <==> !HasCycle(TreeEdges(g, ConsiderPackageDependencies(considerPackageDependencies)))
    ensures Outcome(g, considerPackageDependencies, simpleCycles).metadata.Keys == {CyclesMetadataKey}
    ensures Outcome(g, considerPackageDependencies, simpleCycles).warnings == []
  {
    var consider := ConsiderPackageDependencies(considerPackageDependencies);
    var cycles := simpleCycles(TreeNodes(g, consider), TreeEdges(g, consider));
    assert cycles == [] <==> !HasCycle(TreeEdges(g, consider));
  }

  /** Every module of the graph is a node, every edge joins two different nodes. */
  lemma {:induction false} GraphShape(g: Graph, consider: bool)
    ensures g.modules <= TreeNodes(g, consider)
    ensures forall e :: e in TreeEdges(g, consider) ==> e.0 in TreeNodes(g, consider) && e.1 in TreeNodes(g, consider)
    ensures forall e :: e in TreeEdges(g, consider) ==> e.0 != e.1
  {
    forall m | m in g.modules ensures m in TreeNodes(g, consider) {
      assert m in Family(m, consider);
    }
    forall d | d in TreeEdges(g, consider) ensures d.0 in TreeNodes(g, consider) && d.1 in TreeNodes(g, consider) {
      var e, a, b :| e in g.edges && e.0 in g.modules && a in Family(e.0, consider) && b in Family(e.1, consider)
                     && a != b && d == (a, b);
    }
  }

  /** Without package dependencies the edges are the imports of the graph's modules, less self-imports. */
  lemma {:induction false} DirectEdges(g: Graph)
    ensures forall e :: e in TreeEdges(g, false) <==> e in g.edges && e.0 in g.modules && e.0 != e.1
  {
    forall e | e in g.edges && e.0 in g.modules && e.0 != e.1 ensures e in TreeEdges(g, false) {
      assert e.0 in Family(e.0, false) && e.1 in Family(e.1, false);
    }
  }

  /**
   * With package dependencies, each import joins the importer and every package containing it
   * to the imported module and every package containing it, when the two differ; and every
   * edge arises that way.
   */
  lemma {:induction false} PackageEdges(g: Graph)
    ensures forall e, a, b :: e in g.edges && e.0 in g.modules && a != b
              && IsInPackage(Module(e.0), Module(a)) && IsInPackage(Module(e.1), Module(b))
              ==> (a, b) in TreeEdges(g, true)
    ensures forall d :: d in TreeEdges(g, true) ==> d.0 != d.1
    ensures forall d :: d in TreeEdges(g, true) ==>
              exists e :: e in g.edges && e.0 in g.modules
                && IsInPackage(Module(e.0), Module(d.0)) && IsInPackage(Module(e.1), Module(d.1))
  {
    forall e, a, b | e in g.edges && e.0 in g.modules && a != b
        && IsInPackage(Module(e.0), Module(a)) && IsInPackage(Module(e.1), Module(b))
      ensures (a, b) in TreeEdges(g, true)
    {
      PackageEdge(g, e, a, b);
    }
    forall d | d in TreeEdges(g, true)
      ensures exists e :: e in g.edges && e.0 in g.modules
                && IsInPackage(Module(e.0), Module(d.0)) && IsInPackage(Module(e.1), Module(d.1))
    {
      var e, a, b :| e in g.edges && e.0 in g.modules && a in Family(e.0, true) && b in Family(e.1, true)
                     && a != b && d == (a, b);
    }
  }

  /** One import, one package around each end: the edge between the packages. */
  lemma {:induction false} PackageEdge(g: Graph, e: (string, string), a: string, b: string)
    requires e in g.edges && e.0 in g.modules && a != b
    requires IsInPackage(Module(e.0), Module(a)) && IsInPackage(Module(e.1), Module(b))
    ensures (a, b) in TreeEdges(g, true)
  {
    assert a in Family(e.0, true) && b in Family(e.1, true);
  }

  /** Considering package dependencies only adds edges. */
  lemma {:induction false} PackageEdgesInclude(g: Graph)
    ensures TreeEdges(g, false) <= TreeEdges(g, true)
  {
    forall d | d in TreeEdges(g, false) ensures d in TreeEdges(g, true) {
      var e, a, b :| e in g.edges && e.0 in g.modules && a in Family(e.0, false) && b in Family(e.1, false)
                     && a != b && d == (a, b);
      assert a in Family(e.0, true) && b in Family(e.1, true);
    }
  }

  /** A cycle along some edges is a cycle along any larger set of edges. */
  lemma {:induction false} CycleInLarger(edges: set<(string, string)>, more: set<(string, string)>)
    requires edges <= more && HasCycle(edges)
    ensures HasCycle(more)
  {
    var p :| IsCycle(edges, p);
    forall i: nat | i + 1 < |p| ensures Linked(more, p, i) {
      assert Linked(edges, p, i);
    }
    assert IsCycle(more, p);
  }

  /** A graph that keeps the contract with package dependencies also keeps it without them. */
  lemma {:induction false} KeptWithPackagesKeptWithout(g: Graph, simpleCycles: CycleLister)
    requires ListsCycles(simpleCycles)
    ensures Outcome(g, "True", simpleCycles).kept ==> Outcome(g, "False", simpleCycles).kept
  {
    IsTrueStringSpellings();
    KeptIff(g, "True", simpleCycles);
    KeptIff(g, "False", simpleCycles);
    PackageEdgesInclude(g);
    if HasCycle(TreeEdges(g, false)) {
      CycleInLarger(TreeEdges(g, false), TreeEdges(g, true));
    }
  }

  /**
   * With package dependencies, two different packages whose modules import each other (in
   * either direction, through any of their descendants) break the contract.
   */
  lemma {:induction false} MutualPackagesBreak(g: Graph, simpleCycles: CycleLister, e1: (string, string), e2: (string, string),
                            p: string, q: string)
    requires ListsCycles(simpleCycles)
    requires e1 in g.edges && e1.0 in g.modules && e2 in g.edges && e2.0 in g.modules && p != q
    requires IsInPackage(Module(e1.0), Module(p)) && IsInPackage(Module(e2.1), Module(p))
    requires IsInPackage(Module(e1.1), Module(q)) && IsInPackage(Module(e2.0), Module(q))
    ensures !Outcome(g, "true", simpleCycles).kept
  {
    IsTrueStringSpellings();
    KeptIff(g, "true", simpleCycles);
    PackageEdge(g, e1, p, q);
    PackageEdge(g, e2, q, p);
    TwoWayCycle(TreeEdges(g, true), p, q);
  }

  /** Two nodes with an edge each way make a cycle. */
  lemma {:induction false} TwoWayCycle(edges: set<(string, string)>, p: string, q: string)
    requires (p, q) in edges && (q, p) in edges
    ensures HasCycle(edges)
  {
    var walk := [p, q, p];
    assert Linked(edges, walk, 0) && Linked(edges, walk, 1);
    assert IsCycle(edges, walk);
  }
}
