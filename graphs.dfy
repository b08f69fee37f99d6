/**
 * The import graph the contracts query (the `ImportGraph` port of
 * src/importlinter/domain/ports/graph.py): module names, direct imports between them, the
 * details (line number and line text) recorded for each direct import, and the squashed modules.
 */
module Graphs {
  import opened Imports

  /** One entry of `get_import_details`. */
  datatype ImportDetail = ImportDetail(importer: string, imported: string, lineNumber: int, lineContents: string)

  function Pair(d: ImportDetail): (string, string) {
    (d.importer, d.imported)
  }

  /**
   * A graph as a value. Details are held as a set: the order in which grimp lists the details
   * of one import is not modelled.
   */
  datatype Graph = Graph(
    modules: set<string>,
    edges: set<(string, string)>,
    details: set<ImportDetail>,
    squashed: set<string>)
  {
    /** Every import joins two modules of the graph and every detail belongs to an import. */
    ghost predicate Valid() {
      && (forall e | e in edges :: e.0 in modules && e.1 in modules)
      && (forall d | d in details :: Pair(d) in edges)
      && squashed <= modules
    }
  }

  /** The names that are not modules of the graph. */
  function NotInGraph(g: Graph): string -> bool {
    name => name !in g.modules
  }

  /** `find_modules_directly_imported_by`. */
  function DirectlyImportedBy(g: Graph, m: string): (r: set<string>)
    ensures forall x :: x in r <==> (m, x) in g.edges
  {
    set e | e in g.edges && e.0 == m :: e.1
  }

  /** `find_modules_that_directly_import`. */
  function ImportersOf(g: Graph, m: string): (r: set<string>)
    ensures forall x :: x in r <==> (x, m) in g.edges
  {
    set e | e in g.edges && e.1 == m :: e.0
  }

  /** `get_import_details(importer, imported)`. */
  function DetailsFor(g: Graph, importer: string, imported: string): (r: set<ImportDetail>)
    ensures forall d :: d in r <==> d in g.details && Pair(d) == (importer, imported)
  {
    set d | d in g.details && Pair(d) == (importer, imported)
  }

  /** `find_children`: the modules of the graph whose parent is `m`. */
  function Children(g: Graph, m: string): (r: set<string>)
    ensures forall x :: x in r <==> x in g.modules && IsChildOf(Module(x), Module(m))
  {
    set x | x in g.modules && IsChildOf(Module(x), Module(m))
  }

  /** `find_descendants`: the modules of the graph below `m`. */
  function Descendants(g: Graph, m: string): (r: set<string>)
    ensures forall x :: x in r <==> x in g.modules && IsDescendantOf(Module(x), Module(m))
  {
    set x | x in g.modules && IsDescendantOf(Module(x), Module(m))
  }

  /** The children of a module are among its descendants. */
  lemma {:induction false} ChildrenAreDescendants(g: Graph, m: string)
    ensures Children(g, m) <= Descendants(g, m)
  {
    forall x | x in Children(g, m) ensures x in Descendants(g, m) {
      ChildIsDescendant(Module(x), Module(m));
    }
  }

  /** `add_import` with a line number and line contents: the modules, the import and its detail. */
  function WithImport(g: Graph, d: ImportDetail): (r: Graph)
    ensures r.modules == g.modules + {d.importer, d.imported}
    ensures r.edges == g.edges + {Pair(d)} && r.details == g.details + {d}
    ensures r.squashed == g.squashed
    ensures g.Valid() ==> r.Valid()
  {
    g.(modules := g.modules + {d.importer, d.imported},
       edges := g.edges + {Pair(d)},
       details := g.details + {d})
  }

  /** `add_import` with no line number: the two modules and the import, with no detail. */
  function WithEdge(g: Graph, importer: string, imported: string): (r: Graph)
    ensures r.modules == g.modules + {importer, imported}
    ensures r.edges == g.edges + {(importer, imported)}
    ensures r.details == g.details && r.squashed == g.squashed
    ensures g.Valid() ==> r.Valid()
  {
    g.(modules := g.modules + {importer, imported}, edges := g.edges + {(importer, imported)})
  }

  /** `remove_import`: the import and all its details go; both modules stay. */
  function WithoutImport(g: Graph, importer: string, imported: string): (r: Graph)
    ensures r.modules == g.modules && r.squashed == g.squashed
    ensures r.edges == g.edges - {(importer, imported)}
    ensures r.details == g.details - DetailsFor(g, importer, imported)
    ensures g.Valid() ==> r.Valid()
  {
    g.(edges := g.edges - {(importer, imported)},
       details := g.details - DetailsFor(g, importer, imported))
  }

  /** `remove_module` for each of `ms`: the modules go, with every import and detail that involves them. */
  function WithoutModules(g: Graph, ms: set<string>): (r: Graph)
    ensures r.modules == g.modules - ms && r.squashed == g.squashed - ms
    ensures forall e :: e in r.edges <==> e in g.edges && e.0 !in ms && e.1 !in ms
    ensures forall d :: d in r.details <==> d in g.details && d.importer !in ms && d.imported !in ms
    ensures g.Valid() ==> r.Valid()
  {
    Graph(g.modules - ms,
          (set e | e in g.edges && e.0 !in ms && e.1 !in ms),
          (set d | d in g.details && d.importer !in ms && d.imported !in ms),
          g.squashed - ms)
  }

  /** Removing two sets of modules one after the other removes their union. */
  lemma {:induction false} WithoutModulesTwice(g: Graph, a: set<string>, b: set<string>)
    ensures WithoutModules(WithoutModules(g, a), b) == WithoutModules(g, a + b)
  {
    var l := WithoutModules(WithoutModules(g, a), b);
    var r := WithoutModules(g, a + b);
    assert l.modules == r.modules;
    assert l.edges == r.edges;
    assert l.details == r.details;
    assert l.squashed == r.squashed;
  }

  /** A graph whose fields the linter changes in place (ignored imports are removed and put back). */
  class MutableGraph {
    var value: Graph

    constructor (g: Graph)
      ensures value == g
    {
      value := g;
    }

    function Details(importer: string, imported: string): (r: set<ImportDetail>)
      reads this
      ensures forall d :: d in r <==> d in value.details && Pair(d) == (importer, imported)
    {
      DetailsFor(value, importer, imported)
    }

    method RemoveImport(importer: string, imported: string)
      modifies this
      ensures value == WithoutImport(old(value), importer, imported)
    {
      value := WithoutImport(value, importer, imported);
    }

    /** `remove_module`. */
    method RemoveModule(m: string)
      modifies this
      ensures value == WithoutModules(old(value), {m})
    {
      value := WithoutModules(value, {m});
    }

    method AddImport(d: ImportDetail)
      modifies this
      ensures value == WithImport(old(value), d)
    {
      value := WithImport(value, d);
    }

    /** `add_import(importer=..., imported=...)` with no line number. */
    method AddEdge(importer: string, imported: string)
      modifies this
      ensures value == WithEdge(old(value), importer, imported)
    {
      value := WithEdge(value, importer, imported);
    }
  }
}
