/**
 * Helpers shared by the contracts (src/importlinter/contracts/_common.py): popping the shortest
 * chains out of a graph, cutting them into segments, collapsing the segments into chains with
 * extra heads and tails, and the lines that describe a chain in a broken-contract report.
 */
module Common {
  import opened Wrappers
  import opened Strings
  import opened Imports
  import opened Graphs
  import Ordering
  import Helpers

  /** One direct import of a chain, with the line numbers it appears on. */
  datatype Link = Link(importer: string, imported: string, lineNumbers: seq<int>)

  /** A chain with the alternative first and last imports folded into it. */
  datatype DetailedChain = DetailedChain(chain: seq<Link>, extraFirsts: seq<Link>, extraLasts: seq<Link>)

  /**
   * grimp's `find_shortest_chain(importer, imported)` on a graph, whose algorithm is not part of
   * this model. All the model relies on is `SoundFinder`.
   */
  type ChainFinder = (Graph, string, string) -> Option<seq<string>>

  /** A chain of imports of the graph that runs from `importer` to `imported`. */
  predicate IsChain(g: Graph, chain: seq<string>, importer: string, imported: string) {
    && |chain| >= 2
    && chain[0] == importer
    && chain[|chain| - 1] == imported
    && forall k :: 0 <= k < |chain| - 1 ==> (chain[k], chain[k + 1]) in g.edges
  }

  /** Whatever the finder returns is a chain of the graph it was asked about. */
  ghost predicate SoundFinder(finder: ChainFinder) {
    forall g, a, b :: finder(g, a, b).Some? ==> IsChain(g, finder(g, a, b).value, a, b)
  }

  /** The `k`-th import of a chain. */
  function Step(chain: seq<string>, k: int): (string, string)
    requires 0 <= k < |chain| - 1
  {
    (chain[k], chain[k + 1])
  }

  /** The imports a chain is made of. */
  function ChainEdges(chain: seq<string>): (r: set<(string, string)>)
    ensures forall k :: 0 <= k < |chain| - 1 ==> Step(chain, k) in r
    ensures forall e :: e in r ==> exists k :: 0 <= k < |chain| - 1 && e == Step(chain, k)
  {
    set k | 0 <= k < |chain| - 1 :: Step(chain, k)
  }

  /** The graph after `remove_import` for each import of the chain, first to last. */
  function WithoutChain(g: Graph, chain: seq<string>): Graph
    decreases |chain|
  {
    if |chain| < 2 then g
    else WithoutImport(WithoutChain(g, chain[..|chain| - 1]), chain[|chain| - 2], chain[|chain| - 1])
  }

  /** Removing a chain's imports one by one removes exactly those imports and their details. */
  lemma {:induction false} WithoutChainRemovesPairs(g: Graph, chain: seq<string>)
    ensures WithoutChain(g, chain) == Helpers.RemovePairs(g, ChainEdges(chain))
    decreases |chain|
  {
    if |chain| >= 2 {
      var front := chain[..|chain| - 1];
      WithoutChainRemovesPairs(g, front);
      var e := Step(chain, |chain| - 2);
      assert ChainEdges(chain) == ChainEdges(front) + {e} by {
        forall x | x in ChainEdges(chain) ensures x in ChainEdges(front) + {e} {
          var k :| 0 <= k < |chain| - 1 && x == Step(chain, k);
          if k < |chain| - 2 {
            assert x == Step(front, k);
          }
        }
        forall x | x in ChainEdges(front) ensures x in ChainEdges(chain) {
          var k :| 0 <= k < |front| - 1 && x == Step(front, k);
          assert x == Step(chain, k);
        }
      }
      var r1 := WithoutChain(g, chain);
      var r2 := Helpers.RemovePairs(g, ChainEdges(chain));
      assert r1.edges == r2.edges;
      assert r1.details == r2.details;
    } else {
      assert ChainEdges(chain) == {};
      var r2 := Helpers.RemovePairs(g, {});
      assert r2.edges == g.edges;
      assert r2.details == g.details;
    }
  }

  /** Popping a chain of the graph leaves strictly fewer imports. */
  lemma {:induction false} WithoutChainShrinks(g: Graph, chain: seq<string>, importer: string, imported: string)
    requires IsChain(g, chain, importer, imported)
    ensures WithoutChain(g, chain).edges < g.edges
    ensures |WithoutChain(g, chain).edges| < |g.edges|
  {
    WithoutChainRemovesPairs(g, chain);
    var first := Step(chain, 0);
    var rest := WithoutChain(g, chain).edges;
    assert first in g.edges && first !in rest;
    assert rest <= g.edges - {first};
    SubsetSize(rest, g.edges - {first});
  }

  lemma {:induction false} SubsetSize<T>(a: set<T>, b: set<T>)
    requires a <= b
    ensures |a| <= |b|
    decreases |b|
  {
    if b != {} {
      var x :| x in b;
      SubsetSize(a - {x}, b - {x});
    }
  }

  /** What a run of the chain popper leaves: the graph and the chains it yielded. */
  datatype Popped = Popped(graph: Graph, chains: seq<seq<string>>)

  /**
   * The whole run of the `_pop_shortest_chains` generator: each chain is popped out of the
   * graph before the next one is looked for.
   */
  function PopChains(g: Graph, importer: string, imported: string, finder: ChainFinder): Popped
    requires SoundFinder(finder)
    decreases |g.edges|
  {
    match finder(g, importer, imported)
    case None => Popped(g, [])
    case Some(chain) =>
      WithoutChainShrinks(g, chain, importer, imported);
      var next := PopChains(WithoutChain(g, chain), importer, imported, finder);
      Popped(next.graph, [chain] + next.chains)
  }

  /**
   * The generator only stops once no chain is left between the two modules, and none of the
   * imports of a chain it yielded survives in the graph it leaves behind.
   */
  lemma {:induction false} PopChainsExhausts(g: Graph, importer: string, imported: string, finder: ChainFinder)
    requires SoundFinder(finder)
    ensures finder(PopChains(g, importer, imported, finder).graph, importer, imported) == None
    ensures PopChains(g, importer, imported, finder).graph.edges <= g.edges
    ensures forall k :: 0 <= k < |PopChains(g, importer, imported, finder).chains| ==>
              ChainEdges(PopChains(g, importer, imported, finder).chains[k]) !! PopChains(g, importer, imported, finder).graph.edges
    decreases |g.edges|
  {
    match finder(g, importer, imported)
    case None =>
    case Some(chain) =>
      WithoutChainShrinks(g, chain, importer, imported);
      var next := WithoutChain(g, chain);
      PopChainsExhausts(next, importer, imported, finder);
      WithoutChainRemovesPairs(g, chain);
      var p := PopChains(g, importer, imported, finder);
      var q := PopChains(next, importer, imported, finder);
      assert p.graph == q.graph && p.chains == [chain] + q.chains;
      forall k | 0 <= k < |p.chains| ensures ChainEdges(p.chains[k]) !! p.graph.edges {
        if k > 0 {
          assert p.chains[k] == q.chains[k - 1];
        }
      }
  }

  /** The effect of one turn of the generator: the chain's imports are removed, first to last. */
  method RemoveChain(graph: MutableGraph, chain: seq<string>)
    modifies graph
    ensures graph.value == WithoutChain(old(graph.value), chain)
  {
    if |chain| < 2 {
      return;
    }
    ghost var g0 := graph.value;
    var index := 0;
    while index < |chain| - 1
      invariant 0 <= index <= |chain| - 1
      invariant graph.value == WithoutChain(g0, chain[..index + 1])
    {
      assert chain[..index + 2][..index + 1] == chain[..index + 1];
      graph.RemoveImport(chain[index], chain[index + 1]);
      index := index + 1;
    }
    assert chain[..index + 1] == chain;
  }

  /** `_pop_shortest_chains`, run until it is exhausted: the chains it yields, in order. */
  method PopShortestChains(graph: MutableGraph, importer: string, imported: string, finder: ChainFinder)
    returns (chains: seq<seq<string>>)
    requires SoundFinder(finder)
    modifies graph
    ensures Popped(graph.value, chains) == PopChains(old(graph.value), importer, imported, finder)
  {
    ghost var g0 := graph.value;
    chains := [];
    var chain := finder(graph.value, importer, imported);
    assert chains + PopChains(graph.value, importer, imported, finder).chains == PopChains(g0, importer, imported, finder).chains;
    while chain.Some?
      invariant chain == finder(graph.value, importer, imported)
      invariant PopChains(g0, importer, imported, finder).graph == PopChains(graph.value, importer, imported, finder).graph
      invariant PopChains(g0, importer, imported, finder).chains == chains + PopChains(graph.value, importer, imported, finder).chains
      decreases |graph.value.edges|
    {
      ghost var before := graph.value;
      WithoutChainShrinks(before, chain.value, importer, imported);
      RemoveChain(graph, chain.value);
      ghost var next := PopChains(graph.value, importer, imported, finder);
      assert PopChains(before, importer, imported, finder) == Popped(next.graph, [chain.value] + next.chains);
      assert chains + ([chain.value] + next.chains) == (chains + [chain.value]) + next.chains;
      chains := chains + [chain.value];
      chain := finder(graph.value, importer, imported);
    }
    assert chains + [] == chains;
  }

  /** `tuple(sorted(set(line numbers)))` of the details of one import. */
  function LineNumbers(g: Graph, importer: string, imported: string): (r: seq<int>)
    ensures forall n :: n in r <==> exists d :: d in DetailsFor(g, importer, imported) && d.lineNumber == n
    ensures forall i, j :: 0 <= i < j < |r| ==> r[i] < r[j]
  {
    Ordering.SortedInts(set d | d in DetailsFor(g, importer, imported) :: d.lineNumber)
  }

  /** The links of a chain, one per consecutive pair of its modules, with their line numbers. */
  function SegmentLinks(reference: Graph, chain: seq<string>): (r: seq<Link>)
    ensures |r| == if |chain| < 2 then 0 else |chain| - 1
    ensures forall k :: 0 <= k < |r| ==>
              r[k] == Link(chain[k], chain[k + 1], LineNumbers(reference, chain[k], chain[k + 1]))
    decreases |chain|
  {
    if |chain| < 2 then []
    else
      var n := |chain|;
      SegmentLinks(reference, chain[..n - 1]) + [Link(chain[n - 2], chain[n - 1], LineNumbers(reference, chain[n - 2], chain[n - 1]))]
  }

  /** The inner loop of `find_segments`: the links of one chain, looked up in the reference graph. */
  method BuildSegment(reference: Graph, chain: seq<string>) returns (segment: seq<Link>)
    ensures segment == SegmentLinks(reference, chain)
  {
    segment := [];
    if |chain| < 2 {
      return;
    }
    var i := 0;
    while i < |chain| - 1
      invariant 0 <= i <= |chain| - 1
      invariant segment == SegmentLinks(reference, chain[..i + 1])
    {
      assert chain[..i + 2][..i + 1] == chain[..i + 1];
      segment := segment + [Link(chain[i], chain[i + 1], LineNumbers(reference, chain[i], chain[i + 1]))];
      i := i + 1;
    }
    assert chain[..i + 1] == chain;
  }

  const DirectChainMessage := "Direct chain found - these should have been removed."

  /** What `find_segments` leaves: the graph and its result. */
  datatype SegmentRun = SegmentRun(graph: Graph, result: Result<seq<seq<Link>>>)

  /** The list in front of a successful result; a failure is passed on. */
  function Prepend<T>(prefix: seq<T>, r: Result<seq<T>>): (r': Result<seq<T>>)
    ensures r'.Ok? <==> r.Ok?
    ensures r.Err? ==> r' == r
    ensures r.Ok? ==> r'.value == prefix + r.value
  {
    if r.Ok? then Ok(prefix + r.value) else r
  }

  lemma {:induction false} PrependNothing<T>(r: Result<seq<T>>)
    ensures Prepend([], r) == r
  {
    if r.Ok? {
      assert [] + r.value == r.value;
    }
  }

  lemma {:induction false} PrependTwice<T>(a: seq<T>, b: seq<T>, r: Result<seq<T>>)
    ensures Prepend(a, Prepend(b, r)) == Prepend(a + b, r)
  {
    if r.Ok? {
      assert a + (b + r.value) == (a + b) + r.value;
    }
  }

  /**
   * `find_segments`: it consumes the generator chain by chain and raises as soon as a chain of
   * a single import comes out, leaving the later chains in the graph.
   */
  function Segments(g: Graph, reference: Graph, importer: string, imported: string, finder: ChainFinder): SegmentRun
    requires SoundFinder(finder)
    decreases |g.edges|
  {
    match finder(g, importer, imported)
    case None => SegmentRun(g, Ok([]))
    case Some(chain) =>
      WithoutChainShrinks(g, chain, importer, imported);
      var g1 := WithoutChain(g, chain);
      if |chain| == 2 then SegmentRun(g1, Err(DirectChainMessage))
      else
        var next := Segments(g1, reference, importer, imported, finder);
        SegmentRun(next.graph, Prepend([SegmentLinks(reference, chain)], next.result))
  }

  /** The segment of each chain, in order. */
  function SegmentsOfChains(reference: Graph, chains: seq<seq<string>>): (r: seq<seq<Link>>)
    ensures |r| == |chains|
    ensures forall k :: 0 <= k < |r| ==> r[k] == SegmentLinks(reference, chains[k])
  {
    if chains == [] then [] else [SegmentLinks(reference, chains[0])] + SegmentsOfChains(reference, chains[1..])
  }

  /** Some chain of the list is a single direct import. */
  ghost predicate HasDirectChain(chains: seq<seq<string>>) {
    exists k :: 0 <= k < |chains| && |chains[k]| == 2
  }

  lemma {:induction false} HasDirectChainCons(chain: seq<string>, rest: seq<seq<string>>)
    ensures HasDirectChain([chain] + rest) <==> |chain| == 2 || HasDirectChain(rest)
  {
    var all := [chain] + rest;
    if HasDirectChain(all) {
      var k :| 0 <= k < |all| && |all[k]| == 2;
      if k > 0 {
        assert all[k] == rest[k - 1];
      }
    }
    if HasDirectChain(rest) {
      var k :| 0 <= k < |rest| && |rest[k]| == 2;
      assert all[k + 1] == rest[k];
    }
    if |chain| == 2 {
      assert |all[0]| == 2;
    }
  }

  /**
   * `find_segments` fails exactly when some chain the generator would yield is a direct
   * import; otherwise it has run the generator to the end and holds one segment per chain.
   */
  lemma {:induction false} SegmentsFollowPoppedChains(g: Graph, reference: Graph, importer: string, imported: string, finder: ChainFinder)
    requires SoundFinder(finder)
    ensures Segments(g, reference, importer, imported, finder).result.Err?
            <==> HasDirectChain(PopChains(g, importer, imported, finder).chains)
    ensures Segments(g, reference, importer, imported, finder).result.Err? ==>
              Segments(g, reference, importer, imported, finder).result.error == DirectChainMessage
    ensures Segments(g, reference, importer, imported, finder).result.Ok? ==>
              && Segments(g, reference, importer, imported, finder).graph == PopChains(g, importer, imported, finder).graph
              && Segments(g, reference, importer, imported, finder).result.value
                 == SegmentsOfChains(reference, PopChains(g, importer, imported, finder).chains)
    decreases |g.edges|
  {
    match finder(g, importer, imported)
    case None =>
    case Some(chain) =>
      WithoutChainShrinks(g, chain, importer, imported);
      var g1 := WithoutChain(g, chain);
      var p := PopChains(g, importer, imported, finder);
      var q := PopChains(g1, importer, imported, finder);
      assert p.graph == q.graph && p.chains == [chain] + q.chains;
      HasDirectChainCons(chain, q.chains);
      if |chain| != 2 {
        SegmentsFollowPoppedChains(g1, reference, importer, imported, finder);
        var run := Segments(g, reference, importer, imported, finder);
        var next := Segments(g1, reference, importer, imported, finder);
        assert run == SegmentRun(next.graph, Prepend([SegmentLinks(reference, chain)], next.result));
        assert SegmentsOfChains(reference, p.chains) == [SegmentLinks(reference, chain)] + SegmentsOfChains(reference, q.chains);
      }
  }

  /** `find_segments(graph, reference_graph, importer, imported)`, mutating `graph`. */
  method FindSegments(graph: MutableGraph, reference: Graph, importer: Module, imported: Module, finder: ChainFinder)
    returns (r: Result<seq<seq<Link>>>)
    requires SoundFinder(finder)
    modifies graph
    ensures SegmentRun(graph.value, r) == Segments(old(graph.value), reference, importer.name, imported.name, finder)
  {
    ghost var g0 := graph.value;
    var segments: seq<seq<Link>> := [];
    var chain := finder(graph.value, importer.name, imported.name);
    PrependNothing(Segments(g0, reference, importer.name, imported.name, finder).result);
    while chain.Some?
      invariant chain == finder(graph.value, importer.name, imported.name)
      invariant Segments(g0, reference, importer.name, imported.name, finder).graph
                == Segments(graph.value, reference, importer.name, imported.name, finder).graph
      invariant Segments(g0, reference, importer.name, imported.name, finder).result
                == Prepend(segments, Segments(graph.value, reference, importer.name, imported.name, finder).result)
      decreases |graph.value.edges|
    {
      ghost var before := graph.value;
      WithoutChainShrinks(before, chain.value, importer.name, imported.name);
      RemoveChain(graph, chain.value);
      if |chain.value| == 2 {
        return Err(DirectChainMessage);
      }
      var segment := BuildSegment(reference, chain.value);
      ghost var next := Segments(graph.value, reference, importer.name, imported.name, finder);
      PrependTwice(segments, [segment], next.result);
      segments := segments + [segment];
      chain := finder(graph.value, importer.name, imported.name);
    }
    r := Ok(segments);
    assert segments + [] == segments;
  }

  /** The importer itself or one of its descendants. */
  predicate InFamily(name: string, root: Module) {
    Module(name) == root || IsDescendantOf(Module(name), root)
  }

  /** The list comprehension keeping the family members of `root`, in their order. */
  function FamilyMembers(names: seq<string>, root: Module): (r: seq<string>)
    ensures forall x :: x in r <==> x in names && InFamily(x, root)
    ensures |r| <= |names|
  {
    if names == [] then []
    else (if InFamily(names[0], root) then [names[0]] else []) + FamilyMembers(names[1..], root)
  }

  /** Keeping some elements of a sorted list keeps it sorted. */
  lemma {:induction false} FamilyMembersSorted(names: seq<string>, root: Module)
    requires forall i, j :: 0 <= i < j < |names| ==> Less(names[i], names[j])
    ensures forall i, j :: 0 <= i < j < |FamilyMembers(names, root)| ==> Less(FamilyMembers(names, root)[i], FamilyMembers(names, root)[j])
  {
    if names != [] {
      FamilyMembersSorted(names[1..], root);
      var tail := FamilyMembers(names[1..], root);
      assert forall i, j :: 0 <= i < j < |tail| ==> Less(tail[i], tail[j]);
      forall j | 0 <= j < |tail| ensures Less(names[0], tail[j]) {
        assert tail[j] in names[1..];
        var m :| 0 <= m < |names| - 1 && names[1..][m] == tail[j];
        assert names[m + 1] == tail[j];
      }
      var r := FamilyMembers(names, root);
      if InFamily(names[0], root) {
        assert r == [names[0]] + tail;
        forall i, j | 0 <= i < j < |r| ensures Less(r[i], r[j]) {
          if i == 0 {
            assert r[j] == tail[j - 1];
          } else {
            assert r[i] == tail[i - 1] && r[j] == tail[j - 1];
          }
        }
      } else {
        assert r == tail;
      }
    }
  }

  /** The links of one importer to each of the given modules. */
  function LinksFrom(g: Graph, importer: string, targets: seq<string>): (r: seq<Link>)
    ensures |r| == |targets|
    ensures forall k :: 0 <= k < |r| ==> r[k] == Link(importer, targets[k], LineNumbers(g, importer, targets[k]))
  {
    if targets == [] then []
    else [Link(importer, targets[0], LineNumbers(g, importer, targets[0]))] + LinksFrom(g, importer, targets[1..])
  }

  /** The links of each of the given modules to one imported module. */
  function LinksTo(g: Graph, sources: seq<string>, imported: string): (r: seq<Link>)
    ensures |r| == |sources|
    ensures forall k :: 0 <= k < |r| ==> r[k] == Link(sources[k], imported, LineNumbers(g, sources[k], imported))
  {
    if sources == [] then []
    else [Link(sources[0], imported, LineNumbers(g, sources[0], imported))] + LinksTo(g, sources[1..], imported)
  }

  /** `head_imports`: the imports of the segment's second module from the importer's family, sorted. */
  function HeadImports(g: Graph, segmentImported: string, importer: Module): seq<Link> {
    LinksTo(g, FamilyMembers(Sorted(ImportersOf(g, segmentImported)), importer), segmentImported)
  }

  /** `tail_imports`: the imports from the segment's last importer into the imported family, sorted. */
  function TailImports(g: Graph, segmentImporter: string, imported: Module): seq<Link> {
    LinksFrom(g, segmentImporter, FamilyMembers(Sorted(DirectlyImportedBy(g, segmentImporter)), imported))
  }

  /**
   * The head imports are exactly the imports of the segment's second module by the importer's
   * family: each one is such an import, every such import is among them, and they are sorted by
   * importer.
   */
  lemma {:induction false} HeadImportsSpec(g: Graph, segmentImported: string, importer: Module, heads: seq<Link>)
    requires heads == HeadImports(g, segmentImported, importer)
    ensures forall k :: 0 <= k < |heads| ==>
              && heads[k].imported == segmentImported
              && (heads[k].importer, segmentImported) in g.edges
              && InFamily(heads[k].importer, importer)
    ensures forall m :: (m, segmentImported) in g.edges && InFamily(m, importer) ==>
              exists k :: 0 <= k < |heads| && heads[k].importer == m
    ensures forall i, j :: 0 <= i < j < |heads| ==> Less(heads[i].importer, heads[j].importer)
  {
    var hs := FamilyMembers(Sorted(ImportersOf(g, segmentImported)), importer);
    FamilyMembersSorted(Sorted(ImportersOf(g, segmentImported)), importer);
    LinksToSources(g, hs, segmentImported, heads);
    forall m | (m, segmentImported) in g.edges && InFamily(m, importer) ensures m in hs {
      assert m in Sorted(ImportersOf(g, segmentImported));
    }
  }

  /** The links to one module from each of the given modules, in their order. */
  lemma {:induction false} LinksToSources(g: Graph, sources: seq<string>, imported: string, links: seq<Link>)
    requires links == LinksTo(g, sources, imported)
    ensures |links| == |sources|
    ensures forall k :: 0 <= k < |links| ==> links[k].imported == imported && links[k].importer == sources[k]
    ensures forall m :: m in sources ==> exists k :: 0 <= k < |links| && links[k].importer == m
  {
    forall m | m in sources ensures exists k :: 0 <= k < |links| && links[k].importer == m {
      var k :| 0 <= k < |sources| && sources[k] == m;
      assert links[k].importer == m;
    }
  }

  /**
   * The tail imports are exactly the imports by the segment's last importer of the imported
   * family: each one is such an import, every such import is among them, and they are sorted by
   * imported module.
   */
  lemma {:induction false} TailImportsSpec(g: Graph, segmentImporter: string, imported: Module, tails: seq<Link>)
    requires tails == TailImports(g, segmentImporter, imported)
    ensures forall k :: 0 <= k < |tails| ==>
              && tails[k].importer == segmentImporter
              && (segmentImporter, tails[k].imported) in g.edges
              && InFamily(tails[k].imported, imported)
    ensures forall m :: (segmentImporter, m) in g.edges && InFamily(m, imported) ==>
              exists k :: 0 <= k < |tails| && tails[k].imported == m
    ensures forall i, j :: 0 <= i < j < |tails| ==> Less(tails[i].imported, tails[j].imported)
  {
    var ts := FamilyMembers(Sorted(DirectlyImportedBy(g, segmentImporter)), imported);
    FamilyMembersSorted(Sorted(DirectlyImportedBy(g, segmentImporter)), imported);
    LinksFromTargets(g, segmentImporter, ts, tails);
    forall m | (segmentImporter, m) in g.edges && InFamily(m, imported) ensures m in ts {
      assert m in Sorted(DirectlyImportedBy(g, segmentImporter));
    }
  }

  /** The links from one module to each of the given modules, in their order. */
  lemma {:induction false} LinksFromTargets(g: Graph, importer: string, targets: seq<string>, links: seq<Link>)
    requires links == LinksFrom(g, importer, targets)
    ensures |links| == |targets|
    ensures forall k :: 0 <= k < |links| ==> links[k].importer == importer && links[k].imported == targets[k]
    ensures forall m :: m in targets ==> exists k :: 0 <= k < |links| && links[k].imported == m
  {
    forall m | m in targets ensures exists k :: 0 <= k < |links| && links[k].imported == m {
      var k :| 0 <= k < |targets| && targets[k] == m;
      assert links[k].imported == m;
    }
  }

  /** Python's `segment[1:-1]`. */
  function Middle<T>(s: seq<T>): (r: seq<T>)
    ensures |r| == if |s| < 2 then 0 else |s| - 2
    ensures forall k :: 0 <= k < |r| ==> r[k] == s[k + 1]
  {
    if |s| < 2 then [] else s[1..|s| - 1]
  }

  const IndexErrorMessage := "list index out of range"

  /** One turn of the loop of `segments_to_collapsed_chains`; an empty list indexed raises `IndexError`. */
  function CollapseSegment(g: Graph, segment: seq<Link>, importer: Module, imported: Module): Result<DetailedChain> {
    if segment == [] then Err(IndexErrorMessage)
    else
      var heads := HeadImports(g, segment[0].imported, importer);
      if heads == [] then Err(IndexErrorMessage)
      else
        var tails := TailImports(g, segment[|segment| - 1].importer, imported);
        if tails == [] then Err(IndexErrorMessage)
        else Ok(DetailedChain([heads[0]] + Middle(segment) + [tails[0]], heads[1..], tails[1..]))
  }

  /**
   * A segment can be collapsed exactly when it has a link, some member of the importer's
   * family imports its second module, and its last importer imports some member of the
   * imported family; otherwise `IndexError` is raised.
   */
  lemma {:induction false} CollapseSegmentSucceeds(g: Graph, segment: seq<Link>, importer: Module, imported: Module)
    ensures CollapseSegment(g, segment, importer, imported).Ok?
            <==> segment != []
                 && (exists m :: (m, segment[0].imported) in g.edges && InFamily(m, importer))
                 && (exists m :: (segment[|segment| - 1].importer, m) in g.edges && InFamily(m, imported))
    ensures CollapseSegment(g, segment, importer, imported).Err? ==>
              CollapseSegment(g, segment, importer, imported).error == IndexErrorMessage
  {
    if segment != [] {
      var heads := HeadImports(g, segment[0].imported, importer);
      var tails := TailImports(g, segment[|segment| - 1].importer, imported);
      HeadImportsSpec(g, segment[0].imported, importer, HeadImports(g, segment[0].imported, importer));
      TailImportsSpec(g, segment[|segment| - 1].importer, imported, TailImports(g, segment[|segment| - 1].importer, imported));
      if heads != [] {
        assert InFamily(heads[0].importer, importer) && (heads[0].importer, segment[0].imported) in g.edges;
      }
      if tails != [] {
        assert InFamily(tails[0].imported, imported) && (segment[|segment| - 1].importer, tails[0].imported) in g.edges;
      }
    }
  }

  /** A collapsed chain starts with the first head import and ends with the first tail import; the rest are the extras. */
  lemma {:induction false} CollapsedChainEnds(g: Graph, segment: seq<Link>, importer: Module, imported: Module, c: DetailedChain)
    requires CollapseSegment(g, segment, importer, imported) == Ok(c)
    ensures segment != [] && c.chain != []
    ensures var heads := HeadImports(g, segment[0].imported, importer);
            heads != [] && c.chain[0] == heads[0] && c.extraFirsts == heads[1..]
    ensures var tails := TailImports(g, segment[|segment| - 1].importer, imported);
            tails != [] && c.chain[|c.chain| - 1] == tails[0] && c.extraLasts == tails[1..]
  {
  }

  /** A collapsed chain keeps the inner links of its segment, between a new first and last link. */
  lemma {:induction false} CollapsedChainKeepsMiddle(g: Graph, segment: seq<Link>, importer: Module, imported: Module, c: DetailedChain)
    requires CollapseSegment(g, segment, importer, imported) == Ok(c)
    ensures segment != []
    ensures |c.chain| == 2 + |Middle(segment)|
    ensures c.chain[1..|c.chain| - 1] == Middle(segment)
  {
    var heads := HeadImports(g, segment[0].imported, importer);
    var tails := TailImports(g, segment[|segment| - 1].importer, imported);
    assert c.chain == [heads[0]] + Middle(segment) + [tails[0]];
  }

  /** The first link of a collapsed chain imports the segment's second module from the importer's family. */
  lemma {:induction false} CollapsedChainFirst(g: Graph, segment: seq<Link>, importer: Module, imported: Module, c: DetailedChain)
    requires CollapseSegment(g, segment, importer, imported) == Ok(c)
    ensures segment != [] && c.chain != []
    ensures c.chain[0].imported == segment[0].imported && InFamily(c.chain[0].importer, importer)
  {
    CollapsedChainEnds(g, segment, importer, imported, c);
    HeadImportsSpec(g, segment[0].imported, importer, HeadImports(g, segment[0].imported, importer));
  }

  /** The last link of a collapsed chain is the segment's last importer importing a member of the imported family. */
  lemma {:induction false} CollapsedChainLast(g: Graph, segment: seq<Link>, importer: Module, imported: Module, c: DetailedChain)
    requires CollapseSegment(g, segment, importer, imported) == Ok(c)
    ensures segment != [] && c.chain != []
    ensures c.chain[|c.chain| - 1].importer == segment[|segment| - 1].importer
    ensures InFamily(c.chain[|c.chain| - 1].imported, imported)
  {
    CollapsedChainEnds(g, segment, importer, imported, c);
    TailImportsSpec(g, segment[|segment| - 1].importer, imported, TailImports(g, segment[|segment| - 1].importer, imported));
  }

  /**
   * The first link of a collapsed chain comes from the smallest importer of the family, and
   * `extra_firsts` holds the family's other importers of the same module.
   */
  lemma {:induction false} CollapsedChainExtraFirsts(g: Graph, segment: seq<Link>, importer: Module, imported: Module, c: DetailedChain)
    requires CollapseSegment(g, segment, importer, imported) == Ok(c)
    ensures segment != [] && c.chain != []
    ensures forall k :: 0 <= k < |c.extraFirsts| ==>
              && c.extraFirsts[k].imported == segment[0].imported
              && InFamily(c.extraFirsts[k].importer, importer)
              && Less(c.chain[0].importer, c.extraFirsts[k].importer)
  {
    CollapsedChainEnds(g, segment, importer, imported, c);
    HeadsRest(g, segment[0].imported, importer, HeadImports(g, segment[0].imported, importer), c.chain[0], c.extraFirsts);
  }

  /** `extra_firsts` is sorted by importer. */
  lemma {:induction false} CollapsedChainExtraFirstsSorted(g: Graph, segment: seq<Link>, importer: Module, imported: Module, c: DetailedChain)
    requires CollapseSegment(g, segment, importer, imported) == Ok(c)
    ensures forall i, j :: 0 <= i < j < |c.extraFirsts| ==> Less(c.extraFirsts[i].importer, c.extraFirsts[j].importer)
  {
    CollapsedChainEnds(g, segment, importer, imported, c);
    HeadsRest(g, segment[0].imported, importer, HeadImports(g, segment[0].imported, importer), c.chain[0], c.extraFirsts);
  }

  /**
   * The last link of a collapsed chain goes to the smallest member of the imported family, and
   * `extra_lasts` holds the other members the same module imports.
   */
  lemma {:induction false} CollapsedChainExtraLasts(g: Graph, segment: seq<Link>, importer: Module, imported: Module, c: DetailedChain)
    requires CollapseSegment(g, segment, importer, imported) == Ok(c)
    ensures segment != [] && c.chain != []
    ensures forall k :: 0 <= k < |c.extraLasts| ==>
              && c.extraLasts[k].importer == segment[|segment| - 1].importer
              && InFamily(c.extraLasts[k].imported, imported)
              && Less(c.chain[|c.chain| - 1].imported, c.extraLasts[k].imported)
  {
    CollapsedChainEnds(g, segment, importer, imported, c);
    TailsRest(g, segment[|segment| - 1].importer, imported, TailImports(g, segment[|segment| - 1].importer, imported),
              c.chain[|c.chain| - 1], c.extraLasts);
  }

  /** `extra_lasts` is sorted by imported module. */
  lemma {:induction false} CollapsedChainExtraLastsSorted(g: Graph, segment: seq<Link>, importer: Module, imported: Module, c: DetailedChain)
    requires CollapseSegment(g, segment, importer, imported) == Ok(c)
    ensures forall i, j :: 0 <= i < j < |c.extraLasts| ==> Less(c.extraLasts[i].imported, c.extraLasts[j].imported)
  {
    CollapsedChainEnds(g, segment, importer, imported, c);
    TailsRest(g, segment[|segment| - 1].importer, imported, TailImports(g, segment[|segment| - 1].importer, imported),
              c.chain[|c.chain| - 1], c.extraLasts);
  }

  /** The head imports after the first come from the importer's family, after the first in sorted order. */
  lemma {:induction false} HeadsRest(g: Graph, segmentImported: string, importer: Module, heads: seq<Link>, first: Link,
                                     rest: seq<Link>)
    requires heads == HeadImports(g, segmentImported, importer)
    requires heads != [] && first == heads[0] && rest == heads[1..]
    ensures forall k :: 0 <= k < |rest| ==>
              && rest[k].imported == segmentImported
              && InFamily(rest[k].importer, importer)
              && Less(first.importer, rest[k].importer)
    ensures forall i, j :: 0 <= i < j < |rest| ==> Less(rest[i].importer, rest[j].importer)
  {
    HeadImportsSpec(g, segmentImported, importer, heads);
    forall i, j | 0 <= i < j < |rest| ensures Less(rest[i].importer, rest[j].importer) {
      assert rest[i] == heads[i + 1] && rest[j] == heads[j + 1];
    }
    forall k | 0 <= k < |rest| ensures Less(first.importer, rest[k].importer) {
      assert rest[k] == heads[k + 1];
    }
  }

  /** The tail imports after the first go to the imported family, after the first in sorted order. */
  lemma {:induction false} TailsRest(g: Graph, segmentImporter: string, imported: Module, tails: seq<Link>, first: Link,
                                     rest: seq<Link>)
    requires tails == TailImports(g, segmentImporter, imported)
    requires tails != [] && first == tails[0] && rest == tails[1..]
    ensures forall k :: 0 <= k < |rest| ==>
              && rest[k].importer == segmentImporter
              && InFamily(rest[k].imported, imported)
              && Less(first.imported, rest[k].imported)
    ensures forall i, j :: 0 <= i < j < |rest| ==> Less(rest[i].imported, rest[j].imported)
  {
    TailImportsSpec(g, segmentImporter, imported, tails);
    forall i, j | 0 <= i < j < |rest| ensures Less(rest[i].imported, rest[j].imported) {
      assert rest[i] == tails[i + 1] && rest[j] == tails[j + 1];
    }
    forall k | 0 <= k < |rest| ensures Less(first.imported, rest[k].imported) {
      assert rest[k] == tails[k + 1];
    }
  }

  /** The collapsed chains of the segments, in order, or the first segment's error. */
  function CollapseAll(g: Graph, segments: seq<seq<Link>>, importer: Module, imported: Module): Result<seq<DetailedChain>> {
    if segments == [] then Ok([])
    else
      match CollapseSegment(g, segments[0], importer, imported)
      case Err(e) => Err(e)
      case Ok(c) => Prepend([c], CollapseAll(g, segments[1..], importer, imported))
  }

  /** Collapsing the segments fails exactly when some segment cannot be collapsed. */
  lemma {:induction false} CollapseAllFails(g: Graph, segments: seq<seq<Link>>, importer: Module, imported: Module)
    ensures CollapseAll(g, segments, importer, imported).Err?
            <==> exists k :: 0 <= k < |segments| && CollapseSegment(g, segments[k], importer, imported).Err?
  {
    if segments != [] {
      CollapseAllFails(g, segments[1..], importer, imported);
      if CollapseSegment(g, segments[0], importer, imported).Ok? {
        if exists k :: 0 <= k < |segments| && CollapseSegment(g, segments[k], importer, imported).Err? {
          var k :| 0 <= k < |segments| && CollapseSegment(g, segments[k], importer, imported).Err?;
          assert segments[k] == segments[1..][k - 1];
        }
        if CollapseAll(g, segments[1..], importer, imported).Err? {
          var k :| 0 <= k < |segments[1..]| && CollapseSegment(g, segments[1..][k], importer, imported).Err?;
          assert segments[1..][k] == segments[k + 1];
        }
      }
    }
  }

  /** When collapsing succeeds, the k-th collapsed chain is the k-th segment's. */
  lemma {:induction false} CollapseAllSegmentwise(g: Graph, segments: seq<seq<Link>>, importer: Module, imported: Module)
    requires CollapseAll(g, segments, importer, imported).Ok?
    ensures |CollapseAll(g, segments, importer, imported).value| == |segments|
    ensures forall k :: 0 <= k < |segments| ==>
              CollapseSegment(g, segments[k], importer, imported) == Ok(CollapseAll(g, segments, importer, imported).value[k])
  {
    if segments != [] {
      var first := CollapseSegment(g, segments[0], importer, imported);
      var rest := CollapseAll(g, segments[1..], importer, imported);
      assert first.Ok? && rest.Ok?;
      CollapseAllSegmentwise(g, segments[1..], importer, imported);
      var r := CollapseAll(g, segments, importer, imported);
      assert r == Ok([first.value] + rest.value);
      ConsPointwise(segments, (s: seq<Link>) => CollapseSegment(g, s, importer, imported), first.value, rest.value);
    }
  }

  /** A result list built as head and tail matches its inputs pointwise when head and tail do. */
  lemma {:induction false} ConsPointwise<S, T>(xs: seq<S>, f: S -> Result<T>, v: T, vs: seq<T>)
    requires xs != [] && |vs| == |xs| - 1 && f(xs[0]) == Ok(v)
    requires forall k :: 0 <= k < |vs| ==> f(xs[1..][k]) == Ok(vs[k])
    ensures forall k :: 0 <= k < |xs| ==> f(xs[k]) == Ok(([v] + vs)[k])
  {
    forall k | 0 <= k < |xs| ensures f(xs[k]) == Ok(([v] + vs)[k]) {
      if k > 0 {
        assert xs[k] == xs[1..][k - 1];
      }
    }
  }

  /** `segments_to_collapsed_chains(graph, segments, importer, imported)`. */
  method SegmentsToCollapsedChains(g: Graph, segments: seq<seq<Link>>, importer: Module, imported: Module)
    returns (r: Result<seq<DetailedChain>>)
    ensures r == CollapseAll(g, segments, importer, imported)
  {
    var collapsedChains: seq<DetailedChain> := [];
    var i := 0;
    assert segments[0..] == segments;
    PrependNothing(CollapseAll(g, segments, importer, imported));
    while i < |segments|
      invariant 0 <= i <= |segments|
      invariant CollapseAll(g, segments, importer, imported) == Prepend(collapsedChains, CollapseAll(g, segments[i..], importer, imported))
    {
      assert segments[i..][1..] == segments[i + 1..];
      var c := CollapseSegment(g, segments[i], importer, imported);
      if c.Err? {
        return Err(c.error);
      }
      PrependTwice(collapsedChains, [c.value], CollapseAll(g, segments[i + 1..], importer, imported));
      collapsedChains := collapsedChains + [c.value];
      i := i + 1;
    }
    assert collapsedChains + [] == collapsedChains;
    r := Ok(collapsedChains);
  }

  /** The items of `", ".join(f"l.{n}" for n in line_numbers)`. */
  function LineNumberItem(n: int): string {
    "l." + IntToString(n)
  }

  function LineNumberItems(ns: seq<int>): (r: seq<string>)
    ensures |r| == |ns|
    ensures forall k :: 0 <= k < |ns| ==> r[k] == LineNumberItem(ns[k])
  {
    seq(|ns|, k requires 0 <= k < |ns| => LineNumberItem(ns[k]))
  }

  function LineNumbersText(ns: seq<int>): string {
    Join(LineNumberItems(ns), ", ")
  }

  /** A module description followed by its line numbers in parentheses. */
  function WithLineNumbers(s: string, ns: seq<int>): string {
    s + " (" + LineNumbersText(ns) + ")"
  }

  /** `f"{importer} -> {imported} ({line_numbers})"`. */
  function ArrowString(l: Link): string {
    WithLineNumbers(l.importer + " -> " + l.imported, l.lineNumbers)
  }

  /** The last alternative first import: `f"& {importer} -> {imported} ({line_numbers})"`. */
  function LastSourceString(l: Link): string {
    "& " + ArrowString(l)
  }

  /** An entry for an alternative first import: the importer alone, with "& " before all but the first. */
  function SourceString(position: nat, l: Link): string {
    WithLineNumbers((if position > 0 then "& " else "") + l.importer, l.lineNumbers)
  }

  function SourceStrings(sources: seq<Link>): (r: seq<string>)
    ensures |r| == |sources|
    ensures forall k :: 0 <= k < |sources| ==> r[k] == SourceString(k, sources[k])
  {
    seq(|sources|, k requires 0 <= k < |sources| => SourceString(k, sources[k]))
  }

  /** `n * " "`. */
  function Spaces(n: nat): (r: string)
    ensures |r| == n
    ensures forall k :: 0 <= k < n ==> r[k] == ' '
  {
    if n == 0 then "" else Spaces(n - 1) + " "
  }

  /** An entry for an alternative last import: indented, "& " and the imported module. */
  function LastString(indent: nat, l: Link): string {
    WithLineNumbers(Spaces(indent) + "& " + l.imported, l.lineNumbers)
  }

  function LastStrings(indent: nat, destinations: seq<Link>): (r: seq<string>)
    ensures |r| == |destinations|
    ensures forall k :: 0 <= k < |destinations| ==> r[k] == LastString(indent, destinations[k])
  {
    seq(|destinations|, k requires 0 <= k < |destinations| => LastString(indent, destinations[k]))
  }

  /** The number of lines the first import and its alternatives take. */
  function HeadCount(extraFirsts: seq<Link>): nat {
    if extraFirsts == [] then 1 else |extraFirsts| + 1
  }

  /** `import_strings` after the `extra_firsts` branch. */
  function HeadStrings(directImport: Link, extraFirsts: seq<Link>): (r: seq<string>)
    ensures |r| == HeadCount(extraFirsts)
  {
    if extraFirsts == [] then [ArrowString(directImport)]
    else
      var n := |extraFirsts|;
      SourceStrings([directImport] + extraFirsts[..n - 1]) + [LastSourceString(extraFirsts[n - 1])]
  }

  /** `import_strings` in full: the head entries, then one entry per alternative last import. */
  function ImportStrings(directImport: Link, extraFirsts: seq<Link>, extraLasts: seq<Link>): seq<string> {
    HeadStrings(directImport, extraFirsts) + LastStrings(|directImport.importer| + 4, extraLasts)
  }

  /** The bullet in front of each entry: "- " for the first line of a chain, "  " otherwise. */
  function Bullet(firstLine: bool, position: nat): string {
    if firstLine && position == 0 then "- " else "  "
  }

  function BulletLine(firstLine: bool, position: nat, s: string): string {
    Bullet(firstLine, position) + s
  }

  function Bulleted(strings: seq<string>, firstLine: bool): (r: seq<string>)
    ensures |r| == |strings|
    ensures forall k :: 0 <= k < |strings| ==> r[k] == BulletLine(firstLine, k, strings[k])
  {
    seq(|strings|, k requires 0 <= k < |strings| => BulletLine(firstLine, k, strings[k]))
  }

  /** A bulleted line is its two-character bullet followed by the entry. */
  lemma {:induction false} BulletLineParts(firstLine: bool, position: nat, s: string)
    ensures |BulletLine(firstLine, position, s)| == 2 + |s|
    ensures BulletLine(firstLine, position, s)[..2] == Bullet(firstLine, position)
    ensures BulletLine(firstLine, position, s)[2..] == s
  {
  }

  /** The lines `_render_direct_import` prints. */
  function DirectImportLines(directImport: Link, firstLine: bool, extraFirsts: seq<Link>, extraLasts: seq<Link>): seq<string> {
    Bulleted(ImportStrings(directImport, extraFirsts, extraLasts), firstLine)
  }

  /**
   * The entries of one rendered import: the import itself, or its importer followed by one
   * entry per alternative first import, the last of them with its arrow.
   */
  lemma {:induction false} HeadStringsLayout(directImport: Link, extraFirsts: seq<Link>)
    ensures extraFirsts == [] ==> HeadStrings(directImport, extraFirsts) == [ArrowString(directImport)]
    ensures extraFirsts != [] ==>
              && HeadStrings(directImport, extraFirsts)[0] == SourceString(0, directImport)
              && (forall k :: 1 <= k < |extraFirsts| ==> HeadStrings(directImport, extraFirsts)[k] == SourceString(k, extraFirsts[k - 1]))
              && HeadStrings(directImport, extraFirsts)[|extraFirsts|] == LastSourceString(extraFirsts[|extraFirsts| - 1])
  {
    if extraFirsts != [] {
      var n := |extraFirsts|;
      var sources := [directImport] + extraFirsts[..n - 1];
      var heads := HeadStrings(directImport, extraFirsts);
      assert heads == SourceStrings(sources) + [LastSourceString(extraFirsts[n - 1])];
      forall k | 1 <= k < n ensures heads[k] == SourceString(k, extraFirsts[k - 1]) {
        assert sources[k] == extraFirsts[k - 1];
      }
    }
  }

  /**
   * After the head entries come the alternative last imports, one entry each, indented by the
   * importer's length plus four.
   */
  lemma {:induction false} ImportStringsLayout(directImport: Link, extraFirsts: seq<Link>, extraLasts: seq<Link>)
    ensures |ImportStrings(directImport, extraFirsts, extraLasts)| == HeadCount(extraFirsts) + |extraLasts|
    ensures ImportStrings(directImport, extraFirsts, extraLasts)[..HeadCount(extraFirsts)] == HeadStrings(directImport, extraFirsts)
    ensures forall j :: 0 <= j < |extraLasts| ==>
              ImportStrings(directImport, extraFirsts, extraLasts)[HeadCount(extraFirsts) + j]
              == LastString(|directImport.importer| + 4, extraLasts[j])
  {
    var heads := HeadStrings(directImport, extraFirsts);
    var lasts := LastStrings(|directImport.importer| + 4, extraLasts);
    assert ImportStrings(directImport, extraFirsts, extraLasts) == heads + lasts;
  }

  /** Only the first line of a chain, rendered with `first_line`, is bulleted "- "; every other line gets "  ". */
  lemma {:induction false} DirectImportBullets(directImport: Link, firstLine: bool, extraFirsts: seq<Link>, extraLasts: seq<Link>)
    ensures |DirectImportLines(directImport, firstLine, extraFirsts, extraLasts)| >= 1
    ensures forall k :: 0 <= k < |DirectImportLines(directImport, firstLine, extraFirsts, extraLasts)| ==>
              && |DirectImportLines(directImport, firstLine, extraFirsts, extraLasts)[k]| >= 2
              && DirectImportLines(directImport, firstLine, extraFirsts, extraLasts)[k][..2] == Bullet(firstLine, k)
  {
    var strings := ImportStrings(directImport, extraFirsts, extraLasts);
    ImportStringsLayout(directImport, extraFirsts, extraLasts);
    forall k | 0 <= k < |strings| ensures |Bulleted(strings, firstLine)[k]| >= 2 && Bulleted(strings, firstLine)[k][..2] == Bullet(firstLine, k) {
      BulletLineParts(firstLine, k, strings[k]);
    }
  }

  /** The `extra_firsts` branch of `_render_direct_import`: the head entries of `import_strings`. */
  method BuildHeadStrings(directImport: Link, extraFirsts: seq<Link>) returns (importStrings: seq<string>)
    ensures importStrings == HeadStrings(directImport, extraFirsts)
  {
    importStrings := [];
    if extraFirsts != [] {
      var sources := [directImport] + extraFirsts[..|extraFirsts| - 1];
      var position := 0;
      while position < |sources|
        invariant 0 <= position <= |sources|
        invariant |importStrings| == position
        invariant forall k :: 0 <= k < position ==> importStrings[k] == SourceString(k, sources[k])
      {
        importStrings := importStrings + [SourceString(position, sources[position])];
        position := position + 1;
      }
      assert importStrings == SourceStrings(sources);
      importStrings := importStrings + [LastSourceString(extraFirsts[|extraFirsts| - 1])];
    } else {
      importStrings := importStrings + [ArrowString(directImport)];
    }
  }

  /** The `extra_lasts` branch of `_render_direct_import`: one indented entry per destination. */
  method AppendLastStrings(importStrings: seq<string>, indent: nat, extraLasts: seq<Link>) returns (r: seq<string>)
    ensures r == importStrings + LastStrings(indent, extraLasts)
  {
    r := importStrings;
    var j := 0;
    while j < |extraLasts|
      invariant 0 <= j <= |extraLasts|
      invariant |r| == |importStrings| + j
      invariant r[..|importStrings|] == importStrings
      invariant forall k :: 0 <= k < j ==> r[|importStrings| + k] == LastString(indent, extraLasts[k])
    {
      r := r + [LastString(indent, extraLasts[j])];
      j := j + 1;
    }
    assert r == importStrings + LastStrings(indent, extraLasts);
  }

  /** The printing loop of `_render_direct_import`: each entry with its bullet. */
  method BulletAll(importStrings: seq<string>, firstLine: bool) returns (lines: seq<string>)
    ensures lines == Bulleted(importStrings, firstLine)
  {
    lines := [];
    var position := 0;
    while position < |importStrings|
      invariant 0 <= position <= |importStrings|
      invariant |lines| == position
      invariant forall k :: 0 <= k < position ==> lines[k] == BulletLine(firstLine, k, importStrings[k])
    {
      lines := lines + [BulletLine(firstLine, position, importStrings[position])];
      position := position + 1;
    }
  }

  /** `_render_direct_import(direct_import, first_line, extra_firsts, extra_lasts)`: the lines it prints. */
  method RenderDirectImport(directImport: Link, firstLine: bool, extraFirsts: seq<Link>, extraLasts: seq<Link>)
    returns (lines: seq<string>)
    ensures lines == DirectImportLines(directImport, firstLine, extraFirsts, extraLasts)
  {
    var importStrings := BuildHeadStrings(directImport, extraFirsts);
    if extraLasts != [] {
      importStrings := AppendLastStrings(importStrings, |directImport.importer| + 4, extraLasts);
    } else {
      assert importStrings == importStrings + LastStrings(|directImport.importer| + 4, extraLasts);
    }
    lines := BulletAll(importStrings, firstLine);
  }

  /** An import rendered without alternatives is the single line "  importer -> imported (l.n, ...)". */
  lemma {:induction false} SingleImportLine(l: Link)
    ensures DirectImportLines(l, false, [], []) == [BulletLine(false, 0, ArrowString(l))]
  {
    assert ImportStrings(l, [], []) == [ArrowString(l)];
  }

  /** The lines of the links between the first and the last, one each. */
  function MiddleLines(links: seq<Link>): (r: seq<string>)
    ensures |r| == |links|
    ensures forall k :: 0 <= k < |links| ==> r[k] == BulletLine(false, 0, ArrowString(links[k]))
  {
    if links == [] then []
    else
      var n := |links|;
      var init, last := MiddleLines(links[..n - 1]), DirectImportLines(links[n - 1], false, [], []);
      SingleImportLine(links[n - 1]);
      MiddleLinesSnoc(links, init, last);
      init + last
  }

  /** One more middle link adds its line after the lines of the others. */
  lemma {:induction false} MiddleLinesSnoc(links: seq<Link>, init: seq<string>, last: seq<string>)
    requires links != [] && |init| == |links| - 1
    requires forall k :: 0 <= k < |init| ==> init[k] == BulletLine(false, 0, ArrowString(links[..|links| - 1][k]))
    requires last == [BulletLine(false, 0, ArrowString(links[|links| - 1]))]
    ensures |init + last| == |links|
    ensures forall k :: 0 <= k < |links| ==> (init + last)[k] == BulletLine(false, 0, ArrowString(links[k]))
  {
    forall k | 0 <= k < |links| ensures (init + last)[k] == BulletLine(false, 0, ArrowString(links[k])) {
      if k < |init| {
        assert links[..|links| - 1][k] == links[k];
      }
    }
  }

  /** The lines `render_chain_data` prints, or the `IndexError` of an empty chain. */
  function ChainLines(chainData: DetailedChain): Result<seq<string>> {
    var chain := chainData.chain;
    if chain == [] then Err(IndexErrorMessage)
    else
      Ok(DirectImportLines(chain[0], true, chainData.extraFirsts, [])
         + MiddleLines(Middle(chain))
         + (if |chain| > 1 then DirectImportLines(chain[|chain| - 1], false, [], chainData.extraLasts) else []))
  }

  /**
   * A rendered chain has one line per link, plus the alternative first imports folded into the
   * first link and the alternative last imports folded into the last one (which only exist when
   * the chain has more than one link).
   */
  lemma {:induction false} ChainLinesCount(chainData: DetailedChain)
    requires chainData.chain != []
    ensures ChainLines(chainData).Ok?
    ensures |ChainLines(chainData).value|
            == HeadCount(chainData.extraFirsts) + |chainData.chain| - 1
               + (if |chainData.chain| > 1 then |chainData.extraLasts| else 0)
  {
    var chain := chainData.chain;
    ImportStringsLayout(chain[0], chainData.extraFirsts, []);
    ImportStringsLayout(chain[|chain| - 1], [], chainData.extraLasts);
  }

  lemma {:induction false} MiddleLinesBullets(links: seq<Link>)
    ensures forall k :: 0 <= k < |MiddleLines(links)| ==> |MiddleLines(links)[k]| >= 2 && MiddleLines(links)[k][..2] == "  "
  {
    forall k | 0 <= k < |links| ensures |MiddleLines(links)[k]| >= 2 && MiddleLines(links)[k][..2] == "  " {
      BulletLineParts(false, 0, ArrowString(links[k]));
    }
  }

  /** Bulleted blocks put one after another: only the first line of the first block has "- ". */
  lemma {:induction false} BulletedBlocks(first: seq<string>, middle: seq<string>, last: seq<string>)
    requires |first| >= 1
    requires forall k :: 0 <= k < |first| ==> |first[k]| >= 2 && first[k][..2] == Bullet(true, k)
    requires forall k :: 0 <= k < |middle| ==> |middle[k]| >= 2 && middle[k][..2] == "  "
    requires forall k :: 0 <= k < |last| ==> |last[k]| >= 2 && last[k][..2] == "  "
    ensures forall k :: 0 <= k < |first + middle + last| ==>
              && |(first + middle + last)[k]| >= 2
              && (first + middle + last)[k][..2] == (if k == 0 then "- " else "  ")
  {
    var lines := first + middle + last;
    forall k | 0 <= k < |lines| ensures |lines[k]| >= 2 && lines[k][..2] == (if k == 0 then "- " else "  ") {
      if k < |first| {
        assert lines[k] == first[k];
      } else if k < |first| + |middle| {
        assert lines[k] == middle[k - |first|];
      } else {
        assert lines[k] == last[k - |first| - |middle|];
      }
    }
  }

  /** The first line of a rendered chain alone is bulleted with "- ". */
  lemma {:induction false} ChainLinesBullets(chainData: DetailedChain)
    requires chainData.chain != []
    ensures ChainLines(chainData).Ok?
    ensures forall k :: 0 <= k < |ChainLines(chainData).value| ==>
              && |ChainLines(chainData).value[k]| >= 2
              && ChainLines(chainData).value[k][..2] == (if k == 0 then "- " else "  ")
  {
    var chain := chainData.chain;
    var first := DirectImportLines(chain[0], true, chainData.extraFirsts, []);
    var middle := MiddleLines(Middle(chain));
    var last := if |chain| > 1 then DirectImportLines(chain[|chain| - 1], false, [], chainData.extraLasts) else [];
    assert ChainLines(chainData) == Ok(first + middle + last);
    DirectImportBullets(chain[0], true, chainData.extraFirsts, []);
    if |chain| > 1 {
      DirectImportBullets(chain[|chain| - 1], false, [], chainData.extraLasts);
    }
    MiddleLinesBullets(Middle(chain));
    BulletedBlocks(first, middle, last);
  }

  /** The loop of `render_chain_data` over the links between the first and the last. */
  method RenderMiddle(links: seq<Link>) returns (lines: seq<string>)
    ensures lines == MiddleLines(links)
  {
    lines := [];
    var i := 0;
    while i < |links|
      invariant 0 <= i <= |links|
      invariant lines == MiddleLines(links[..i])
    {
      assert links[..i + 1][..i] == links[..i];
      var more := RenderDirectImport(links[i], false, [], []);
      lines := lines + more;
      i := i + 1;
    }
    assert links[..i] == links;
  }

  /** `render_chain_data(chain_data)`: the lines it prints. */
  method RenderChainData(chainData: DetailedChain) returns (r: Result<seq<string>>)
    ensures r == ChainLines(chainData)
  {
    var mainChain := chainData.chain;
    if mainChain == [] {
      return Err(IndexErrorMessage);
    }
    var lines := RenderDirectImport(mainChain[0], true, chainData.extraFirsts, []);
    var middle := RenderMiddle(Middle(mainChain));
    lines := lines + middle;
    if |mainChain| > 1 {
      var last := RenderDirectImport(mainChain[|mainChain| - 1], false, [], chainData.extraLasts);
      lines := lines + last;
    } else {
      assert lines == lines + [];
    }
    r := Ok(lines);
  }
}
