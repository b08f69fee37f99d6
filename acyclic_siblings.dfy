/**
 * The acyclic-siblings contract (src/importlinter/contracts/acyclic_siblings.py): below each
 * ancestor package, down to a given depth, the children of every package must not import each
 * other in a cycle. The imports that would break the cycles (the "cycle breakers") are
 * nominated by the graph and summarised per package as dependencies between its children.
 */
module AcyclicSiblings {
  import opened Wrappers
  import opened Strings
  import opened Imports
  import opened Graphs
  import Ordering
  import Contract

  const DefaultDepth: nat := 10
  const MaxDependenciesToRender: nat := 5

  /**
   * The `depth` option, `IntegerField(minimum=0, default=DEFAULT_DEPTH)`: the default when it is
   * absent, and refused below the minimum. The integer field class is not part of this model:
   * the option arrives already read as an integer, and `belowMinimum` is the message that field
   * raises for a value below its minimum.
   */
  function Depth(raw: Option<int>, belowMinimum: string): (r: Result<nat>)
    ensures raw.None? ==> r == Ok(DefaultDepth)
    ensures raw.Some? ==> (r.Ok? <==> raw.value >= 0)
    ensures raw.Some? && r.Ok? ==> r.value == raw.value
    ensures r.Err? ==> r.error == belowMinimum
  {
    match raw
    case None => Ok(DefaultDepth)
    case Some(d) => if d < 0 then Err(belowMinimum) else Ok(d)
  }

  // ---------------------------------------------------------------------------------------------
  // Ancestors and skipped descendants must not overlap
  // ---------------------------------------------------------------------------------------------

  /** Whether a module expression holds a wildcard. */
  predicate HasWildcard(expression: string) {
    '*' in expression
  }

  function OverlapMessage(expression: string): string {
    if HasWildcard(expression) then
      "Cannot skip descendant '" + expression + "' as the same expression is in ancestors."
    else
      "Cannot skip '" + expression + "' as it is also an ancestor."
  }

  /**
   * `_check_no_ancestors_and_descendant_expressions_are_the_same`, over the expressions' strings:
   * the error for the smallest expression both in `ancestors` and in `skipDescendants`.
   */
  function OverlapError(ancestors: set<string>, skipDescendants: Option<set<string>>): Option<string> {
    if skipDescendants.None? || skipDescendants.value == {} || ancestors == {} then None
    else
      var overlap := ancestors * skipDescendants.value;
      if overlap == {} then None else Some(OverlapMessage(Sorted(overlap)[0]))
  }

  /** The check refuses exactly an overlap, and names the smallest overlapping expression. */
  lemma {:induction false} OverlapErrorSpec(ancestors: set<string>, skipDescendants: Option<set<string>>)
    ensures OverlapError(ancestors, skipDescendants).Some? <==>
              skipDescendants.Some? && ancestors * skipDescendants.value != {}
    ensures OverlapError(ancestors, skipDescendants).Some? ==>
              exists e :: e in ancestors && e in skipDescendants.value
                          && OverlapError(ancestors, skipDescendants).value == OverlapMessage(e)
                          && forall x :: x in ancestors && x in skipDescendants.value && x != e ==> Less(e, x)
  {
    if skipDescendants.Some? && ancestors * skipDescendants.value != {} {
      var overlap := ancestors * skipDescendants.value;
      var sorted := Sorted(overlap);
      assert sorted[0] in overlap;
      forall x | x in overlap && x != sorted[0] ensures Less(sorted[0], x) {
        var j :| 0 <= j < |sorted| && sorted[j] == x;
      }
    }
  }

  // ---------------------------------------------------------------------------------------------
  // Nominating cycle breakers, package by package
  // ---------------------------------------------------------------------------------------------

  /**
   * `nominate_cycle_breakers(package)` of the graph: the imports whose removal would leave the
   * children of the package without cycles. Its algorithm is not part of this model.
   */
  type CycleBreakersFinder = (Graph, string) -> set<(string, string)>

  /** A package is reported when it has at least two children and the graph nominates cycle breakers for it. */
  predicate Breaks(g: Graph, package: string, finder: CycleBreakersFinder) {
    |Children(g, package)| >= 2 && finder(g, package) != {}
  }

  /**
   * The packages the drill-down from `ancestor` visits: the ancestor itself and, while depth
   * remains, whatever is visited from each of its children that is not skipped.
   */
  ghost predicate Reaches(g: Graph, ancestor: string, depth: nat, skip: set<string>, package: string)
    decreases depth
  {
    package == ancestor
    || (depth > 0 && exists c :: c in Children(g, ancestor) && c !in skip && Reaches(g, c, depth - 1, skip, package))
  }

  /**
   * The cycle breakers by package that a drill-down from each of `ancestors` finds: a package
   * is a key exactly when some drill-down visits it and it breaks, and its value is what the
   * graph nominates for it.
   */
  ghost predicate IsBreakersByPackage(b: map<string, set<(string, string)>>, g: Graph, ancestors: set<string>,
                                      depth: nat, skip: set<string>, finder: CycleBreakersFinder)
  {
    && (forall p :: p in b <==> Breaks(g, p, finder) && exists a :: a in ancestors && Reaches(g, a, depth, skip, p))
    && (forall p :: p in b ==> b[p] == finder(g, p))
  }

  /** The description leaves no choice: two maps that both fit it are the same map. */
  lemma {:induction false} BreakersByPackageUnique(b1: map<string, set<(string, string)>>, b2: map<string, set<(string, string)>>,
                                g: Graph, ancestors: set<string>, depth: nat, skip: set<string>,
                                finder: CycleBreakersFinder)
    requires IsBreakersByPackage(b1, g, ancestors, depth, skip, finder)
    requires IsBreakersByPackage(b2, g, ancestors, depth, skip, finder)
    ensures b1 == b2
  {
    assert b1.Keys == b2.Keys;
  }

  /** Every package the drill-down visits, other than the ancestor, is a descendant of it that is not skipped. */
  lemma {:induction false} ReachesDescendants(g: Graph, ancestor: string, depth: nat, skip: set<string>, p: string)
    requires Reaches(g, ancestor, depth, skip, p)
    ensures p != ancestor ==> p in g.modules && p !in skip && IsDescendantOf(Module(p), Module(ancestor))
    decreases depth
  {
    if p != ancestor {
      var c :| c in Children(g, ancestor) && c !in skip && Reaches(g, c, depth - 1, skip, p);
      ChildIsDescendant(Module(c), Module(ancestor));
      if p != c {
        ReachesDescendants(g, c, depth - 1, skip, p);
        DescendantTransitive(Module(p), Module(c), Module(ancestor));
      }
    }
  }

  /**
   * `_nominate_cycle_breakers_recursively`: the ancestor's own cycle breakers, when it has at
   * least two children, then those found below each of its children that is not skipped, in
   * sorted order, while depth remains.
   */
  method NominateCycleBreakersRecursively(g: Graph, ancestor: string, remainingDepth: nat, skip: set<string>,
                                          finder: CycleBreakersFinder)
    returns (r: map<string, set<(string, string)>>)
    ensures forall p :: p in r <==> Reaches(g, ancestor, remainingDepth, skip, p) && Breaks(g, p, finder)
    ensures forall p :: p in r ==> r[p] == finder(g, p)
    decreases remainingDepth, 1
  {
    var children := Children(g, ancestor);
    if children == {} {
      forall p | Reaches(g, ancestor, remainingDepth, skip, p) ensures p == ancestor {
      }
      return map[];
    }
    var own: map<string, set<(string, string)>> := map[];
    if |children| >= 2 {
      var cycleBreakers := finder(g, ancestor);
      if cycleBreakers != {} {
        own := own[ancestor := cycleBreakers];
      }
    }
    if remainingDepth > 0 {
      var cs := Sorted(children - skip);
      var below := NominateForEach(g, cs, remainingDepth - 1, skip, finder);
      BelowChildren(g, ancestor, remainingDepth, skip, finder, cs, own, below);
      r := own + below;
    } else {
      forall p | Reaches(g, ancestor, remainingDepth, skip, p) ensures p == ancestor {
      }
      r := own;
    }
  }

  /**
   * The ancestor's own entry, merged with what is found below its unskipped children, is what
   * the drill-down from the ancestor reports.
   */
  lemma {:induction false} BelowChildren(g: Graph, ancestor: string, depth: nat, skip: set<string>, finder: CycleBreakersFinder,
                      cs: seq<string>, own: map<string, set<(string, string)>>, below: map<string, set<(string, string)>>)
    requires depth > 0
    requires forall p :: p in own <==> p == ancestor && Breaks(g, ancestor, finder)
    requires forall p :: p in own ==> own[p] == finder(g, p)
    requires forall x :: x in cs <==> x in Children(g, ancestor) && x !in skip
    requires forall p :: p in below <==> Breaks(g, p, finder) && exists c :: c in cs && Reaches(g, c, depth - 1, skip, p)
    requires forall p :: p in below ==> below[p] == finder(g, p)
    ensures forall p :: p in own + below <==> Reaches(g, ancestor, depth, skip, p) && Breaks(g, p, finder)
    ensures forall p :: p in own + below ==> (own + below)[p] == finder(g, p)
  {
  }

  /** Merging what is found from one more package extends the description by that package. */
  lemma {:induction false} MergeStep(g: Graph, done: seq<string>, x: string, depth: nat, skip: set<string>, finder: CycleBreakersFinder,
                  before: map<string, set<(string, string)>>, found: map<string, set<(string, string)>>)
    requires forall p :: p in before <==> Breaks(g, p, finder) && exists c :: c in done && Reaches(g, c, depth, skip, p)
    requires forall p :: p in found <==> Reaches(g, x, depth, skip, p) && Breaks(g, p, finder)
    ensures forall p :: p in before + found <==>
              Breaks(g, p, finder) && exists c :: c in done + [x] && Reaches(g, c, depth, skip, p)
  {
    forall p ensures p in before + found <==> Breaks(g, p, finder) && exists c :: c in done + [x] && Reaches(g, c, depth, skip, p) {
      if p in before {
        var c :| c in done && Reaches(g, c, depth, skip, p);
        assert c in done + [x];
      } else if p in found {
        assert x in done + [x];
      }
    }
  }

  /**
   * The loop over `packages`, shared by `check` (over the ancestors) and by the drill-down
   * (over the children): the cycle breakers found from each of them, merged.
   */
  method NominateForEach(g: Graph, packages: seq<string>, depth: nat, skip: set<string>, finder: CycleBreakersFinder)
    returns (r: map<string, set<(string, string)>>)
    ensures forall p :: p in r <==> Breaks(g, p, finder) && exists c :: c in packages && Reaches(g, c, depth, skip, p)
    ensures forall p :: p in r ==> r[p] == finder(g, p)
    decreases depth, 2
  {
    r := map[];
    var i := 0;
    while i < |packages|
      invariant 0 <= i <= |packages|
      invariant forall p :: p in r <==> Breaks(g, p, finder) && exists c :: c in packages[..i] && Reaches(g, c, depth, skip, p)
      invariant forall p :: p in r ==> r[p] == finder(g, p)
    {
      var found := NominateCycleBreakersRecursively(g, packages[i], depth, skip, finder);
      assert packages[..i + 1] == packages[..i] + [packages[i]];
      MergeStep(g, packages[..i], packages[i], depth, skip, finder, r, found);
      r := r + found;
      i := i + 1;
    }
    assert packages[..i] == packages;
  }

  // ---------------------------------------------------------------------------------------------
  // Summaries: cycle breakers counted per pair of children
  // ---------------------------------------------------------------------------------------------

  /** `Dependency`: one child of a package importing another, by this many cycle breakers. */
  datatype Dependency = Dependency(downstream: string, upstream: string, numImports: nat)

  /** `PackageSummary`: a package and the dependencies between its children. */
  datatype PackageSummary = PackageSummary(package: string, dependencies: set<Dependency>)

  /** The pair of children of `package` that a cycle breaker (importer, imported) runs between. */
  function ChildPair(package: string, breaker: (string, string)): (string, string) {
    var n := |Split(package, '.')| + 1;
    (Truncate(breaker.0, n), Truncate(breaker.1, n))
  }

  /** How many of the cycle breakers `bs` run between the children `pair`. */
  function Occurrences(package: string, bs: seq<(string, string)>, pair: (string, string)): nat {
    if bs == [] then 0
    else Occurrences(package, bs[..|bs| - 1], pair) + (if ChildPair(package, bs[|bs| - 1]) == pair then 1 else 0)
  }

  /** The loop of `_build_dependencies` over the cycle breakers `bs`: a count per pair of children. */
  function CountPairs(package: string, bs: seq<(string, string)>): map<(string, string), nat> {
    if bs == [] then map[]
    else
      var counts := CountPairs(package, bs[..|bs| - 1]);
      var pair := ChildPair(package, bs[|bs| - 1]);
      counts[pair := if pair in counts then counts[pair] + 1 else 1]
  }

  /** A pair is counted exactly when some cycle breaker runs between it, and its count is how many do. */
  lemma {:induction false} CountPairsSpec(package: string, bs: seq<(string, string)>)
    ensures forall pair :: pair in CountPairs(package, bs) <==> Occurrences(package, bs, pair) > 0
    ensures forall pair :: pair in CountPairs(package, bs) ==> CountPairs(package, bs)[pair] == Occurrences(package, bs, pair)
    decreases |bs|
  {
    if bs != [] {
      CountPairsSpec(package, bs[..|bs| - 1]);
    }
  }

  /** The dependencies of a count per pair of children. */
  function DependencySet(counts: map<(string, string), nat>): set<Dependency> {
    set pair | pair in counts :: Dependency(pair.0, pair.1, counts[pair])
  }

  /** `_build_dependencies`: the cycle breakers are visited in sorted order. */
  function Dependencies(package: string, cycleBreakers: set<(string, string)>): set<Dependency> {
    DependencySet(CountPairs(package, SortedPairs(cycleBreakers)))
  }

  /** The number of imports of a set of dependencies, added up. */
  ghost function TotalImports(ds: set<Dependency>): nat
    decreases |ds|
  {
    if ds == {} then 0 else var d :| d in ds; d.numImports + TotalImports(ds - {d})
  }

  /** The total can be split at any one of the dependencies. */
  lemma {:induction false} TotalImportsRemove(ds: set<Dependency>, d: Dependency)
    requires d in ds
    ensures TotalImports(ds) == d.numImports + TotalImports(ds - {d})
    decreases |ds|
  {
    var e :| e in ds && TotalImports(ds) == e.numImports + TotalImports(ds - {e});
    if e != d {
      TotalImportsRemove(ds - {e}, d);
      TotalImportsRemove(ds - {d}, e);
      assert ds - {e} - {d} == ds - {d} - {e};
    }
  }

  /** Counting one more cycle breaker adds one import to the total. */
  lemma {:induction false} CountStep(counts: map<(string, string), nat>, pair: (string, string))
    ensures TotalImports(DependencySet(counts[pair := if pair in counts then counts[pair] + 1 else 1]))
            == TotalImports(DependencySet(counts)) + 1
  {
    var before := DependencySet(counts);
    var v := if pair in counts then counts[pair] + 1 else 1;
    var after := DependencySet(counts[pair := v]);
    var added := Dependency(pair.0, pair.1, v);
    if pair in counts {
      var replaced := Dependency(pair.0, pair.1, counts[pair]);
      assert after - {added} == before - {replaced};
      TotalImportsRemove(after, added);
      TotalImportsRemove(before, replaced);
    } else {
      assert after - {added} == before;
      TotalImportsRemove(after, added);
    }
  }

  /** The counts add up to the number of cycle breakers counted. */
  lemma {:induction false} CountPairsTotal(package: string, bs: seq<(string, string)>)
    ensures TotalImports(DependencySet(CountPairs(package, bs))) == |bs|
    decreases |bs|
  {
    if bs != [] {
      var counts := CountPairs(package, bs[..|bs| - 1]);
      CountPairsTotal(package, bs[..|bs| - 1]);
      CountStep(counts, ChildPair(package, bs[|bs| - 1]));
    }
  }

  /** A pair that occurs is the pair of one of the cycle breakers. */
  lemma {:induction false} OccurrenceWitness(package: string, bs: seq<(string, string)>, pair: (string, string))
    returns (k: int)
    requires Occurrences(package, bs, pair) > 0
    ensures 0 <= k < |bs| && ChildPair(package, bs[k]) == pair
    decreases |bs|
  {
    if ChildPair(package, bs[|bs| - 1]) == pair {
      k := |bs| - 1;
    } else {
      k := OccurrenceWitness(package, bs[..|bs| - 1], pair);
    }
  }

  /** The pair of every cycle breaker occurs. */
  lemma {:induction false} OccursAtIndex(package: string, bs: seq<(string, string)>, k: int)
    requires 0 <= k < |bs|
    ensures Occurrences(package, bs, ChildPair(package, bs[k])) > 0
    decreases |bs|
  {
    if k < |bs| - 1 {
      OccursAtIndex(package, bs[..|bs| - 1], k);
    }
  }

  /**
   * Counting the cycle breakers `bs`: one dependency per pair of children that some of them
   * run between, and the numbers of imports add up to how many there are.
   */
  lemma {:induction false} CountedDependencies(package: string, bs: seq<(string, string)>)
    ensures TotalImports(DependencySet(CountPairs(package, bs))) == |bs|
    ensures forall d :: d in DependencySet(CountPairs(package, bs)) ==>
              d.numImports > 0 && exists b :: b in bs && ChildPair(package, b) == (d.downstream, d.upstream)
    ensures forall b :: b in bs ==>
              exists d :: d in DependencySet(CountPairs(package, bs)) && ChildPair(package, b) == (d.downstream, d.upstream)
  {
    var counts := CountPairs(package, bs);
    CountPairsTotal(package, bs);
    CountPairsSpec(package, bs);
    forall d | d in DependencySet(counts)
      ensures d.numImports > 0 && exists b :: b in bs && ChildPair(package, b) == (d.downstream, d.upstream)
    {
      var pair :| pair in counts && d == Dependency(pair.0, pair.1, counts[pair]);
      var k := OccurrenceWitness(package, bs, pair);
      assert bs[k] in bs;
    }
    forall b | b in bs
      ensures exists d :: d in DependencySet(counts) && ChildPair(package, b) == (d.downstream, d.upstream)
    {
      var k :| 0 <= k < |bs| && bs[k] == b;
      OccursAtIndex(package, bs, k);
      var pair := ChildPair(package, b);
      assert Dependency(pair.0, pair.1, counts[pair]) in DependencySet(counts);
    }
  }

  /**
   * The dependencies of a package: one per pair of children that some cycle breaker runs
   * between, and their numbers of imports add up to the number of cycle breakers.
   */
  lemma {:induction false} DependenciesSpec(package: string, cycleBreakers: set<(string, string)>)
    ensures TotalImports(Dependencies(package, cycleBreakers)) == |cycleBreakers|
    ensures forall d :: d in Dependencies(package, cycleBreakers) ==>
              d.numImports > 0 && exists b :: b in cycleBreakers && ChildPair(package, b) == (d.downstream, d.upstream)
    ensures forall b :: b in cycleBreakers ==>
              exists d :: d in Dependencies(package, cycleBreakers) && ChildPair(package, b) == (d.downstream, d.upstream)
  {
    CountedDependencies(package, SortedPairs(cycleBreakers));
  }

  /** Counting one more cycle breaker updates the count of its pair of children. */
  lemma {:induction false} CountPairsStep(package: string, bs: seq<(string, string)>, i: nat)
    requires i < |bs|
    ensures var counts := CountPairs(package, bs[..i]);
            var pair := ChildPair(package, bs[i]);
            CountPairs(package, bs[..i + 1]) == counts[pair := if pair in counts then counts[pair] + 1 else 1]
  {
    assert bs[..i + 1][..i] == bs[..i];
  }

  /** The counting loop over `bs`: the existing count of a pair goes up by one, or a new one starts at one. */
  method CountChildPairs(package: string, bs: seq<(string, string)>) returns (counts: map<(string, string), nat>)
    ensures counts == CountPairs(package, bs)
  {
    counts := map[];
    var i := 0;
    while i < |bs|
      invariant 0 <= i <= |bs|
      invariant counts == CountPairs(package, bs[..i])
    {
      var pair := ChildPair(package, bs[i]);
      CountPairsStep(package, bs, i);
      if pair in counts {
        counts := counts[pair := counts[pair] + 1];
      } else {
        counts := counts[pair := 1];
      }
      i := i + 1;
    }
    assert bs[..i] == bs;
  }

  /** `_build_dependencies`: a dependency per pair of children, holding its count. */
  method BuildDependencies(package: string, cycleBreakers: set<(string, string)>) returns (deps: set<Dependency>)
    ensures deps == Dependencies(package, cycleBreakers)
  {
    var counts := CountChildPairs(package, SortedPairs(cycleBreakers));
    deps := DependencySet(counts);
  }

  /** The summary of one reported package. */
  function Summary(package: string, cycleBreakers: set<(string, string)>): PackageSummary {
    PackageSummary(package, Dependencies(package, cycleBreakers))
  }

  /** The summaries of the packages `ps`, in order. */
  function SummariesOf(b: map<string, set<(string, string)>>, ps: seq<string>): set<PackageSummary>
    requires forall p :: p in ps ==> p in b
  {
    if ps == [] then {}
    else SummariesOf(b, ps[..|ps| - 1]) + {Summary(ps[|ps| - 1], b[ps[|ps| - 1]])}
  }

  /** A summary of `ps` is exactly the summary of one of them. */
  lemma {:induction false} SummariesOfSpec(b: map<string, set<(string, string)>>, ps: seq<string>)
    requires forall p :: p in ps ==> p in b
    ensures forall s :: s in SummariesOf(b, ps) <==> exists p :: p in ps && s == Summary(p, b[p])
    decreases |ps|
  {
    if ps != [] {
      var init := ps[..|ps| - 1];
      var last := ps[|ps| - 1];
      assert ps == init + [last];
      SummariesOfSpec(b, init);
      forall s ensures s in SummariesOf(b, ps) <==> exists p :: p in ps && s == Summary(p, b[p]) {
        if s in SummariesOf(b, init) {
          var p :| p in init && s == Summary(p, b[p]);
          assert p in ps;
        }
      }
    }
  }

  /** `_build_summaries`: the summaries of the reported packages. */
  function Summaries(b: map<string, set<(string, string)>>): set<PackageSummary> {
    SummariesOf(b, Sorted(b.Keys))
  }

  /** Every reported package has exactly one summary, holding its dependencies, and there is no other. */
  lemma {:induction false} SummariesSpec(b: map<string, set<(string, string)>>)
    ensures forall s :: s in Summaries(b) ==> s.package in b && s.dependencies == Dependencies(s.package, b[s.package])
    ensures forall p :: p in b ==> Summary(p, b[p]) in Summaries(b)
  {
    SummariesOfSpec(b, Sorted(b.Keys));
  }

  /** The loop of `_build_summaries` over the packages `ps`. */
  method SummariseEach(b: map<string, set<(string, string)>>, ps: seq<string>) returns (summaries: set<PackageSummary>)
    requires forall p :: p in ps ==> p in b
    ensures summaries == SummariesOf(b, ps)
  {
    summaries := {};
    var i := 0;
    while i < |ps|
      invariant 0 <= i <= |ps|
      invariant summaries == SummariesOf(b, ps[..i])
    {
      var deps := BuildDependencies(ps[i], b[ps[i]]);
      assert ps[..i + 1][..i] == ps[..i];
      summaries := summaries + {PackageSummary(ps[i], deps)};
      i := i + 1;
    }
    assert ps[..i] == ps;
  }

  /** `_build_summaries`: one summary per package of the map. */
  method BuildSummaries(b: map<string, set<(string, string)>>) returns (summaries: set<PackageSummary>)
    ensures summaries == Summaries(b)
  {
    summaries := SummariseEach(b, Sorted(b.Keys));
  }

  // ---------------------------------------------------------------------------------------------
  // The check and its rendering
  // ---------------------------------------------------------------------------------------------

  /** The metadata entries: the cycle breakers by package, and their summaries. */
  datatype SiblingsMetadata = BreakersByPackage(breakers: map<string, set<(string, string)>>) | Summarised(summaries: set<PackageSummary>)

  /** The contract's options, as read from its configuration. */
  datatype SiblingsOptions = SiblingsOptions(
    ancestorExpressions: set<string>,
    skipDescendantExpressions: Option<set<string>>,
    depth: nat)

  /** The result of a check that found the cycle breakers `b`. */
  function Outcome(b: map<string, set<(string, string)>>, warnings: seq<string>): Contract.ContractCheck<SiblingsMetadata> {
    Contract.NewContractCheck(
      b == map[],
      Some(map["cycle_breakers_by_package" := BreakersByPackage(b), "summaries" := Summarised(Summaries(b))]),
      Some(warnings))
  }

  /**
   * `check`, given the modules the ancestor and skip expressions resolve to and the warnings the
   * ignored imports produced: the overlap check, then the drill-down from each ancestor in sorted
   * order, then the summaries. The contract is kept exactly when no package visited from any
   * ancestor has two or more children and nominated cycle breakers.
   */
  method Check(options: SiblingsOptions, g: Graph, ancestors: set<string>, skip: set<string>,
               finder: CycleBreakersFinder, warnings: seq<string>)
    returns (r: Result<Contract.ContractCheck<SiblingsMetadata>>)
    ensures OverlapError(options.ancestorExpressions, options.skipDescendantExpressions).Some? ==>
              r == Err(OverlapError(options.ancestorExpressions, options.skipDescendantExpressions).value)
    ensures OverlapError(options.ancestorExpressions, options.skipDescendantExpressions).None? ==>
              r.Ok? && exists b :: IsBreakersByPackage(b, g, ancestors, options.depth, skip, finder)
                                   && r.value == Outcome(b, warnings)
    ensures r.Ok? ==> (r.value.kept <==>
              forall a, p :: a in ancestors && Reaches(g, a, options.depth, skip, p) ==> !Breaks(g, p, finder))
  {
    var overlap := OverlapError(options.ancestorExpressions, options.skipDescendantExpressions);
    if overlap.Some? {
      return Err(overlap.value);
    }
    var breakers := NominateForEach(g, Sorted(ancestors), options.depth, skip, finder);
    assert IsBreakersByPackage(breakers, g, ancestors, options.depth, skip, finder);
    KeptIff(breakers, g, ancestors, options.depth, skip, finder);
    var summaries := BuildSummaries(breakers);
    r := Ok(Contract.NewContractCheck(
      breakers == map[],
      Some(map["cycle_breakers_by_package" := BreakersByPackage(breakers), "summaries" := Summarised(summaries)]),
      Some(warnings)));
    assert r.value == Outcome(breakers, warnings);
  }

  /** No cycle breakers at all exactly when no visited package breaks. */
  lemma {:induction false} KeptIff(b: map<string, set<(string, string)>>, g: Graph, ancestors: set<string>, depth: nat,
                skip: set<string>, finder: CycleBreakersFinder)
    requires IsBreakersByPackage(b, g, ancestors, depth, skip, finder)
    ensures b == map[] ==> forall a, p :: a in ancestors && Reaches(g, a, depth, skip, p) ==> !Breaks(g, p, finder)
    ensures b != map[] ==> exists a, p :: a in ancestors && Reaches(g, a, depth, skip, p) && Breaks(g, p, finder)
  {
    if b != map[] {
      var p :| p in b;
      var a :| a in ancestors && Reaches(g, a, depth, skip, p);
      assert Breaks(g, p, finder);
    } else {
      forall a, p | a in ancestors && Reaches(g, a, depth, skip, p) ensures !Breaks(g, p, finder) {
        assert p !in b;
      }
    }
  }

  /** The order of `Dependency` values: by downstream, then upstream, then number of imports. */
  predicate DependencyLess(a: Dependency, b: Dependency) {
    || Less(a.downstream, b.downstream)
    || (a.downstream == b.downstream && Less(a.upstream, b.upstream))
    || (a.downstream == b.downstream && a.upstream == b.upstream && a.numImports < b.numImports)
  }

  lemma {:induction false} DependencyLessIsStrictTotalOrder()
    ensures Ordering.IsStrictTotalOrder(DependencyLess)
  {
    LessIsStrictTotalOrder();
  }

  function SortedDependencies(ds: set<Dependency>): (r: seq<Dependency>)
    ensures |r| == |ds|
    ensures forall d :: d in r <==> d in ds
    ensures forall i, j :: 0 <= i < j < |r| ==> DependencyLess(r[i], r[j])
  {
    DependencyLessIsStrictTotalOrder();
    Ordering.SortSet(ds, DependencyLess)
  }

  function DependencyLine(d: Dependency): string {
    "- ." + LastSegment(d.downstream) + " -> ." + LastSegment(d.upstream)
    + " (" + NatToString(d.numImports) + " " + (if d.numImports != 1 then "imports" else "import") + ")"
  }

  function MoreMessage(extra: nat): string {
    "(and " + NatToString(extra) + " more)."
  }

  /**
   * The lines printed for a package with the dependencies `deps`, in order (an empty string
   * stands for a new line).
   */
  function SummaryLines(package: string, deps: seq<Dependency>): seq<string> {
    var n := |deps|;
    var shown := if n < MaxDependenciesToRender then n else MaxDependenciesToRender;
    ["No cycles are allowed in " + package + ".",
     "It could be made acyclic by removing " + NatToString(n) + " " + (if n != 1 then "dependencies" else "dependency") + ":",
     ""]
    + seq(shown, k requires 0 <= k < shown => DependencyLine(deps[k]))
    + (if n > MaxDependenciesToRender then [MoreMessage(n - MaxDependenciesToRender)] else [])
    + [""]
  }

  /**
   * At most five dependencies are listed, the first ones; a "more" line follows exactly when
   * some were left out, and it gives how many.
   */
  lemma {:induction false} SummaryLinesSpec(package: string, deps: seq<Dependency>)
    ensures var n := |deps|;
            var lines := SummaryLines(package, deps);
            && (n <= MaxDependenciesToRender ==> |lines| == 4 + n && lines[3 + n] == "")
            && (n > MaxDependenciesToRender ==> |lines| == 5 + MaxDependenciesToRender
                                                 && lines[3 + MaxDependenciesToRender] == MoreMessage(n - MaxDependenciesToRender))
    ensures forall k :: 0 <= k < |deps| && k < MaxDependenciesToRender ==>
              SummaryLines(package, deps)[3 + k] == DependencyLine(deps[k])
  {
  }

  /** `render_broken_contract`, for one summary: its dependencies are listed in sorted order. */
  function RenderSummary(s: PackageSummary): seq<string> {
    SummaryLines(s.package, SortedDependencies(s.dependencies))
  }
}
