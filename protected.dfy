/**
 * The protected-modules contract (src/importlinter/contracts/protected.py): a set of modules may
 * be imported directly only by the allowed importers and by the other members of its own package.
 */
module Protected {
  import opened Wrappers
  import opened Strings
  import opened Graphs
  import Common
  import Contract

  /**
   * One entry of `protected_modules`: the expression as written, whether it holds a wildcard,
   * and the modules it resolves to (resolved with `as_packages=False`).
   */
  datatype ProtectedExpression = ProtectedExpression(expression: string, hasWildcard: bool, modules: set<string>)

  /** `BrokenContractMetadata`: the illegal links found under one top-level protected module. */
  datatype BrokenContractMetadata = BrokenContractMetadata(
    topLevelModule: string,
    illegalLinks: seq<Common.Link>,
    originalExpression: Option<string>)

  /** The protected family of a top-level module: itself, and its descendants when treated as a package. */
  function Family(g: Graph, top: string, asPackages: bool): (r: set<string>)
    ensures top in r
    ensures forall m :: m in r <==> m == top || (asPackages && top !in g.squashed && m in Descendants(g, top))
  {
    if asPackages && top !in g.squashed then {top} + Descendants(g, top) else {top}
  }

  /** The direct importers of `m` that are neither allowed nor part of the protected family. */
  function IllegalImporters(g: Graph, m: string, allowed: set<string>, family: set<string>): (r: set<string>)
    ensures forall x :: x in r <==> (x, m) in g.edges && x !in allowed && x !in family
  {
    ImportersOf(g, m) - allowed - family
  }

  /** An import of a module of `top`'s family by a module outside the family and outside the allowed ones. */
  predicate IllegalFor(g: Graph, top: string, allowed: set<string>, asPackages: bool, x: string, m: string) {
    && m in Family(g, top, asPackages)
    && (x, m) in g.edges
    && x !in allowed
    && x !in Family(g, top, asPackages)
  }

  /** One link from each of `importers` to `m`, in order, with the line numbers of its import details. */
  function ImporterLinks(g: Graph, importers: seq<string>, m: string): seq<Common.Link> {
    if importers == [] then []
    else
      var x := importers[|importers| - 1];
      ImporterLinks(g, importers[..|importers| - 1], m) + [Common.Link(x, m, Common.LineNumbers(g, x, m))]
  }

  /** The `k`-th link is the import of `m` by the `k`-th importer. */
  lemma {:induction false} ImporterLinksAt(g: Graph, importers: seq<string>, m: string)
    ensures |ImporterLinks(g, importers, m)| == |importers|
    ensures forall k :: 0 <= k < |importers| ==>
              ImporterLinks(g, importers, m)[k] == Common.Link(importers[k], m, Common.LineNumbers(g, importers[k], m))
    decreases |importers|
  {
    if importers != [] {
      var n := |importers| - 1;
      var init := importers[..n];
      ImporterLinksAt(g, init, m);
      var links := ImporterLinks(g, importers, m);
      assert links == ImporterLinks(g, init, m) + [Common.Link(importers[n], m, Common.LineNumbers(g, importers[n], m))];
      forall k | 0 <= k < |importers|
        ensures links[k] == Common.Link(importers[k], m, Common.LineNumbers(g, importers[k], m))
      {
        if k < n {
          assert init[k] == importers[k];
        }
      }
    }
  }

  /** The links recorded for one protected module, one per illegal importer in sorted order. */
  function ModuleLinks(g: Graph, m: string, allowed: set<string>, family: set<string>): seq<Common.Link> {
    ImporterLinks(g, Sorted(IllegalImporters(g, m, allowed, family)), m)
  }

  /** The links of one protected module are exactly its illegal imports, with their line numbers. */
  lemma {:induction false} ModuleLinksSpec(g: Graph, m: string, allowed: set<string>, family: set<string>)
    ensures forall link: Common.Link :: link in ModuleLinks(g, m, allowed, family) <==>
              && link.imported == m
              && link.importer in IllegalImporters(g, m, allowed, family)
              && link.lineNumbers == Common.LineNumbers(g, link.importer, m)
  {
    var sorted := Sorted(IllegalImporters(g, m, allowed, family));
    var links := ModuleLinks(g, m, allowed, family);
    ImporterLinksAt(g, sorted, m);
    forall link: Common.Link | link.imported == m && link.importer in IllegalImporters(g, m, allowed, family)
                  && link.lineNumbers == Common.LineNumbers(g, link.importer, m)
      ensures link in links
    {
      var k :| 0 <= k < |sorted| && sorted[k] == link.importer;
      assert links[k] == link;
    }
  }

  /** The importers of one protected module's links are strictly increasing. */
  lemma {:induction false} ModuleLinksSorted(g: Graph, m: string, allowed: set<string>, family: set<string>)
    ensures forall i, j :: 0 <= i < j < |ModuleLinks(g, m, allowed, family)| ==>
              Less(ModuleLinks(g, m, allowed, family)[i].importer, ModuleLinks(g, m, allowed, family)[j].importer)
  {
    ImporterLinksAt(g, Sorted(IllegalImporters(g, m, allowed, family)), m);
  }

  /** The links of the protected modules `ms`, visited in order. */
  function FamilyLinks(g: Graph, ms: seq<string>, allowed: set<string>, family: set<string>): seq<Common.Link> {
    if ms == [] then []
    else FamilyLinks(g, ms[..|ms| - 1], allowed, family) + ModuleLinks(g, ms[|ms| - 1], allowed, family)
  }

  /** A link is recorded for the modules `ms` exactly when its imported module is one of them and it is illegal. */
  lemma {:induction false} FamilyLinksSpec(g: Graph, ms: seq<string>, allowed: set<string>, family: set<string>)
    ensures forall link: Common.Link :: link in FamilyLinks(g, ms, allowed, family) <==>
              link.imported in ms && link in ModuleLinks(g, link.imported, allowed, family)
    decreases |ms|
  {
    if ms != [] {
      var init := ms[..|ms| - 1];
      var last := ms[|ms| - 1];
      FamilyLinksSpec(g, init, allowed, family);
      ModuleLinksSpec(g, last, allowed, family);
      assert ms == init + [last];
      forall link: Common.Link ensures link in FamilyLinks(g, ms, allowed, family) <==>
                          link.imported in ms && link in ModuleLinks(g, link.imported, allowed, family)
      {
        if link.imported in ms && link in ModuleLinks(g, link.imported, allowed, family) && link.imported != last {
          assert link.imported in init;
        }
      }
    }
  }

  /** The metadata object built for one top-level protected module (kept only if it has links). */
  function TopLevelMetadata(g: Graph, e: ProtectedExpression, top: string, allowed: set<string>, asPackages: bool)
    : BrokenContractMetadata
  {
    var family := Family(g, top, asPackages);
    BrokenContractMetadata(
      top,
      FamilyLinks(g, Sorted(family), allowed, family),
      if e.hasWildcard then Some(e.expression) else None)
  }

  /** The links under a top-level module are exactly the illegal imports of its family, with their line numbers. */
  lemma {:induction false} TopLevelMetadataSpec(g: Graph, e: ProtectedExpression, top: string, allowed: set<string>, asPackages: bool)
    ensures forall link: Common.Link :: link in TopLevelMetadata(g, e, top, allowed, asPackages).illegalLinks <==>
              IllegalFor(g, top, allowed, asPackages, link.importer, link.imported)
              && link.lineNumbers == Common.LineNumbers(g, link.importer, link.imported)
  {
    var family := Family(g, top, asPackages);
    FamilyLinksSpec(g, Sorted(family), allowed, family);
    forall m {
      ModuleLinksSpec(g, m, allowed, family);
    }
  }

  /** The metadata objects with at least one link, for the top-level modules `tops` in order. */
  function ExpressionMetadata(g: Graph, e: ProtectedExpression, tops: seq<string>, allowed: set<string>, asPackages: bool)
    : seq<BrokenContractMetadata>
  {
    if tops == [] then []
    else
      var md := TopLevelMetadata(g, e, tops[|tops| - 1], allowed, asPackages);
      ExpressionMetadata(g, e, tops[..|tops| - 1], allowed, asPackages) + (if md.illegalLinks != [] then [md] else [])
  }

  /** An entry is recorded for a top-level module of `tops` exactly when it has links. */
  lemma {:induction false} ExpressionMetadataSpec(g: Graph, e: ProtectedExpression, tops: seq<string>, allowed: set<string>,
                                                  asPackages: bool)
    ensures forall md: BrokenContractMetadata :: md in ExpressionMetadata(g, e, tops, allowed, asPackages) <==>
              && md.topLevelModule in tops
              && md.illegalLinks != []
              && md == TopLevelMetadata(g, e, md.topLevelModule, allowed, asPackages)
    decreases |tops|
  {
    if tops != [] {
      var init := tops[..|tops| - 1];
      var last := tops[|tops| - 1];
      ExpressionMetadataSpec(g, e, init, allowed, asPackages);
      assert tops == init + [last];
    }
  }

  /** The metadata of the expressions `exprs`, visited in order, each over its sorted top-level modules. */
  function AllMetadata(g: Graph, exprs: seq<ProtectedExpression>, allowed: set<string>, asPackages: bool)
    : seq<BrokenContractMetadata>
  {
    if exprs == [] then []
    else
      var e := exprs[|exprs| - 1];
      AllMetadata(g, exprs[..|exprs| - 1], allowed, asPackages) + ExpressionMetadata(g, e, Sorted(e.modules), allowed, asPackages)
  }

  /** Every recorded entry was produced by one of the expressions. */
  lemma {:induction false} AllMetadataMember(g: Graph, exprs: seq<ProtectedExpression>, allowed: set<string>, asPackages: bool,
                                             md: BrokenContractMetadata)
    requires md in AllMetadata(g, exprs, allowed, asPackages)
    ensures exists k :: 0 <= k < |exprs| && md in ExpressionMetadata(g, exprs[k], Sorted(exprs[k].modules), allowed, asPackages)
  {
    AllMetadataConcat(g, exprs, allowed, asPackages);
    var k := ConcatMember(exprs, (e: ProtectedExpression) => ExpressionMetadata(g, e, Sorted(e.modules), allowed, asPackages), md);
  }

  /** Every entry produced by one of the expressions is recorded. */
  lemma {:induction false} AllMetadataIncludes(g: Graph, exprs: seq<ProtectedExpression>, allowed: set<string>, asPackages: bool,
                                               k: int, md: BrokenContractMetadata)
    requires 0 <= k < |exprs|
    requires md in ExpressionMetadata(g, exprs[k], Sorted(exprs[k].modules), allowed, asPackages)
    ensures md in AllMetadata(g, exprs, allowed, asPackages)
  {
    AllMetadataConcat(g, exprs, allowed, asPackages);
    ConcatIncludes(exprs, (e: ProtectedExpression) => ExpressionMetadata(g, e, Sorted(e.modules), allowed, asPackages), k, md);
  }

  /** The sequences `f` gives for the elements of `xs`, concatenated in order. */
  function Concat<E, T>(xs: seq<E>, f: E -> seq<T>): seq<T> {
    if xs == [] then [] else Concat(xs[..|xs| - 1], f) + f(xs[|xs| - 1])
  }

  /** Whatever `f` gives for an element of `xs` is in the concatenation. */
  lemma {:induction false} ConcatIncludes<E, T>(xs: seq<E>, f: E -> seq<T>, k: int, x: T)
    requires 0 <= k < |xs| && x in f(xs[k])
    ensures x in Concat(xs, f)
    decreases |xs|
  {
    var n := |xs| - 1;
    if k < n {
      assert xs[..n][k] == xs[k];
      ConcatIncludes(xs[..n], f, k, x);
    }
  }

  /** Every element of the concatenation comes from `f` applied to some element of `xs`. */
  lemma {:induction false} ConcatMember<E, T>(xs: seq<E>, f: E -> seq<T>, x: T) returns (k: int)
    requires x in Concat(xs, f)
    ensures 0 <= k < |xs| && x in f(xs[k])
    decreases |xs|
  {
    var n := |xs| - 1;
    if x in Concat(xs[..n], f) {
      k := ConcatMember(xs[..n], f, x);
      assert xs[..n][k] == xs[k];
    } else {
      k := n;
    }
  }

  /** The metadata of the expressions is the concatenation of each expression's entries. */
  lemma {:induction false} AllMetadataConcat(g: Graph, exprs: seq<ProtectedExpression>, allowed: set<string>, asPackages: bool)
    ensures AllMetadata(g, exprs, allowed, asPackages)
            == Concat(exprs, (e: ProtectedExpression) => ExpressionMetadata(g, e, Sorted(e.modules), allowed, asPackages))
    decreases |exprs|
  {
    if exprs != [] {
      AllMetadataConcat(g, exprs[..|exprs| - 1], allowed, asPackages);
    }
  }

  /** Some protected module is imported illegally: directly, by a module outside its family and not allowed. */
  ghost predicate HasIllegalImport(g: Graph, exprs: seq<ProtectedExpression>, allowed: set<string>, asPackages: bool) {
    exists k, top, x, m :: 0 <= k < |exprs| && top in exprs[k].modules && IllegalFor(g, top, allowed, asPackages, x, m)
  }

  /** What `check` returns, given the allowed modules and the warnings of the ignored imports. */
  function CheckOutcome(g: Graph, exprs: seq<ProtectedExpression>, allowed: set<string>, asPackages: bool,
                        warnings: seq<string>): Contract.ContractCheck<seq<BrokenContractMetadata>>
  {
    var metadata := AllMetadata(g, exprs, allowed, asPackages);
    Contract.NewContractCheck(metadata == [], Some(map["illegal_imports" := metadata]), Some(warnings))
  }

  /** Every recorded entry comes from one of the expressions, has a link, and names the expression only if it has a wildcard. */
  lemma {:induction false} MetadataEntries(g: Graph, exprs: seq<ProtectedExpression>, allowed: set<string>, asPackages: bool,
                        md: BrokenContractMetadata)
    requires md in AllMetadata(g, exprs, allowed, asPackages)
    ensures md.illegalLinks != []
    ensures exists k :: 0 <= k < |exprs| && md.topLevelModule in exprs[k].modules
                        && md.originalExpression == (if exprs[k].hasWildcard then Some(exprs[k].expression) else None)
  {
    AllMetadataMember(g, exprs, allowed, asPackages, md);
    var k :| 0 <= k < |exprs| && md in ExpressionMetadata(g, exprs[k], Sorted(exprs[k].modules), allowed, asPackages);
    ExpressionMetadataSpec(g, exprs[k], Sorted(exprs[k].modules), allowed, asPackages);
  }

  /** Every recorded link is an illegal direct import of the entry's family, with its line numbers. */
  lemma {:induction false} LinksSound(g: Graph, exprs: seq<ProtectedExpression>, allowed: set<string>, asPackages: bool,
                   md: BrokenContractMetadata, link: Common.Link)
    requires md in AllMetadata(g, exprs, allowed, asPackages)
    requires link in md.illegalLinks
    ensures IllegalFor(g, md.topLevelModule, allowed, asPackages, link.importer, link.imported)
    ensures link.lineNumbers == Common.LineNumbers(g, link.importer, link.imported)
  {
    AllMetadataMember(g, exprs, allowed, asPackages, md);
    var k :| 0 <= k < |exprs| && md in ExpressionMetadata(g, exprs[k], Sorted(exprs[k].modules), allowed, asPackages);
    ExpressionMetadataSpec(g, exprs[k], Sorted(exprs[k].modules), allowed, asPackages);
    TopLevelMetadataSpec(g, exprs[k], md.topLevelModule, allowed, asPackages);
  }

  /** Every illegal direct import of a protected family is recorded, under its top-level module. */
  lemma {:induction false} LinksComplete(g: Graph, exprs: seq<ProtectedExpression>, allowed: set<string>, asPackages: bool,
                      k: int, top: string, x: string, m: string)
    requires 0 <= k < |exprs| && top in exprs[k].modules
    requires IllegalFor(g, top, allowed, asPackages, x, m)
    ensures exists md :: md in AllMetadata(g, exprs, allowed, asPackages) && md.topLevelModule == top
                         && Common.Link(x, m, Common.LineNumbers(g, x, m)) in md.illegalLinks
  {
    var md := TopLevelMetadata(g, exprs[k], top, allowed, asPackages);
    var link := Common.Link(x, m, Common.LineNumbers(g, x, m));
    TopLevelMetadataSpec(g, exprs[k], top, allowed, asPackages);
    assert link in md.illegalLinks;
    EntryRecorded(g, exprs, allowed, asPackages, k, top);
    assert md in AllMetadata(g, exprs, allowed, asPackages) && md.topLevelModule == top && link in md.illegalLinks;
  }

  /** The entry of a top-level module of one of the expressions is recorded when it has links. */
  lemma {:induction false} EntryRecorded(g: Graph, exprs: seq<ProtectedExpression>, allowed: set<string>, asPackages: bool, k: int, top: string)
    requires 0 <= k < |exprs| && top in exprs[k].modules
    requires TopLevelMetadata(g, exprs[k], top, allowed, asPackages).illegalLinks != []
    ensures TopLevelMetadata(g, exprs[k], top, allowed, asPackages) in AllMetadata(g, exprs, allowed, asPackages)
  {
    var sorted := Sorted(exprs[k].modules);
    ExpressionMetadataSpec(g, exprs[k], sorted, allowed, asPackages);
    AllMetadataIncludes(g, exprs, allowed, asPackages, k, TopLevelMetadata(g, exprs[k], top, allowed, asPackages));
  }

  /** The contract is kept exactly when no protected module is imported illegally; indirect imports never matter. */
  lemma {:induction false} KeptIff(g: Graph, exprs: seq<ProtectedExpression>, allowed: set<string>, asPackages: bool, warnings: seq<string>)
    ensures CheckOutcome(g, exprs, allowed, asPackages, warnings).kept <==> !HasIllegalImport(g, exprs, allowed, asPackages)
    ensures CheckOutcome(g, exprs, allowed, asPackages, warnings).warnings == warnings
  {
    var metadata := AllMetadata(g, exprs, allowed, asPackages);
    if HasIllegalImport(g, exprs, allowed, asPackages) {
      var k, top, x, m :| 0 <= k < |exprs| && top in exprs[k].modules && IllegalFor(g, top, allowed, asPackages, x, m);
      LinksComplete(g, exprs, allowed, asPackages, k, top, x, m);
    }
    if metadata != [] {
      var md := metadata[0];
      MetadataEntries(g, exprs, allowed, asPackages, md);
      var link := md.illegalLinks[0];
      LinksSound(g, exprs, allowed, asPackages, md, link);
      var k :| 0 <= k < |exprs| && md.topLevelModule in exprs[k].modules
               && md.originalExpression == (if exprs[k].hasWildcard then Some(exprs[k].expression) else None);
      assert IllegalFor(g, md.topLevelModule, allowed, asPackages, link.importer, link.imported);
    }
  }

  /** The innermost loop of `check`: one link per illegal importer of `m`, in sorted order. */
  method CollectModuleLinks(g: Graph, m: string, allowed: set<string>, family: set<string>)
    returns (links: seq<Common.Link>)
    ensures links == ModuleLinks(g, m, allowed, family)
  {
    links := LinksToEach(g, Sorted(IllegalImporters(g, m, allowed, family)), m);
  }

  /** One link from each of `importers` to `m`, built in order. */
  method LinksToEach(g: Graph, importers: seq<string>, m: string) returns (links: seq<Common.Link>)
    ensures links == ImporterLinks(g, importers, m)
  {
    links := [];
    var i := 0;
    while i < |importers|
      invariant 0 <= i <= |importers|
      invariant links == ImporterLinks(g, importers[..i], m)
    {
      assert importers[..i + 1][..i] == importers[..i];
      links := links + [Common.Link(importers[i], m, Common.LineNumbers(g, importers[i], m))];
      i := i + 1;
    }
    assert importers[..i] == importers;
  }

  /** The middle loop of `check`: the links of each protected module of one family, in sorted order. */
  method CollectFamilyLinks(g: Graph, top: string, allowed: set<string>, asPackages: bool)
    returns (links: seq<Common.Link>)
    ensures links == FamilyLinks(g, Sorted(Family(g, top, asPackages)), allowed, Family(g, top, asPackages))
  {
    var family := Family(g, top, asPackages);
    links := FamilyLinksEach(g, Sorted(family), allowed, family);
  }

  /** The links of each of the protected modules `ms`, in order. */
  method FamilyLinksEach(g: Graph, ms: seq<string>, allowed: set<string>, family: set<string>)
    returns (links: seq<Common.Link>)
    ensures links == FamilyLinks(g, ms, allowed, family)
  {
    links := [];
    var i := 0;
    while i < |ms|
      invariant 0 <= i <= |ms|
      invariant links == FamilyLinks(g, ms[..i], allowed, family)
    {
      var found := LinksToEach(g, Sorted(IllegalImporters(g, ms[i], allowed, family)), ms[i]);
      assert ms[..i + 1][..i] == ms[..i];
      links := links + found;
      i := i + 1;
    }
    assert ms[..i] == ms;
  }

  /** The metadata object of one top-level protected module, with the links of its whole family. */
  method TopLevelEntry(g: Graph, e: ProtectedExpression, top: string, allowed: set<string>, asPackages: bool)
    returns (md: BrokenContractMetadata)
    ensures md == TopLevelMetadata(g, e, top, allowed, asPackages)
  {
    var links := CollectFamilyLinks(g, top, allowed, asPackages);
    md := BrokenContractMetadata(top, links, if e.hasWildcard then Some(e.expression) else None);
  }

  /** One more top-level module adds its entry when it has links. */
  lemma {:induction false} ExpressionMetadataStep(g: Graph, e: ProtectedExpression, tops: seq<string>, i: int, allowed: set<string>,
                               asPackages: bool)
    requires 0 <= i < |tops|
    ensures var md := TopLevelMetadata(g, e, tops[i], allowed, asPackages);
            ExpressionMetadata(g, e, tops[..i + 1], allowed, asPackages)
            == ExpressionMetadata(g, e, tops[..i], allowed, asPackages) + (if md.illegalLinks != [] then [md] else [])
  {
    assert tops[..i + 1][..i] == tops[..i];
  }

  /** One pass of the loop over the top-level modules keeps the entries equal to those of the modules visited. */
  lemma {:induction false} ExpressionEntriesStep(g: Graph, e: ProtectedExpression, tops: seq<string>, i: int, allowed: set<string>,
                                                 asPackages: bool, entries: seq<BrokenContractMetadata>, md: BrokenContractMetadata)
    requires 0 <= i < |tops|
    requires entries == ExpressionMetadata(g, e, tops[..i], allowed, asPackages)
    requires md == TopLevelMetadata(g, e, tops[i], allowed, asPackages)
    ensures (if md.illegalLinks != [] then entries + [md] else entries) == ExpressionMetadata(g, e, tops[..i + 1], allowed, asPackages)
  {
    ExpressionMetadataStep(g, e, tops, i, allowed, asPackages);
  }

  /** The loop over the top-level modules `tops` of one expression: an entry for each that has links. */
  method ExpressionEntries(g: Graph, e: ProtectedExpression, tops: seq<string>, allowed: set<string>, asPackages: bool)
    returns (entries: seq<BrokenContractMetadata>)
    ensures entries == ExpressionMetadata(g, e, tops, allowed, asPackages)
  {
    entries := [];
    for i := 0 to |tops|
      invariant entries == ExpressionMetadata(g, e, tops[..i], allowed, asPackages)
    {
      var md := TopLevelEntry(g, e, tops[i], allowed, asPackages);
      ExpressionEntriesStep(g, e, tops, i, allowed, asPackages, entries, md);
      if md.illegalLinks != [] {
        entries := entries + [md];
      }
    }
    assert tops[..|tops|] == tops;
  }

  /** One more expression adds its entries. */
  lemma {:induction false} AllMetadataStep(g: Graph, exprs: seq<ProtectedExpression>, i: int, allowed: set<string>, asPackages: bool)
    requires 0 <= i < |exprs|
    ensures AllMetadata(g, exprs[..i + 1], allowed, asPackages)
            == AllMetadata(g, exprs[..i], allowed, asPackages)
               + ExpressionMetadata(g, exprs[i], Sorted(exprs[i].modules), allowed, asPackages)
  {
    assert exprs[..i + 1][..i] == exprs[..i];
  }

  /**
   * `check`, given the modules the allowed importers resolve to and the warnings produced by
   * removing the ignored imports: every protected expression is visited in order.
   */
  method Check(g: Graph, exprs: seq<ProtectedExpression>, allowed: set<string>, asPackages: bool, warnings: seq<string>)
    returns (r: Contract.ContractCheck<seq<BrokenContractMetadata>>)
    ensures r == CheckOutcome(g, exprs, allowed, asPackages, warnings)
  {
    var metadata := [];
    var i := 0;
    while i < |exprs|
      invariant 0 <= i <= |exprs|
      invariant metadata == AllMetadata(g, exprs[..i], allowed, asPackages)
    {
      var entries := ExpressionEntries(g, exprs[i], Sorted(exprs[i].modules), allowed, asPackages);
      AllMetadataStep(g, exprs, i, allowed, asPackages);
      metadata := metadata + entries;
      i := i + 1;
    }
    assert exprs[..i] == exprs;
    r := Contract.NewContractCheck(metadata == [], Some(map["illegal_imports" := metadata]), Some(warnings));
  }
}
