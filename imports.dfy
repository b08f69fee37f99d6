/**
 * Modules, import expressions and the glob matching that resolves an import expression
 * against the modules of a graph (src/importlinter/domain/imports.py).
 */
module Imports {
  import opened Wrappers
  import opened Strings

  /** A Python module, named by its fully qualified dotted name. */
  datatype Module = Module(name: string)

  /** `Module.root_package_name`: the first dot-separated segment of the name. */
  function RootPackageName(m: Module): (r: string)
    ensures |r| <= |m.name| && r == m.name[..|r|]
    ensures '.' !in r
    ensures |r| == |m.name| || m.name[|r|] == '.'
  {
    SplitFirst(m.name, '.');
    Split(m.name, '.')[0]
  }

  /** `Module.parent`: the name without its last segment; a one-segment name has no parent. */
  function Parent(m: Module): (r: Result<Module>)
  {
    var components := Split(m.name, '.');
    if |components| == 1 then Err("Module has no parent.")
    else Ok(Module(Join(components[..|components| - 1], ".")))
  }

  /** `Module.is_child_of`: false, not an error, for a module without a parent. */
  predicate IsChildOf(m: Module, other: Module) {
    match Parent(m)
    case Ok(p) => p == other
    case Err(_) => false
  }

  /** `Module.is_descendant_of`: the name starts with the other name and a dot. */
  predicate IsDescendantOf(m: Module, other: Module) {
    StartsWith(m.name, other.name + ".")
  }

  /** The module itself or one of its descendants (the relation the unit tests pin down). */
  predicate IsInPackage(m: Module, package: Module) {
    m == package || IsDescendantOf(m, package)
  }

  /** A module has a parent exactly when its name has a dot. */
  lemma {:induction false} ParentExists(m: Module)
    ensures Parent(m).Err? <==> '.' !in m.name
  {
    NotContainsChar(m.name, '.');
    var components := Split(m.name, '.');
    JoinSplit(m.name, ".");
    SplitPartsFree(m.name, '.');
    assert |components| == 1 ==> Join(components, ".") == components[0];
  }

  /** The parent of `a.seg`, for a dot-free last segment `seg`, is `a`. */
  lemma {:induction false} ParentOfChild(a: string, seg: string)
    requires '.' !in seg
    ensures Parent(Module(a + "." + seg)) == Ok(Module(a))
  {
    SplitSnoc(a, '.', seg);
    var parts := Split(a, '.') + [seg];
    assert parts[..|parts| - 1] == Split(a, '.');
    JoinSplit(a, ".");
  }

  /** A module with a parent is its parent's name, a dot and a dot-free last segment. */
  lemma {:induction false} ParentSplitsName(m: Module)
    requires Parent(m).Ok?
    ensures exists seg :: '.' !in seg && m.name == Parent(m).value.name + "." + seg
  {
    var components := Split(m.name, '.');
    var n := |components|;
    JoinSplit(m.name, ".");
    SplitPartsFree(m.name, '.');
    assert components == components[..n - 1] + [components[n - 1]];
    JoinSnoc(components[..n - 1], components[n - 1], ".");
    assert '.' !in components[n - 1];
  }

  /** `is_child_of(p)` holds exactly when the name is `p.name`, a dot and one more segment. */
  lemma {:induction false} ChildOfIff(m: Module, p: Module)
    ensures IsChildOf(m, p) <==> exists seg :: '.' !in seg && m.name == p.name + "." + seg
  {
    if IsChildOf(m, p) {
      ParentSplitsName(m);
    }
    if exists seg :: '.' !in seg && m.name == p.name + "." + seg {
      var seg :| '.' !in seg && m.name == p.name + "." + seg;
      ParentOfChild(p.name, seg);
    }
  }

  /** A child is a descendant. */
  lemma {:induction false} ChildIsDescendant(m: Module, p: Module)
    requires IsChildOf(m, p)
    ensures IsDescendantOf(m, p)
  {
    ChildOfIff(m, p);
    var seg :| '.' !in seg && m.name == p.name + "." + seg;
    assert m.name[..|p.name + "."|] == p.name + ".";
  }

  /** No module is its own descendant. */
  lemma {:induction false} DescendantIrreflexive(m: Module)
    ensures !IsDescendantOf(m, m)
  {
  }

  /** A descendant of a descendant is a descendant. */
  lemma {:induction false} DescendantTransitive(a: Module, b: Module, c: Module)
    requires IsDescendantOf(a, b) && IsDescendantOf(b, c)
    ensures IsDescendantOf(a, c)
  {
    var k := |c.name| + 1;
    assert a.name[..k] == a.name[..|b.name| + 1][..k];
  }

  /** `x` is the part of `s` before its first dot. */
  predicate IsFirstSegment(s: string, x: string) {
    |x| <= |s| && x == s[..|x|] && '.' !in x && (|x| == |s| || s[|x|] == '.')
  }

  /** A string has only one first segment. */
  lemma {:induction false} FirstSegmentUnique(s: string, x: string, y: string)
    requires IsFirstSegment(s, x) && IsFirstSegment(s, y)
    ensures x == y
  {
    forall k | 0 <= k < |y| ensures s[k] != '.' {
      assert s[k] == y[k];
    }
    forall k | 0 <= k < |x| ensures s[k] != '.' {
      assert s[k] == x[k];
    }
  }

  /** The root package of a descendant is the root package of its ancestor. */
  lemma {:induction false} DescendantSharesRoot(m: Module, p: Module)
    requires IsDescendantOf(m, p)
    ensures RootPackageName(m) == RootPackageName(p)
  {
    var r := RootPackageName(p);
    var n := |p.name|;
    assert m.name[..n] == p.name && m.name[n] == '.';
    assert m.name[..|r|] == p.name[..|r|];
    assert |r| < n ==> m.name[|r|] == p.name[|r|];
    FirstSegmentUnique(m.name, r, RootPackageName(m));
  }

  /**
   * `fnmatch.fnmatch(name, pattern)` for patterns whose only special character is `*`:
   * a `*` matches any run of characters, dots included; every other character matches itself.
   */
  predicate GlobMatch(name: string, pattern: string)
    decreases |pattern| + |name|
  {
    if pattern == [] then name == []
    else if pattern[0] == '*' then
      GlobMatch(name, pattern[1..]) || (name != [] && GlobMatch(name[1..], pattern))
    else name != [] && name[0] == pattern[0] && GlobMatch(name[1..], pattern[1..])
  }

  /** A pattern without `*` matches only itself. */
  lemma {:induction false} GlobLiteral(name: string, pattern: string)
    requires '*' !in pattern
    ensures GlobMatch(name, pattern) <==> name == pattern
    decreases |pattern|
  {
    if pattern != [] && name != [] {
      GlobLiteral(name[1..], pattern[1..]);
      if name[0] == pattern[0] && name[1..] == pattern[1..] {
        assert name == [name[0]] + name[1..];
        assert pattern == [pattern[0]] + pattern[1..];
      }
    }
  }

  /** A trailing `*` matches any remainder. */
  lemma {:induction false} GlobStarMatchesAll(name: string)
    ensures GlobMatch(name, "*")
    decreases |name|
  {
    if name != [] {
      GlobStarMatchesAll(name[1..]);
    }
  }

  /** `prefix*`, with no `*` in the prefix, matches exactly the names starting with the prefix. */
  lemma {:induction false} GlobPrefixStar(name: string, prefix: string)
    requires '*' !in prefix
    ensures GlobMatch(name, prefix + "*") <==> StartsWith(name, prefix)
    decreases |prefix|
  {
    if prefix == [] {
      assert prefix + "*" == "*";
      GlobStarMatchesAll(name);
    } else {
      assert (prefix + "*")[1..] == prefix[1..] + "*";
      if name != [] {
        GlobPrefixStar(name[1..], prefix[1..]);
        if name[0] == prefix[0] && StartsWith(name[1..], prefix[1..]) {
          assert name[..|prefix|] == [name[0]] + name[1..][..|prefix| - 1];
          assert prefix == [prefix[0]] + prefix[1..];
        }
        if StartsWith(name, prefix) {
          assert name[1..][..|prefix| - 1] == name[..|prefix|][1..];
        }
      }
    }
  }

  /** Because `*` also matches dots, `pkg.*` matches every descendant of `pkg`, however deep. */
  lemma {:induction false} PackageStarMatchesDescendants(m: Module, p: Module)
    requires '*' !in p.name
    ensures GlobMatch(m.name, p.name + ".*") <==> IsDescendantOf(m, p)
  {
    assert p.name + ".*" == (p.name + ".") + "*";
    GlobPrefixStar(m.name, p.name + ".");
  }

  /** An `importer -> imported` pair of glob patterns. */
  datatype ImportExpression = ImportExpression(importer: string, imported: string)

  /** `ImportExpression.__str__`. */
  function ExpressionString(e: ImportExpression): (r: string)
    ensures |r| == |e.importer| + 4 + |e.imported|
    ensures StartsWith(r, e.importer) && EndsWith(r, e.imported)
  {
    e.importer + " -> " + e.imported
  }

  /**
   * The objects that take part in `ValueObject.__eq__`: a `Module`, an `ImportExpression`,
   * or any other Python value (here, a plain string).
   */
  datatype Value = ModuleValue(m: Module) | ExpressionValue(e: ImportExpression) | PlainString(s: string)

  /** What a value object hashes: the name of a Module, the (importer, imported) tuple of an expression. */
  function HashedKey(v: Value): seq<string> {
    match v
    case ModuleValue(m) => [m.name]
    case ExpressionValue(e) => [e.importer, e.imported]
    case PlainString(s) => [s]
  }

  /** `ValueObject.__eq__`: same class and equal hashes (hash collisions are not modelled). */
  predicate ValueEquals(self: Value, other: Value)
    requires !self.PlainString?
  {
    (self.ModuleValue? == other.ModuleValue?) && (self.ExpressionValue? == other.ExpressionValue?)
    && HashedKey(self) == HashedKey(other)
  }

  /** Two Modules are equal exactly when their names are; a Module never equals a string. */
  lemma {:induction false} ModuleEquality(a: Module, b: Module, s: string)
    ensures ValueEquals(ModuleValue(a), ModuleValue(b)) <==> a.name == b.name
    ensures !ValueEquals(ModuleValue(a), PlainString(s))
  {
    if ValueEquals(ModuleValue(a), ModuleValue(b)) {
      assert HashedKey(ModuleValue(a))[0] == a.name;
    }
  }

  /** Two expressions are equal exactly when both sides are equal. */
  lemma {:induction false} ExpressionEquality(a: ImportExpression, b: ImportExpression)
    ensures ValueEquals(ExpressionValue(a), ExpressionValue(b))
            <==> a.importer == b.importer && a.imported == b.imported
  {
    if ValueEquals(ExpressionValue(a), ExpressionValue(b)) {
      assert HashedKey(ExpressionValue(a))[1] == a.imported;
    }
  }

  /** The names among `modules` that `pattern` matches. */
  function MatchingModules(pattern: string, modules: set<string>): (r: set<string>)
    ensures r <= modules
  {
    set m | m in modules && GlobMatch(m, pattern)
  }

  /** Every (importer, imported) pair of module names an expression resolves to. */
  function MatchedPairs(e: ImportExpression, modules: set<string>): (r: set<(string, string)>)
    ensures forall p :: p in r <==> p.0 in MatchingModules(e.importer, modules)
                                    && p.1 in MatchingModules(e.imported, modules)
  {
    set a, b | a in MatchingModules(e.importer, modules) && b in MatchingModules(e.imported, modules)
      :: (a, b)
  }

  /** A wildcard-free expression resolves to its own pair when both modules exist, else to nothing. */
  lemma {:induction false} LiteralExpressionPairs(e: ImportExpression, modules: set<string>)
    requires '*' !in e.importer && '*' !in e.imported
    ensures MatchedPairs(e, modules)
            == if e.importer in modules && e.imported in modules then {(e.importer, e.imported)} else {}
  {
    forall m | m in modules ensures GlobMatch(m, e.importer) <==> m == e.importer {
      GlobLiteral(m, e.importer);
    }
    forall m | m in modules ensures GlobMatch(m, e.imported) <==> m == e.imported {
      GlobLiteral(m, e.imported);
    }
  }

  /** `itertools.product(xs, ys)`: every x of `xs` paired with every y of `ys`, `xs` outermost. */
  function Product<A(!new), B(!new)>(xs: seq<A>, ys: seq<B>): (r: seq<(A, B)>)
    ensures forall p :: p in r <==> p.0 in xs && p.1 in ys
  {
    if xs == [] then []
    else
      var row := seq(|ys|, j requires 0 <= j < |ys| => (xs[0], ys[j]));
      assert forall p :: p in row <==> p.0 == xs[0] && p.1 in ys by {
        forall p: (A, B) | p.0 == xs[0] && p.1 in ys ensures p in row {
          var j :| 0 <= j < |ys| && ys[j] == p.1;
          assert row[j] == p;
        }
      }
      row + Product(xs[1..], ys)
  }

  /**
   * `ImportExpression.to_modules`: the modules matching the importer side paired with the
   * modules matching the imported side. The graph's modules are visited in an unspecified order.
   */
  method ToModules(e: ImportExpression, modules: set<string>) returns (pairs: seq<(Module, Module)>)
    ensures forall p :: p in pairs <==> (p.0.name, p.1.name) in MatchedPairs(e, modules)
  {
    var importer: seq<Module> := [];
    var imported: seq<Module> := [];
    var rest := modules;
    while rest != {}
      invariant rest <= modules
      invariant forall x :: x in importer <==> x.name in modules - rest && GlobMatch(x.name, e.importer)
      invariant forall x :: x in imported <==> x.name in modules - rest && GlobMatch(x.name, e.imported)
      decreases rest
    {
      var name :| name in rest;
      if GlobMatch(name, e.importer) {
        importer := importer + [Module(name)];
      }
      if GlobMatch(name, e.imported) {
        imported := imported + [Module(name)];
      }
      rest := rest - {name};
    }
    pairs := Product(importer, imported);
  }
}
