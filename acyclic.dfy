/**
 * The acyclic contract (src/importlinter/contracts/acyclic.py): no module of the graph may be
 * part of an import cycle. Optionally the graph is first widened with "package dependencies"
 * (an import between two modules also counts as an import between the packages holding them
 * just below their common package); the cycles found are grouped into families by the package
 * they share and the siblings below it.
 */
module Acyclic {
  import opened Wrappers
  import opened Strings
  import opened Imports
  import opened Graphs
  import Contract

  // ---------------------------------------------------------------------------------------------
  // Parents, and the modules sorted by length
  // ---------------------------------------------------------------------------------------------

  /** The parent of a dotted name (`".".join(name.split(".")[:-1])`), or the name itself when that is empty. */
  function ParentOrSelf(name: string): string {
    var parts := Split(name, '.');
    var parent := Join(parts[..|parts| - 1], ".");
    if parent == "" then name else parent
  }

  /** The parent of a dotted name is what comes before its last dot. */
  lemma {:induction false} ParentOfDotted(parent: string, last: string)
    requires parent != "" && '.' !in last
    ensures ParentOrSelf(parent + "." + last) == parent
  {
    SplitSnoc(parent, '.', last);
    JoinSplit(parent, ".");
  }

  /** A name without a dot is its own parent. */
  lemma {:induction false} ParentOfUndotted(name: string)
    requires '.' !in name
    ensures ParentOrSelf(name) == name
  {
    SplitNoSep(name, '.');
  }

  /** A module lies in the package its parent names (or is that package). */
  lemma {:induction false} ParentContains(name: string)
    ensures IsInPackage(Module(name), Module(ParentOrSelf(name)))
  {
    var parts := Split(name, '.');
    var n := |parts|;
    var parent := Join(parts[..n - 1], ".");
    if parent != "" {
      assert parts == parts[..n - 1] + [parts[n - 1]];
      JoinSnoc(parts[..n - 1], parts[n - 1], ".");
      JoinSplit(name, ".");
      assert name == parent + "." + parts[n - 1];
      assert name[..|parent + "."|] == parent + ".";
    }
  }

  /** Being in a package is transitive. */
  lemma {:induction false} InPackageTransitive(a: string, b: string, c: string)
    requires IsInPackage(Module(a), Module(b)) && IsInPackage(Module(b), Module(c))
    ensures IsInPackage(Module(a), Module(c))
  {
    if a != b && b != c {
      DescendantTransitive(Module(a), Module(b), Module(c));
    }
  }

  /** Inserts `x` before the first element at least as long: the step of a stable sort by length. */
  function InsertByLength(x: string, s: seq<string>): (r: seq<string>)
    ensures |r| == |s| + 1
    ensures r[0] == x || (s != [] && r[0] == s[0])
  {
    if s == [] || |x| <= |s[0]| then [x] + s else [s[0]] + InsertByLength(x, s[1..])
  }

  /** `sorted(modules, key=len)`, which keeps modules of equal length in their given order. */
  function SortByLength(modules: seq<string>): (r: seq<string>)
    ensures |r| == |modules|
  {
    if modules == [] then [] else InsertByLength(modules[0], SortByLength(modules[1..]))
  }

  predicate LengthSorted(s: seq<string>) {
    forall i, j :: 0 <= i < j < |s| ==> |s[i]| <= |s[j]|
  }

  /** Inserting into a list sorted by length keeps it sorted by length. */
  lemma {:induction false} InsertByLengthSorted(x: string, s: seq<string>)
    requires LengthSorted(s)
    ensures LengthSorted(InsertByLength(x, s))
    decreases |s|
  {
    if s != [] && |x| > |s[0]| {
      var r := InsertByLength(x, s[1..]);
      InsertByLengthSorted(x, s[1..]);
      assert |s[0]| <= |r[0]|;
      assert InsertByLength(x, s) == [s[0]] + r;
    }
  }

  /** Inserting adds exactly the one element. */
  lemma {:induction false} InsertByLengthElements(x: string, s: seq<string>)
    ensures multiset(InsertByLength(x, s)) == multiset(s) + multiset{x}
    decreases |s|
  {
    if s != [] && |x| > |s[0]| {
      InsertByLengthElements(x, s[1..]);
      assert s == [s[0]] + s[1..];
    }
  }

  /** The modules sorted by length: the same modules, shortest first. */
  lemma {:induction false} SortByLengthSpec(modules: seq<string>)
    ensures multiset(SortByLength(modules)) == multiset(modules)
    ensures LengthSorted(SortByLength(modules))
    decreases |modules|
  {
    if modules != [] {
      SortByLengthSpec(modules[1..]);
      InsertByLengthSorted(modules[0], SortByLength(modules[1..]));
      InsertByLengthElements(modules[0], SortByLength(modules[1..]));
      assert modules == [modules[0]] + modules[1..];
    }
  }

  /** The sorted list holds the same names. */
  lemma {:induction false} SortByLengthMembers(modules: seq<string>)
    ensures forall m :: m in SortByLength(modules) <==> m in modules
  {
    SortByLengthSpec(modules);
    forall m ensures m in SortByLength(modules) <==> m in modules {
      assert m in SortByLength(modules) <==> m in multiset(SortByLength(modules));
    }
  }

  /** The first of the modules sorted by length is one of them, and none is shorter. */
  lemma {:induction false} ShortestFirst(modules: seq<string>)
    requires |modules| > 0
    ensures SortByLength(modules)[0] in modules
    ensures forall m :: m in modules ==> |SortByLength(modules)[0]| <= |m|
  {
    var s := SortByLength(modules);
    SortByLengthSpec(modules);
    SortByLengthMembers(modules);
    forall m | m in modules ensures |s[0]| <= |m| {
      var k :| 0 <= k < |s| && s[k] == m;
    }
  }

  /** The parents (or the modules themselves, when undotted) of the modules, in order. */
  function Parents(modules: seq<string>): (r: seq<string>)
    ensures |r| == |modules|
    ensures forall k :: 0 <= k < |r| ==> r[k] == ParentOrSelf(modules[k])
  {
    seq(|modules|, k requires 0 <= k < |modules| => ParentOrSelf(modules[k]))
  }

  // ---------------------------------------------------------------------------------------------
  // Common prefixes
  // ---------------------------------------------------------------------------------------------

  /** The length of the longest common prefix of `a` and `b`, element by element. */
  function CommonPrefixLength<T(==)>(a: seq<T>, b: seq<T>): (r: nat)
    ensures r <= |a| && r <= |b|
  {
    if a == [] || b == [] || a[0] != b[0] then 0 else 1 + CommonPrefixLength(a[1..], b[1..])
  }

  /** The two sequences agree on a prefix exactly up to the common length, and differ just after it. */
  lemma {:induction false} CommonPrefixLengthSpec<T>(a: seq<T>, b: seq<T>)
    ensures forall k :: 0 <= k <= |a| && k <= |b| ==> (a[..k] == b[..k] <==> k <= CommonPrefixLength(a, b))
    ensures var r := CommonPrefixLength(a, b);
            r < |a| && r < |b| ==> a[r] != b[r]
    decreases |a|
  {
    var r := CommonPrefixLength(a, b);
    if a != [] && b != [] && a[0] == b[0] {
      CommonPrefixLengthSpec(a[1..], b[1..]);
      assert a[..r] == [a[0]] + a[1..][..r - 1];
      assert b[..r] == [b[0]] + b[1..][..r - 1];
      forall k | 0 <= k <= |a| && k <= |b| ensures a[..k] == b[..k] <==> k <= r {
        if k <= r {
          assert a[..k] == a[..r][..k];
          assert b[..k] == b[..r][..k];
        }
        if k > 0 && a[..k] == b[..k] {
          assert a[1..][..k - 1] == a[..k][1..];
          assert b[1..][..k - 1] == b[..k][1..];
        }
      }
    } else if a != [] && b != [] {
      forall k | 0 < k <= |a| && k <= |b| ensures a[..k] != b[..k] {
        assert a[..k][0] == a[0] && b[..k][0] == b[0];
      }
    }
  }

  /** The length `first` shares with every one of `others`, narrowed one at a time. */
  function SharedLength<T(==)>(first: seq<T>, others: seq<seq<T>>): (r: nat)
    ensures r <= |first|
  {
    if others == [] then |first|
    else
      var before := SharedLength(first, others[..|others| - 1]);
      var here := CommonPrefixLength(first, others[|others| - 1]);
      if here < before then here else before
  }

  /** The shared length is a common prefix of every one of `others`, and the longest one. */
  lemma {:induction false} SharedLengthSpec<T>(first: seq<T>, others: seq<seq<T>>)
    ensures forall k :: 0 <= k < |others| ==> SharedLength(first, others) <= |others[k]|
                                               && first[..SharedLength(first, others)] == others[k][..SharedLength(first, others)]
    ensures forall n :: 0 <= n <= |first| && (forall k :: 0 <= k < |others| ==> n <= |others[k]| && first[..n] == others[k][..n])
                        ==> n <= SharedLength(first, others)
    decreases |others|
  {
    if others != [] {
      var init := others[..|others| - 1];
      var last := others[|others| - 1];
      SharedLengthSpec(first, init);
      CommonPrefixLengthSpec(first, last);
      var r := SharedLength(first, others);
      forall k | 0 <= k < |others| ensures r <= |others[k]| && first[..r] == others[k][..r] {
        if k < |others| - 1 {
          assert others[k] == init[k];
          var b := SharedLength(first, init);
          assert first[..r] == first[..b][..r];
          assert others[k][..r] == others[k][..b][..r];
        }
      }
      forall n | 0 <= n <= |first| && (forall k :: 0 <= k < |others| ==> n <= |others[k]| && first[..n] == others[k][..n])
        ensures n <= r
      {
        forall k | 0 <= k < |init| ensures n <= |init[k]| && first[..n] == init[k][..n] {
          assert init[k] == others[k];
        }
        assert n <= SharedLength(first, init);
        assert n <= |last| && first[..n] == last[..n];
        assert n <= CommonPrefixLength(first, last);
      }
    } else {
      assert SharedLength(first, others) == |first|;
    }
  }

  // ---------------------------------------------------------------------------------------------
  // `_longest_common_package` as written
  // ---------------------------------------------------------------------------------------------

  /** The check inside the loop that raises: the first characters of two non-empty parents differ. */
  predicate FirstCharsDiffer(first: string, parent: string) {
    |first| > 0 && |parent| > 0 && first[0] != parent[0]
  }

  /** Some later parent starts with another character than the first parent. */
  predicate FirstCharsDiverge(parents: seq<string>) {
    exists k :: 1 <= k < |parents| && FirstCharsDiffer(parents[0], parents[k])
  }

  /** Python's `repr` of a tuple of names (names holding quotes or backslashes are not escaped). */
  function TupleRepr(names: seq<string>): string {
    var quoted := seq(|names|, k requires 0 <= k < |names| => "'" + names[k] + "'");
    if |names| == 1 then "(" + quoted[0] + ",)" else "(" + Join(quoted, ", ") + ")"
  }

  function NoCommonPackageMessage(modules: seq<string>): string {
    "No common package for the provided modules: " + TupleRepr(modules)
  }

  /**
   * The outer `for` loop of `_longest_common_package` as written, on the parents: the first
   * parent cut, character by character, to what it has in common with the LAST of the other
   * parents only, because the loop restarts from the full length for each parent; nothing (the
   * error) when the first characters of the first parent and any other differ.
   */
  function CommonPrefixAsWritten(parents: seq<string>): Option<string>
    requires |parents| > 0
  {
    var first := parents[0];
    if FirstCharsDiverge(parents) then None
    else if |parents| == 1 then Some(first)
    else Some(first[..CommonPrefixLength(first, parents[|parents| - 1])])
  }

  /** `_longest_common_package` as written: the parents of the modules sorted by length, then the loop. */
  function LongestCommonPackageAsWritten(modules: seq<string>): Result<string>
    requires |modules| > 0
  {
    match CommonPrefixAsWritten(Parents(SortByLength(modules)))
    case None => Err(NoCommonPackageMessage(modules))
    case Some(package) => Ok(package)
  }

  /**
   * The inner `while` loop for one parent: starting from the shorter length, shorten until the
   * prefixes agree; reaching zero raises.
   */
  method ShortenToCommon(first: string, parent: string) returns (currentLength: nat, raised: bool)
    ensures raised <==> FirstCharsDiffer(first, parent)
    ensures !raised ==> currentLength == CommonPrefixLength(first, parent)
  {
    CommonPrefixLengthSpec(first, parent);
    currentLength := if |first| < |parent| then |first| else |parent|;
    raised := false;
    while currentLength > 0 && first[0..currentLength] != parent[0..currentLength]
      invariant CommonPrefixLength(first, parent) <= currentLength <= |first|
      invariant currentLength <= |parent|
      invariant currentLength == 0 ==> |first| == 0 || |parent| == 0
    {
      currentLength := currentLength - 1;
      if currentLength == 0 {
        raised := true;
        return;
      }
    }
    if currentLength > 0 {
      assert first[..currentLength][0] == parent[..currentLength][0];
    }
  }

  /** The outer loop of `_longest_common_package` as written, over the parents. */
  method CommonPrefixLoop(parents: seq<string>) returns (r: Option<string>)
    requires |parents| > 0
    ensures r == CommonPrefixAsWritten(parents)
  {
    var first := parents[0];
    var currentLength := |first|;
    var i := 1;
    while i < |parents|
      invariant 1 <= i <= |parents|
      invariant forall k :: 1 <= k < i ==> !FirstCharsDiffer(first, parents[k])
      invariant currentLength == if i == 1 then |first| else CommonPrefixLength(first, parents[i - 1])
    {
      var raised;
      currentLength, raised := ShortenToCommon(first, parents[i]);
      if raised {
        assert FirstCharsDiverge(parents) by {
          assert FirstCharsDiffer(parents[0], parents[i]);
        }
        return None;
      }
      i := i + 1;
    }
    assert !FirstCharsDiverge(parents);
    assert i == 1 ==> first[0..currentLength] == first;
    r := Some(first[0..currentLength]);
  }

  /** `_longest_common_package` as written: the parents of the modules sorted by length, then the loop. */
  method LongestCommonPackageLoop(modules: seq<string>) returns (r: Result<string>)
    requires |modules| > 0
    ensures r == LongestCommonPackageAsWritten(modules)
  {
    var common := CommonPrefixLoop(Parents(SortByLength(modules)));
    r := if common.Some? then Ok(common.value) else Err(NoCommonPackageMessage(modules));
  }

  // ---------------------------------------------------------------------------------------------
  // `_longest_common_package` as evidently intended
  // ---------------------------------------------------------------------------------------------

  /** The dot-separated segments of each name. */
  function SegmentsOf(names: seq<string>): (r: seq<seq<string>>)
    ensures |r| == |names|
    ensures forall k :: 0 <= k < |r| ==> r[k] == Split(names[k], '.')
  {
    seq(|names|, k requires 0 <= k < |names| => Split(names[k], '.'))
  }

  /**
   * The innermost package holding every parent: the segments the first parent shares with all
   * the others, or nothing when even the first segments differ.
   */
  function CommonPackage(parents: seq<string>): Option<string>
    requires |parents| > 0
  {
    var segments := SegmentsOf(parents);
    var n := SharedLength(segments[0], segments[1..]);
    if n == 0 then None else Some(Join(segments[0][..n], "."))
  }

  /** A name joined from some of the segments of another holds it. */
  lemma {:induction false} JoinPrefixInPackage(parts: seq<string>, m: nat)
    requires 1 <= m <= |parts|
    ensures IsInPackage(Module(Join(parts, ".")), Module(Join(parts[..m], ".")))
  {
    if m < |parts| {
      var head := Join(parts[..m], ".");
      assert parts == parts[..m] + parts[m..];
      JoinAppend(parts[..m], parts[m..], ".");
      assert Join(parts, ".")[..|head + "."|] == head + ".";
    } else {
      assert parts[..m] == parts;
    }
  }

  /** The segments of a package start the segments of every module in it. */
  lemma {:induction false} InPackageSegments(name: string, package: string)
    requires IsInPackage(Module(name), Module(package))
    ensures |Split(package, '.')| <= |Split(name, '.')|
    ensures Split(name, '.')[..|Split(package, '.')|] == Split(package, '.')
  {
    if name != package {
      var rest := name[|package| + 1..];
      assert name == package + ['.'] + rest;
      SplitAppend(package, '.', rest);
    }
  }

  /** Every parent lies in the common package. */
  lemma {:induction false} CommonPackageSpec(parents: seq<string>)
    requires |parents| > 0
    ensures CommonPackage(parents).Some? ==>
              forall k :: 0 <= k < |parents| ==> IsInPackage(Module(parents[k]), Module(CommonPackage(parents).value))
  {
    var segments := SegmentsOf(parents);
    var n := SharedLength(segments[0], segments[1..]);
    SharedLengthSpec(segments[0], segments[1..]);
    if n > 0 {
      forall k | 0 <= k < |parents| ensures IsInPackage(Module(parents[k]), Module(Join(segments[0][..n], "."))) {
        JoinSplit(parents[k], ".");
        if k > 0 {
          assert segments[k] == segments[1..][k - 1];
        }
        JoinPrefixInPackage(segments[k], n);
      }
    }
  }

  /** Any package holding every parent holds the common package, which therefore exists. */
  lemma {:induction false} CommonPackageInnermost(parents: seq<string>, q: string)
    requires |parents| > 0
    requires forall k :: 0 <= k < |parents| ==> IsInPackage(Module(parents[k]), Module(q))
    ensures CommonPackage(parents).Some? && IsInPackage(Module(CommonPackage(parents).value), Module(q))
  {
    var segments := SegmentsOf(parents);
    var first := segments[0];
    var others := segments[1..];
    var n := SharedLength(first, others);
    var qs := Split(q, '.');
    var m := |qs|;
    forall k | 0 <= k < |parents| ensures m <= |segments[k]| && segments[k][..m] == qs {
      InPackageSegments(parents[k], q);
    }
    forall j | 0 <= j < |others| ensures m <= |others[j]| && first[..m] == others[j][..m] {
      assert others[j] == segments[j + 1];
    }
    SharedLengthSpec(first, others);
    JoinSplit(q, ".");
    assert first[..n][..m] == qs;
    JoinPrefixInPackage(first[..n], m);
  }

  /**
   * `_longest_common_package` as evidently intended: the innermost package holding the parent
   * (or the undotted name itself) of every module, and the same error when there is none.
   */
  function LongestCommonPackage(modules: seq<string>): Result<string>
    requires |modules| > 0
  {
    match CommonPackage(Parents(SortByLength(modules)))
    case None => Err(NoCommonPackageMessage(modules))
    case Some(package) => Ok(package)
  }

  /** The package found holds the parent of every module. */
  lemma {:induction false} LongestCommonPackageSpec(modules: seq<string>)
    requires |modules| > 0
    ensures LongestCommonPackage(modules).Ok? ==>
              forall m :: m in modules ==> IsInPackage(Module(ParentOrSelf(m)), Module(LongestCommonPackage(modules).value))
  {
    var sorted := SortByLength(modules);
    var parents := Parents(sorted);
    SortByLengthMembers(modules);
    CommonPackageSpec(parents);
    forall m | m in modules && LongestCommonPackage(modules).Ok?
      ensures IsInPackage(Module(ParentOrSelf(m)), Module(LongestCommonPackage(modules).value))
    {
      var k :| 0 <= k < |sorted| && sorted[k] == m;
      assert parents[k] == ParentOrSelf(m);
    }
  }

  /**
   * Whenever some package holds the parent of every module, the result is a package, and it is
   * the innermost one: the error is raised exactly when no package holds them all.
   */
  lemma {:induction false} LongestCommonPackageInnermost(modules: seq<string>, q: string)
    requires |modules| > 0
    requires forall m :: m in modules ==> IsInPackage(Module(ParentOrSelf(m)), Module(q))
    ensures LongestCommonPackage(modules).Ok?
    ensures IsInPackage(Module(LongestCommonPackage(modules).value), Module(q))
  {
    var sorted := SortByLength(modules);
    var parents := Parents(sorted);
    SortByLengthMembers(modules);
    forall k | 0 <= k < |parents| ensures IsInPackage(Module(parents[k]), Module(q)) {
      assert sorted[k] in modules;
    }
    CommonPackageInnermost(parents, q);
  }

  // ---------------------------------------------------------------------------------------------
  // `_get_package_dependency`
  // ---------------------------------------------------------------------------------------------

  /**
   * `_get_package_dependency` once the common package is known: no dependency without a common
   * package or when it is one of the two modules; otherwise the children of the common package
   * that the two modules are found under, unless those are the modules themselves.
   */
  function PackageDependencyFrom(common: Result<string>, importer: string, imported: string): Option<(string, string)> {
    match common
    case Err(_) => None
    case Ok(package) =>
      if package == importer || package == imported then None
      else
        var importerPackage := package + "." + Split(RemovePrefix(importer, package + "."), '.')[0];
        var importedPackage := package + "." + Split(RemovePrefix(imported, package + "."), '.')[0];
        if (importer, imported) == (importerPackage, importedPackage) then None
        else Some((importerPackage, importedPackage))
  }

  /** `_get_package_dependency` as written, on the character-wise common prefix. */
  function PackageDependencyAsWritten(importer: string, imported: string): Option<(string, string)> {
    PackageDependencyFrom(LongestCommonPackageAsWritten([importer, imported]), importer, imported)
  }

  /** `_get_package_dependency`: the loops of `_longest_common_package`, then the dependency. */
  method GetPackageDependency(importer: string, imported: string) returns (r: Option<(string, string)>)
    ensures r == PackageDependencyAsWritten(importer, imported)
  {
    var commonPackage := LongestCommonPackageLoop([importer, imported]);
    r := PackageDependencyFrom(commonPackage, importer, imported);
  }

  /** `_get_package_dependency` on the innermost common package. */
  function PackageDependency(importer: string, imported: string): Option<(string, string)> {
    PackageDependencyFrom(LongestCommonPackage([importer, imported]), importer, imported)
  }

  /** The child of `package` that a module inside it (and not the package itself) lies in. */
  lemma {:induction false} ChildContaining(name: string, package: string)
    requires IsInPackage(Module(name), Module(package)) && name != package
    ensures var child := package + "." + Split(RemovePrefix(name, package + "."), '.')[0];
            IsChildOf(Module(child), Module(package)) && IsInPackage(Module(name), Module(child))
  {
    var rest := RemovePrefix(name, package + ".");
    var x := Split(rest, '.')[0];
    var child := package + "." + x;
    SplitFirst(rest, '.');
    ChildOfIff(Module(child), Module(package));
    assert name == package + "." + rest;
    if |x| < |rest| {
      assert rest == x + rest[|x|..];
      assert name == child + rest[|x|..];
      assert name[..|child + "."|] == child + ".";
    }
  }

  /** Two children of `package` yield no dependency: they already are the packages. */
  lemma {:induction false} ChildrenGiveNothing(importer: string, imported: string, package: string)
    requires IsChildOf(Module(importer), Module(package)) && IsChildOf(Module(imported), Module(package))
    ensures PackageDependencyFrom(Ok(package), importer, imported).None?
  {
    ChildOfIff(Module(importer), Module(package));
    ChildOfIff(Module(imported), Module(package));
    var x :| '.' !in x && importer == package + "." + x;
    var y :| '.' !in y && imported == package + "." + y;
    assert RemovePrefix(importer, package + ".") == x;
    assert RemovePrefix(imported, package + ".") == y;
    SplitNoSep(x, '.');
    SplitNoSep(y, '.');
  }

  /**
   * A package dependency joins two children of the innermost common package, the importer
   * lying in the first and the imported module in the second, and it is never the import it
   * came from; two modules that already are children of their common package yield none.
   */
  lemma {:induction false} PackageDependencySpec(importer: string, imported: string)
    ensures PackageDependency(importer, imported).Some? ==>
              var d := PackageDependency(importer, imported).value;
              var common := LongestCommonPackage([importer, imported]);
              && common.Ok?
              && d != (importer, imported)
              && IsChildOf(Module(d.0), Module(common.value)) && IsChildOf(Module(d.1), Module(common.value))
              && IsInPackage(Module(importer), Module(d.0)) && IsInPackage(Module(imported), Module(d.1))
    ensures var common := LongestCommonPackage([importer, imported]);
            common.Ok? && IsChildOf(Module(importer), Module(common.value)) && IsChildOf(Module(imported), Module(common.value))
            ==> PackageDependency(importer, imported).None?
  {
    var common := LongestCommonPackage([importer, imported]);
    if common.Ok? {
      var package := common.value;
      LongestCommonPackageSpec([importer, imported]);
      ParentContains(importer);
      ParentContains(imported);
      assert importer in [importer, imported] && imported in [importer, imported];
      InPackageTransitive(importer, ParentOrSelf(importer), package);
      InPackageTransitive(imported, ParentOrSelf(imported), package);
      if importer != package && imported != package {
        ChildContaining(importer, package);
        ChildContaining(imported, package);
      }
      if IsChildOf(Module(importer), Module(package)) && IsChildOf(Module(imported), Module(package)) {
        ChildrenGiveNothing(importer, imported, package);
      }
    }
  }

  // ---------------------------------------------------------------------------------------------
  // Where the code as written and the intended common package part
  // ---------------------------------------------------------------------------------------------

  /** Modules all of one length stay in their order. */
  lemma {:induction false} SortByLengthEqualLengths(modules: seq<string>)
    requires forall k :: 0 <= k < |modules| ==> |modules[k]| == |modules[0]|
    ensures SortByLength(modules) == modules
    decreases |modules|
  {
    if modules != [] {
      SortByLengthEqualLengths(modules[1..]);
    }
  }

  /** The common length is `n` when the prefixes of length `n` agree and the next elements differ. */
  lemma {:induction false} CommonPrefixLengthIs<T>(a: seq<T>, b: seq<T>, n: nat)
    requires n <= |a| && n <= |b| && a[..n] == b[..n]
    requires n < |a| && n < |b| ==> a[n] != b[n]
    ensures CommonPrefixLength(a, b) == n
  {
    CommonPrefixLengthSpec(a, b);
    if n < |a| && n < |b| {
      assert a[..n + 1][n] != b[..n + 1][n];
    }
  }

  /** The first part of a name is what comes before its first dot. */
  lemma {:induction false} SplitHead(x: string, rest: string)
    requires '.' !in x
    ensures Split(x + "." + rest, '.')[0] == x
  {
    SplitAppend(x, '.', rest);
    SplitNoSep(x, '.');
  }

  /** Parents that are all children of `p`, not all the same child, have `p` as their common package. */
  lemma {:induction false} CommonPackageOfSiblings(parents: seq<string>, p: string, xs: seq<string>, j: nat)
    requires |parents| == |xs| && 0 < j < |xs| && xs[j] != xs[0]
    requires forall k :: 0 <= k < |xs| ==> '.' !in xs[k] && parents[k] == p + "." + xs[k]
    ensures CommonPackage(parents) == Some(p)
  {
    var ps := Split(p, '.');
    var n := |ps|;
    var segments := SegmentsOf(parents);
    forall k | 0 <= k < |xs| ensures segments[k] == ps + [xs[k]] {
      SplitSnoc(p, '.', xs[k]);
    }
    var first := segments[0];
    var others := segments[1..];
    forall k | 0 <= k < |others| ensures n <= |others[k]| && first[..n] == others[k][..n] {
      assert others[k] == ps + [xs[k + 1]];
      assert first[..n] == ps && others[k][..n] == ps;
    }
    SharedLengthSpec(first, others);
    var r := SharedLength(first, others);
    var other := others[j - 1];
    assert other == ps + [xs[j]];
    assert first[..n] == ps && other[..n] == ps;
    CommonPrefixLengthIs(first, other, n);
    CommonPrefixLengthSpec(first, other);
    JoinSplit(p, ".");
  }

  /** Two modules below different children `x` and `y` of `package` give the dependency between those children. */
  lemma {:induction false} DependencyOfChildren(package: string, x: string, xs: string, y: string, ys: string)
    requires '.' !in x && '.' !in y
    ensures PackageDependencyFrom(Ok(package), package + "." + x + "." + xs, package + "." + y + "." + ys)
            == Some((package + "." + x, package + "." + y))
  {
    var importer := package + "." + x + "." + xs;
    var imported := package + "." + y + "." + ys;
    assert importer == (package + ".") + (x + "." + xs);
    assert imported == (package + ".") + (y + "." + ys);
    assert StartsWith(importer, package + ".") && StartsWith(imported, package + ".");
    assert RemovePrefix(importer, package + ".") == x + "." + xs;
    assert RemovePrefix(imported, package + ".") == y + "." + ys;
    SplitHead(x, xs);
    SplitHead(y, ys);
  }

  /**
   * When a module does not start with the common package and a dot, the code as written
   * appends the module's own first segment to the common package.
   */
  lemma {:induction false} DependencyOutsidePrefix(package: string, x: string, xs: string, y: string, ys: string)
    requires '.' !in x && '.' !in y
    requires !StartsWith(x + "." + xs, package + ".") && !StartsWith(y + "." + ys, package + ".")
    requires package != x + "." + xs && package != y + "." + ys
    requires package + "." + x != x + "." + xs
    ensures PackageDependencyFrom(Ok(package), x + "." + xs, y + "." + ys) == Some((package + "." + x, package + "." + y))
  {
    SplitHead(x, xs);
    SplitHead(y, ys);
  }

  /** Three modules below two children `b` and `c` of `p`, all of one length; their parents. */
  lemma {:induction false} ResetExampleParents(p: string, b: string, c: string, x: string, y: string, z: string)
    requires '.' !in x && '.' !in y && '.' !in z && |b| == |c| && |x| == |y| == |z|
    ensures Parents(SortByLength([p + "." + b + "." + x, p + "." + c + "." + y, p + "." + b + "." + z]))
            == [p + "." + b, p + "." + c, p + "." + b]
  {
    SortByLengthEqualLengths([p + "." + b + "." + x, p + "." + c + "." + y, p + "." + b + "." + z]);
    ParentOfDotted(p + "." + b, x);
    ParentOfDotted(p + "." + c, y);
    ParentOfDotted(p + "." + b, z);
  }

  /** Parents that start alike, the first repeated last: the loop as written answers the first. */
  lemma {:induction false} ResetExampleAsWritten(first: string, second: string)
    requires first != [] && second != [] && first[0] == second[0]
    ensures CommonPrefixAsWritten([first, second, first]) == Some(first)
  {
    var parents := [first, second, first];
    assert !FirstCharsDiverge(parents);
    CommonPrefixLengthIs(first, first, |first|);
    assert first[..|first|] == first;
  }

  /**
   * The loop as written keeps only what the first parent shares with the last one: for modules
   * such as (`a.b.x`, `a.c.y`, `a.b.z`) it answers `a.b`, which does not hold `a.c`, where the
   * innermost common package is `a`.
   */
  lemma {:induction false} LongestCommonPackageResetCounterexample(p: string, b: string, c: string, x: string, y: string, z: string)
    requires p != "" && '.' !in b && '.' !in c && '.' !in x && '.' !in y && '.' !in z
    requires b != c && |b| == |c| && |x| == |y| == |z|
    ensures LongestCommonPackageAsWritten([p + "." + b + "." + x, p + "." + c + "." + y, p + "." + b + "." + z])
            == Ok(p + "." + b)
    ensures !IsInPackage(Module(p + "." + c), Module(p + "." + b))
    ensures LongestCommonPackage([p + "." + b + "." + x, p + "." + c + "." + y, p + "." + b + "." + z]) == Ok(p)
  {
    ResetExampleParents(p, b, c, x, y, z);
    ResetExampleAsWritten(p + "." + b, p + "." + c);
    ResetExampleIntended(p, b, c);
    ResetExampleApart(p, b, c);
  }

  /** Two siblings of one length are distinct modules, neither inside the other. */
  lemma {:induction false} ResetExampleApart(p: string, b: string, c: string)
    requires b != c && |b| == |c|
    ensures !IsInPackage(Module(p + "." + c), Module(p + "." + b))
  {
    var first, second := p + "." + b, p + "." + c;
    assert second[|p| + 1..] == c && first[|p| + 1..] == b;
    assert first != second;
    assert |first + "."| > |second|;
  }

  /** The innermost package holding `p.b`, `p.c` and `p.b` again is `p`. */
  lemma {:induction false} ResetExampleIntended(p: string, b: string, c: string)
    requires p != "" && '.' !in b && '.' !in c && b != c && |b| == |c|
    ensures CommonPackage([p + "." + b, p + "." + c, p + "." + b]) == Some(p)
  {
    var first := p + "." + b;
    var second := p + "." + c;
    assert second[|p| + 1..] == c && first[|p| + 1..] == b;
    var parents, xs := [first, second, first], [b, c, b];
    forall k | 0 <= k < |xs| ensures '.' !in xs[k] && parents[k] == p + "." + xs[k] {
      if k == 1 {
        assert parents[k] == second && xs[k] == c;
      } else {
        assert parents[k] == first && xs[k] == b;
      }
    }
    CommonPackageOfSiblings(parents, p, xs, 1);
  }

  /** Two modules below siblings whose names start differently, and their parents. */
  lemma {:induction false} CharwiseExampleParents(p: string, c: string, d: string, x: string, z: string)
    requires '.' !in x && '.' !in z && |c| == |d| && |x| == |z|
    ensures Parents(SortByLength([p + "." + c + "." + x, p + "." + d + "." + z])) == [p + "." + c, p + "." + d]
  {
    SortByLengthEqualLengths([p + "." + c + "." + x, p + "." + d + "." + z]);
    ParentOfDotted(p + "." + c, x);
    ParentOfDotted(p + "." + d, z);
  }

  /** The character-wise common prefix of `p.c` and `p.d`, when `c` and `d` start differently, is `p.`. */
  lemma {:induction false} CharwiseExampleAsWritten(p: string, c: string, d: string)
    requires p != "" && c != [] && d != [] && c[0] != d[0]
    ensures CommonPrefixAsWritten([p + "." + c, p + "." + d]) == Some(p + ".")
  {
    var parents := [p + "." + c, p + "." + d];
    assert !FirstCharsDiverge(parents);
    assert parents[0][..|p| + 1] == p + "." == parents[1][..|p| + 1];
    assert parents[0][|p| + 1] == c[0] && parents[1][|p| + 1] == d[0];
    CommonPrefixLengthIs(parents[0], parents[1], |p| + 1);
  }

  /** What the code as written derives from the character-wise common package `a.b.`. */
  lemma {:induction false} CharwiseExampleDependency(a: string, b: string, c: string, d: string, x: string, z: string)
    requires '.' !in a && '.' !in c && '.' !in d && '.' !in x && '.' !in z && c != [] && d != []
    ensures var p := a + "." + b;
            PackageDependencyFrom(Ok(p + "."), p + "." + c + "." + x, p + "." + d + "." + z) == Some((p + ".." + a, p + ".." + a))
  {
    var p := a + "." + b;
    var importer := p + "." + c + "." + x;
    var imported := p + "." + d + "." + z;
    assert importer == a + "." + (b + "." + c + "." + x);
    assert imported == a + "." + (b + "." + d + "." + z);
    assert importer[|p| + 1] == c[0] && imported[|p| + 1] == d[0];
    assert (p + ".") + "." + a == p + ".." + a;
    DependencyOutsidePrefix(p + ".", a, b + "." + c + "." + x, a, b + "." + d + "." + z);
  }

  /**
   * The character-wise prefix can stop just after a dot: for an import such as
   * `a.b.c.x -> a.b.d.z` the code as written finds the common package `a.b.`, which neither
   * module starts with followed by a dot, and derives the dependency `a.b..a -> a.b..a` between
   * modules that do not exist; the innermost common package `a.b` gives `a.b.c -> a.b.d`.
   */
  lemma {:induction false} PackageDependencyCharwiseCounterexample(a: string, b: string, c: string, d: string, x: string, z: string)
    requires a != "" && '.' !in a && '.' !in c && '.' !in d && '.' !in x && '.' !in z
    requires |c| == |d| && |x| == |z| && c != [] && c[0] != d[0]
    ensures var p := a + "." + b;
            LongestCommonPackageAsWritten([p + "." + c + "." + x, p + "." + d + "." + z]) == Ok(p + ".")
    ensures var p := a + "." + b;
            PackageDependencyAsWritten(p + "." + c + "." + x, p + "." + d + "." + z) == Some((p + ".." + a, p + ".." + a))
    ensures var p := a + "." + b;
            PackageDependency(p + "." + c + "." + x, p + "." + d + "." + z) == Some((p + "." + c, p + "." + d))
  {
    var p := a + "." + b;
    CharwiseExampleParents(p, c, d, x, z);
    CharwiseExampleAsWritten(p, c, d);
    CommonPackageOfSiblings([p + "." + c, p + "." + d], p, [c, d], 1);
    CharwiseExampleDependency(a, b, c, d, x, z);
    DependencyOfChildren(p, c, x, d, z);
  }

  // ---------------------------------------------------------------------------------------------
  // `Cycle.family_key`
  // ---------------------------------------------------------------------------------------------

  /** The members of a cycle `find_shortest_cycle` reports: never empty. */
  type CycleMembers = s: seq<string> | |s| > 0 witness ["m"]

  /**
   * The key of a cycle family: the package the cycle's members share and the children of that
   * package the cycle runs through, sorted.
   */
  datatype CyclesFamilyKey = CyclesFamilyKey(parent: string, siblings: seq<string>)

  /** The name of `member` cut one segment below `parent` (`".".join(member.split(".")[:nesting + 2])`). */
  function SiblingOf(member: string, parent: string): string {
    Truncate(member, CountChar(parent, '.') + 2)
  }

  /** The siblings the members other than the parent stand for. */
  function SiblingSet(members: seq<string>, parent: string): set<string> {
    set m | m in members && StartsWith(m, parent) && m != parent :: SiblingOf(m, parent)
  }

  /** `Cycle.family_key` once the common package is known: its error, or the package and the siblings sorted. */
  function FamilyKeyOf(common: Result<string>, members: seq<string>): Result<CyclesFamilyKey> {
    match common
    case Err(message) => Err(message)
    case Ok(parent) => Ok(CyclesFamilyKey(parent, Sorted(SiblingSet(members, parent))))
  }

  /** `Cycle.family_key` as written, on the character-wise common prefix of `_longest_common_package`. */
  function FamilyKey(members: CycleMembers): Result<CyclesFamilyKey> {
    FamilyKeyOf(LongestCommonPackageAsWritten(members), members)
  }

  /** `Cycle.family_key` as evidently intended, on the innermost common package of the members. */
  function FamilyKeyIntended(members: CycleMembers): Result<CyclesFamilyKey> {
    FamilyKeyOf(LongestCommonPackage(members), members)
  }

  /** Below a package, cutting a module one segment deeper names the child of the package it lies in. */
  lemma {:induction false} SiblingOfChild(member: string, parent: string)
    requires IsInPackage(Module(member), Module(parent)) && member != parent
    ensures SiblingOf(member, parent) == parent + "." + Split(RemovePrefix(member, parent + "."), '.')[0]
  {
    var rest := member[|parent| + 1..];
    assert member == parent + "." + rest;
    assert RemovePrefix(member, parent + ".") == rest;
    var head := Split(parent, '.');
    var tail := Split(rest, '.');
    SplitAppend(parent, '.', rest);
    SplitCount(parent, '.');
    assert Split(member, '.')[..CountChar(parent, '.') + 2] == head + [tail[0]];
    JoinSnoc(head, tail[0], ".");
    JoinSplit(parent, ".");
  }

  /** Every module lies in the package found for it and the other modules. */
  lemma {:induction false} MembersInCommonPackage(modules: seq<string>)
    requires |modules| > 0
    ensures LongestCommonPackage(modules).Ok? ==>
              forall m :: m in modules ==> IsInPackage(Module(m), Module(LongestCommonPackage(modules).value))
  {
    if LongestCommonPackage(modules).Ok? {
      var parent := LongestCommonPackage(modules).value;
      LongestCommonPackageSpec(modules);
      forall m | m in modules ensures IsInPackage(Module(m), Module(parent)) {
        ParentContains(m);
        InPackageTransitive(m, ParentOrSelf(m), parent);
      }
    }
  }

  /**
   * For members inside `parent`, each sibling is a child of `parent` holding some member, and
   * each member other than `parent` lies in the sibling it stands for.
   */
  lemma {:induction false} SiblingSetSpec(members: seq<string>, parent: string)
    requires forall m :: m in members ==> IsInPackage(Module(m), Module(parent))
    ensures forall s :: s in SiblingSet(members, parent) ==>
              IsChildOf(Module(s), Module(parent)) && exists m :: m in members && IsInPackage(Module(m), Module(s))
    ensures forall m :: m in members && m != parent ==>
              SiblingOf(m, parent) in SiblingSet(members, parent) && IsInPackage(Module(m), Module(SiblingOf(m, parent)))
  {
    var siblings := SiblingSet(members, parent);
    forall s | s in siblings
      ensures IsChildOf(Module(s), Module(parent))
      ensures exists m :: m in members && IsInPackage(Module(m), Module(s))
    {
      var m :| m in members && StartsWith(m, parent) && m != parent && s == SiblingOf(m, parent);
      SiblingOfChild(m, parent);
      ChildContaining(m, parent);
    }
    forall m | m in members && m != parent
      ensures SiblingOf(m, parent) in siblings && IsInPackage(Module(m), Module(SiblingOf(m, parent)))
    {
      SiblingOfChild(m, parent);
      ChildContaining(m, parent);
    }
  }

  /**
   * The intended family key names the package holding every member of the cycle; each sibling is a child
   * of it that holds some member, and every member other than the package lies in a sibling.
   */
  lemma {:induction false} FamilyKeyIntendedSpec(members: CycleMembers)
    ensures FamilyKeyIntended(members).Ok? ==>
              var key := FamilyKeyIntended(members).value;
              && (forall m :: m in members ==> IsInPackage(Module(m), Module(key.parent)))
              && (forall s :: s in key.siblings ==> IsChildOf(Module(s), Module(key.parent)))
              && (forall s :: s in key.siblings ==> exists m :: m in members && IsInPackage(Module(m), Module(s)))
              && (forall m :: m in members && m != key.parent ==>
                    exists s :: s in key.siblings && IsInPackage(Module(m), Module(s)))
  {
    if FamilyKeyIntended(members).Ok? {
      var parent := FamilyKeyIntended(members).value.parent;
      MembersInCommonPackage(members);
      SiblingSetSpec(members, parent);
      forall m | m in members && m != parent
        ensures exists s :: s in FamilyKeyIntended(members).value.siblings && IsInPackage(Module(m), Module(s))
      {
        assert SiblingOf(m, parent) in FamilyKeyIntended(members).value.siblings;
      }
    }
  }

  /** A member cut to a number of segments lies in the cut name, made of that many first segments. */
  lemma {:induction false} TruncatedHolds(member: string, n: nat)
    requires n >= 1
    ensures var parts := Split(member, '.');
            && Split(Truncate(member, n), '.') == parts[..if n < |parts| then n else |parts|]
            && IsInPackage(Module(member), Module(Truncate(member, n)))
  {
    var parts := Split(member, '.');
    TruncateSpec(member, n);
    JoinSplit(member, ".");
    JoinPrefixInPackage(parts, if n < |parts| then n else |parts|);
  }

  /**
   * `s` is `m` cut to one segment more than `parent` has (or all of `m`, when shorter), a name
   * that `m` lies in.
   */
  predicate CutBelow(s: string, m: string, parent: string) {
    var parts := Split(m, '.');
    var n := CountChar(parent, '.') + 2;
    IsInPackage(Module(m), Module(s)) && Split(s, '.') == parts[..if n < |parts| then n else |parts|]
  }

  /** Every sibling collected is some member starting with the parent, other than it, cut below it. */
  lemma {:induction false} SiblingSetCuts(members: seq<string>, parent: string)
    ensures forall s :: s in SiblingSet(members, parent) ==>
              exists m :: m in members && StartsWith(m, parent) && m != parent && CutBelow(s, m, parent)
  {
    forall s | s in SiblingSet(members, parent)
      ensures exists m :: m in members && StartsWith(m, parent) && m != parent && CutBelow(s, m, parent)
    {
      var m :| m in members && StartsWith(m, parent) && m != parent && s == SiblingOf(m, parent);
      TruncatedHolds(m, CountChar(parent, '.') + 2);
    }
  }

  /**
   * The prefix the loop as written keeps, when it raises no error: a prefix of the first and of
   * the last parent, up to the first character in which those two differ.
   */
  lemma {:induction false} CommonPrefixAsWrittenSpec(parents: seq<string>)
    requires |parents| > 0
    ensures CommonPrefixAsWritten(parents).None? <==> FirstCharsDiverge(parents)
    ensures var first := parents[0];
            var last := parents[|parents| - 1];
            CommonPrefixAsWritten(parents).Some? ==>
              var p := CommonPrefixAsWritten(parents).value;
              && |p| <= |first| && |p| <= |last|
              && p == first[..|p|] && p == last[..|p|]
              && (|p| < |first| && |p| < |last| ==> first[|p|] != last[|p|])
  {
    var first := parents[0];
    var last := parents[|parents| - 1];
    if |parents| == 1 {
      assert first[..|first|] == first;
    } else {
      CommonPrefixLengthSpec(first, last);
      var n := CommonPrefixLength(first, last);
      assert first[..n][..n] == first[..n];
    }
  }

  /**
   * The family key as written: the error exactly when the first characters of the shortest
   * member's parent and of another parent differ; otherwise the parent is the longest common
   * prefix, character by character, of the first and the last parent in length order only, the
   * siblings are sorted, each is a member starting with the parent cut one segment below it, and
   * every such member has its cut among them.
   */
  lemma {:induction false} FamilyKeySpec(members: CycleMembers)
    ensures var parents := Parents(SortByLength(members));
            FamilyKey(members).Err? <==> FirstCharsDiverge(parents)
    ensures FamilyKey(members).Err? ==> FamilyKey(members).error == NoCommonPackageMessage(members)
    ensures var parents := Parents(SortByLength(members));
            var first := parents[0];
            var last := parents[|parents| - 1];
            FamilyKey(members).Ok? ==>
              var parent := FamilyKey(members).value.parent;
              && |parent| <= |first| && |parent| <= |last|
              && parent == first[..|parent|] && parent == last[..|parent|]
              && (|parent| < |first| && |parent| < |last| ==> first[|parent|] != last[|parent|])
    ensures FamilyKey(members).Ok? ==>
              var key := FamilyKey(members).value;
              && (forall i, j :: 0 <= i < j < |key.siblings| ==> Less(key.siblings[i], key.siblings[j]))
              && (forall s :: s in key.siblings ==>
                    exists m :: m in members && StartsWith(m, key.parent) && m != key.parent && CutBelow(s, m, key.parent))
              && (forall m :: m in members && StartsWith(m, key.parent) && m != key.parent ==> SiblingOf(m, key.parent) in key.siblings)
  {
    var common := LongestCommonPackageAsWritten(members);
    assert FamilyKey(members) == FamilyKeyOf(common, members);
    LongestCommonPackageAsWrittenSpec(members);
    FamilyKeyOfSiblings(common, members);
  }

  /**
   * `_longest_common_package` as written raises exactly when the first characters of the
   * shortest module's parent and of another parent differ; otherwise it gives the longest common
   * prefix, character by character, of the first and the last parent in length order.
   */
  lemma {:induction false} LongestCommonPackageAsWrittenSpec(modules: seq<string>)
    requires |modules| > 0
    ensures LongestCommonPackageAsWritten(modules).Err? <==> FirstCharsDiverge(Parents(SortByLength(modules)))
    ensures LongestCommonPackageAsWritten(modules).Err? ==> LongestCommonPackageAsWritten(modules).error == NoCommonPackageMessage(modules)
    ensures var parents := Parents(SortByLength(modules));
            var first := parents[0];
            var last := parents[|parents| - 1];
            LongestCommonPackageAsWritten(modules).Ok? ==>
              var p := LongestCommonPackageAsWritten(modules).value;
              && |p| <= |first| && |p| <= |last|
              && p == first[..|p|] && p == last[..|p|]
              && (|p| < |first| && |p| < |last| ==> first[|p|] != last[|p|])
  {
    var parents := Parents(SortByLength(modules));
    CommonPrefixAsWrittenSpec(parents);
  }

  /** The siblings of a key are sorted; each is a member cut below the parent, and each such member's cut is there. */
  lemma {:induction false} FamilyKeyOfSiblings(common: Result<string>, members: seq<string>)
    ensures FamilyKeyOf(common, members).Err? <==> common.Err?
    ensures FamilyKeyOf(common, members).Err? ==> FamilyKeyOf(common, members).error == common.error
    ensures FamilyKeyOf(common, members).Ok? ==>
              var key := FamilyKeyOf(common, members).value;
              && key.parent == common.value
              && (forall i, j :: 0 <= i < j < |key.siblings| ==> Less(key.siblings[i], key.siblings[j]))
              && (forall s :: s in key.siblings ==>
                    exists m :: m in members && StartsWith(m, key.parent) && m != key.parent && CutBelow(s, m, key.parent))
              && (forall m :: m in members && StartsWith(m, key.parent) && m != key.parent ==> SiblingOf(m, key.parent) in key.siblings)
  {
    if common.Ok? {
      SiblingSetCuts(members, common.value);
    }
  }

  /**
   * A cycle through `a.b.c.x` and `a.b.d.z` is keyed, as written, under the parent `a.b.`, which
   * is no package; the innermost common package `a.b` is the evident intent.
   */
  lemma {:induction false} FamilyKeyCharwiseCounterexample(a: string, b: string, c: string, d: string, x: string, z: string)
    requires a != "" && '.' !in a && '.' !in c && '.' !in d && '.' !in x && '.' !in z
    requires |c| == |d| && |x| == |z| && c != [] && c[0] != d[0]
    ensures var p := a + "." + b;
            var members := [p + "." + c + "." + x, p + "." + d + "." + z];
            FamilyKey(members).Ok? && FamilyKey(members).value.parent == p + "."
    ensures var p := a + "." + b;
            var members := [p + "." + c + "." + x, p + "." + d + "." + z];
            FamilyKeyIntended(members).Ok? && FamilyKeyIntended(members).value.parent == p
  {
    var p := a + "." + b;
    CharwiseExampleParents(p, c, d, x, z);
    CharwiseExampleAsWritten(p, c, d);
    CommonPackageOfSiblings([p + "." + c, p + "." + d], p, [c, d], 1);
  }

  /** The loop of `Cycle.family_key` collecting the siblings into a set. */
  method CollectSiblings(members: seq<string>, parent: string) returns (siblings: set<string>)
    ensures siblings == SiblingSet(members, parent)
  {
    siblings := {};
    var nesting := CountChar(parent, '.');
    for i := 0 to |members|
      invariant siblings == SiblingSet(members[..i], parent)
    {
      var member := members[i];
      assert members[..i + 1] == members[..i] + [member];
      if StartsWith(member, parent) && member != parent {
        siblings := siblings + {Truncate(member, nesting + 2)};
      }
    }
    assert members[..|members|] == members;
  }

  /** `Cycle.family_key`: the common package, then the siblings sorted. */
  method ComputeFamilyKey(members: CycleMembers) returns (r: Result<CyclesFamilyKey>)
    ensures r == FamilyKey(members)
  {
    var common := LongestCommonPackageLoop(members);
    if common.Err? {
      return Err(common.error);
    }
    var siblings := CollectSiblings(members, common.value);
    r := Ok(CyclesFamilyKey(common.value, Sorted(siblings)));
  }

  // ---------------------------------------------------------------------------------------------
  // `_get_module_ancestors`
  // ---------------------------------------------------------------------------------------------

  /** The ancestors of a module, nearest first: its name cut to one segment fewer each time. */
  function ModuleAncestors(name: string): seq<string> {
    var parts := Split(name, '.');
    seq(|parts| - 1, k requires 0 <= k < |parts| - 1 => Join(parts[..|parts| - 1 - k], "."))
  }

  /** A name cut to fewer than all its segments is an ancestor of it. */
  lemma {:induction false} TruncatedIsAncestor(name: string, j: nat)
    requires 1 <= j < |Split(name, '.')|
    ensures IsDescendantOf(Module(name), Module(Join(Split(name, '.')[..j], ".")))
  {
    var parts := Split(name, '.');
    var head := Join(parts[..j], ".");
    JoinSplit(name, ".");
    assert parts == parts[..j] + parts[j..];
    JoinAppend(parts[..j], parts[j..], ".");
    assert name[..|head + "."|] == head + ".";
  }

  /** Cutting a name to one segment more gives a child of the shorter cut. */
  lemma {:induction false} TruncatedIsChild(name: string, j: nat)
    requires 1 <= j < |Split(name, '.')|
    ensures IsChildOf(Module(Join(Split(name, '.')[..j + 1], ".")), Module(Join(Split(name, '.')[..j], ".")))
  {
    var parts := Split(name, '.');
    SplitPartsFree(name, '.');
    assert parts[..j + 1] == parts[..j] + [parts[j]];
    JoinSnoc(parts[..j], parts[j], ".");
    ChildOfIff(Module(Join(parts[..j + 1], ".")), Module(Join(parts[..j], ".")));
  }

  /** Every ancestor of a name is that name cut to fewer segments. */
  lemma {:induction false} AncestorIsTruncated(name: string, a: string)
    requires IsDescendantOf(Module(name), Module(a))
    ensures 1 <= |Split(a, '.')| < |Split(name, '.')|
    ensures a == Join(Split(name, '.')[..|Split(a, '.')|], ".")
  {
    var rest := name[|a| + 1..];
    assert name == a + "." + rest;
    SplitAppend(a, '.', rest);
    assert Split(name, '.')[..|Split(a, '.')|] == Split(a, '.');
    JoinSplit(a, ".");
  }

  /** The ancestors of a name are the name cut to fewer segments, which are its ancestors, and no others. */
  lemma {:induction false} ModuleAncestorsExact(name: string)
    ensures |ModuleAncestors(name)| == |Split(name, '.')| - 1
    ensures forall k :: 0 <= k < |ModuleAncestors(name)| ==> IsDescendantOf(Module(name), Module(ModuleAncestors(name)[k]))
    ensures forall a :: IsDescendantOf(Module(name), Module(a)) ==> a in ModuleAncestors(name)
  {
    var parts := Split(name, '.');
    var r := ModuleAncestors(name);
    var n := |parts|;
    forall k | 0 <= k < |r| ensures IsDescendantOf(Module(name), Module(r[k])) {
      TruncatedIsAncestor(name, n - 1 - k);
    }
    forall a | IsDescendantOf(Module(name), Module(a)) ensures a in r {
      AncestorIsTruncated(name, a);
      assert r[n - 1 - |Split(a, '.')|] == a;
    }
  }

  /** The ancestors come nearest first: the parent, then each one's parent in turn. */
  lemma {:induction false} ModuleAncestorsChain(name: string)
    ensures |ModuleAncestors(name)| > 0 ==> IsChildOf(Module(name), Module(ModuleAncestors(name)[0]))
    ensures forall k :: 0 <= k < |ModuleAncestors(name)| - 1 ==>
              IsChildOf(Module(ModuleAncestors(name)[k]), Module(ModuleAncestors(name)[k + 1]))
  {
    var parts := Split(name, '.');
    var r := ModuleAncestors(name);
    var n := |parts|;
    if |r| > 0 {
      TruncatedIsChild(name, n - 1);
      assert parts[..n] == parts;
      JoinSplit(name, ".");
    }
    forall k | 0 <= k < |r| - 1 ensures IsChildOf(Module(r[k]), Module(r[k + 1])) {
      TruncatedIsChild(name, n - 2 - k);
    }
  }

  /**
   * A module has one ancestor fewer than it has segments; they are exactly its strict ancestors,
   * nearest first, each the parent of the one before.
   */
  lemma {:induction false} ModuleAncestorsSpec(name: string)
    ensures |ModuleAncestors(name)| == |Split(name, '.')| - 1
    ensures forall k :: 0 <= k < |ModuleAncestors(name)| ==> IsDescendantOf(Module(name), Module(ModuleAncestors(name)[k]))
    ensures forall a :: IsDescendantOf(Module(name), Module(a)) ==> a in ModuleAncestors(name)
    ensures |ModuleAncestors(name)| > 0 ==> IsChildOf(Module(name), Module(ModuleAncestors(name)[0]))
    ensures forall k :: 0 <= k < |ModuleAncestors(name)| - 1 ==>
              IsChildOf(Module(ModuleAncestors(name)[k]), Module(ModuleAncestors(name)[k + 1]))
  {
    ModuleAncestorsExact(name);
    ModuleAncestorsChain(name);
  }

  /** `_get_module_ancestors`: drop the last segment, then record and drop one segment at a time. */
  method GetModuleAncestors(name: string) returns (moduleAncestors: seq<string>)
    ensures moduleAncestors == ModuleAncestors(name)
  {
    var parts := Split(name, '.');
    var moduleSplit := parts[..|parts| - 1];
    moduleAncestors := [];
    while moduleSplit != []
      invariant |moduleSplit| + |moduleAncestors| == |parts| - 1
      invariant moduleSplit == parts[..|parts| - 1 - |moduleAncestors|]
      invariant moduleAncestors == ModuleAncestors(name)[..|moduleAncestors|]
    {
      moduleAncestors := moduleAncestors + [Join(moduleSplit, ".")];
      moduleSplit := moduleSplit[..|moduleSplit| - 1];
    }
  }

  // ---------------------------------------------------------------------------------------------
  // The options
  // ---------------------------------------------------------------------------------------------

  /** `_max_cycles_families`: the option read with `int`, whose error it raises; no limit below 1. */
  function MaxCycleFamilies(value: string): (r: Result<Option<nat>>)
    ensures r.Err? ==> r.error == IntLiteralMessage(value)
  {
    match ParseInt(value)
    case Err(message) => Err(message)
    case Ok(n) => Ok(if n < 1 then None else Some(n))
  }

  /** Written as an integer, the option gives no limit below 1 and that many families otherwise. */
  lemma {:induction false} MaxCycleFamiliesOfInt(n: int)
    ensures MaxCycleFamilies(IntToString(n)) == Ok(if n < 1 then None else Some(n))
  {
    ParseIntRoundTrip(n);
  }

  /** An option without a single digit is no integer: reading it raises. */
  lemma {:induction false} MaxCycleFamiliesNotInt(value: string)
    requires forall k :: 0 <= k < |value| ==> !IsDigit(value[k])
    ensures MaxCycleFamilies(value) == Err(IntLiteralMessage(value))
  {
    ParseIntNeedsDigit(value);
  }

  // ---------------------------------------------------------------------------------------------
  // `check`: widening the graph with package dependencies
  // ---------------------------------------------------------------------------------------------

  /**
   * The copy of the graph being widened, the package dependencies added so far, and the
   * `add_import` calls made, in order.
   */
  datatype Expansion = Expansion(graph: Graph, added: set<(string, string)>, calls: seq<(string, string)>)

  /** How an import is widened: its package dependency, if any. */
  type Derivation = (string, string) -> Option<(string, string)>

  /** One import visited: its package dependency is added unless there is none or it was added before. */
  function AddDependency(st: Expansion, dep: Derivation, importer: string, imported: string): Expansion {
    match dep(importer, imported)
    case None => st
    case Some(d) =>
      if d in st.added then st
      else Expansion(WithEdge(st.graph, d.0, d.1), st.added + {d}, st.calls + [d])
  }

  /** The imports of one importer, visited in order. */
  function AddDependencies(st: Expansion, dep: Derivation, importer: string, importeds: seq<string>): Expansion {
    if importeds == [] then st
    else AddDependency(AddDependencies(st, dep, importer, importeds[..|importeds| - 1]), dep, importer, importeds[|importeds| - 1])
  }

  /** The importers visited in order, each with the modules it imports in the graph widened so far, sorted. */
  function ExpandFrom(st: Expansion, dep: Derivation, importers: seq<string>): Expansion {
    if importers == [] then st
    else
      var before := ExpandFrom(st, dep, importers[..|importers| - 1]);
      var importer := importers[|importers| - 1];
      AddDependencies(before, dep, importer, Sorted(DirectlyImportedBy(before.graph, importer)))
  }

  /** The widening `check` performs on a copy of the graph, over its modules in sorted order. */
  function Expand(g: Graph, dep: Derivation): Expansion {
    ExpandFrom(Expansion(g, {}, []), dep, Sorted(g.modules))
  }

  /**
   * What the widening keeps true: the copy is the original graph plus exactly the added
   * imports (and their modules); each dependency was added by one `add_import` call, never
   * twice; and each is derived from some import of the copy.
   */
  ghost predicate ExpansionInv(g0: Graph, dep: Derivation, st: Expansion) {
    && st.graph.edges == g0.edges + st.added
    && st.graph.modules == g0.modules + (set d | d in st.added :: d.0) + (set d | d in st.added :: d.1)
    && st.graph.details == g0.details && st.graph.squashed == g0.squashed
    && (forall d :: d in st.calls <==> d in st.added)
    && (forall i, j :: 0 <= i < j < |st.calls| ==> st.calls[i] != st.calls[j])
    && (forall d :: d in st.added ==> exists e :: e in st.graph.edges && dep(e.0, e.1) == Some(d))
  }

  /** Adding a pair adds its two modules to the modules of the pairs. */
  lemma {:induction false} EndpointsAdd(added: set<(string, string)>, d: (string, string))
    ensures (set x | x in added + {d} :: x.0) == (set x | x in added :: x.0) + {d.0}
    ensures (set x | x in added + {d} :: x.1) == (set x | x in added :: x.1) + {d.1}
  {
  }

  /** A newly added dependency comes from the import visited; the earlier ones keep their imports. */
  lemma {:induction false} DerivedKept(dep: Derivation, st: Expansion, r: Expansion, importer: string, imported: string, d: (string, string))
    requires forall x :: x in st.added ==> exists e :: e in st.graph.edges && dep(e.0, e.1) == Some(x)
    requires dep(importer, imported) == Some(d) && (importer, imported) in r.graph.edges
    requires r.added == st.added + {d} && st.graph.edges <= r.graph.edges
    ensures forall x :: x in r.added ==> exists e :: e in r.graph.edges && dep(e.0, e.1) == Some(x)
  {
    forall x | x in r.added ensures exists e :: e in r.graph.edges && dep(e.0, e.1) == Some(x) {
      if x != d {
        var e :| e in st.graph.edges && dep(e.0, e.1) == Some(x);
        assert e in r.graph.edges;
      }
    }
  }

  /** Adding a dependency not added before, derived from an import of the copy, keeps the invariant. */
  lemma {:induction false} AddNewDependency(g0: Graph, dep: Derivation, st: Expansion, importer: string, imported: string, d: (string, string))
    requires ExpansionInv(g0, dep, st) && (importer, imported) in st.graph.edges
    requires dep(importer, imported) == Some(d) && d !in st.added
    ensures ExpansionInv(g0, dep, Expansion(WithEdge(st.graph, d.0, d.1), st.added + {d}, st.calls + [d]))
  {
    var r := Expansion(WithEdge(st.graph, d.0, d.1), st.added + {d}, st.calls + [d]);
    GraphAdd(g0, st.graph, st.added, d);
    DerivedKept(dep, st, r, importer, imported, d);
    CallsAdd(st.calls, st.added, d);
  }

  /** Adding a pair as an import keeps the copy equal to the original plus the added pairs. */
  lemma {:induction false} GraphAdd(g0: Graph, g: Graph, added: set<(string, string)>, d: (string, string))
    requires g.edges == g0.edges + added
    requires g.modules == g0.modules + (set x | x in added :: x.0) + (set x | x in added :: x.1)
    requires g.details == g0.details && g.squashed == g0.squashed
    ensures WithEdge(g, d.0, d.1).edges == g0.edges + (added + {d})
    ensures WithEdge(g, d.0, d.1).modules
            == g0.modules + (set x | x in added + {d} :: x.0) + (set x | x in added + {d} :: x.1)
    ensures WithEdge(g, d.0, d.1).details == g0.details && WithEdge(g, d.0, d.1).squashed == g0.squashed
  {
    EndpointsAdd(added, d);
  }

  /** Recording a call for a pair not added before keeps the calls distinct and in step with the added pairs. */
  lemma {:induction false} CallsAdd(calls: seq<(string, string)>, added: set<(string, string)>, d: (string, string))
    requires forall x :: x in calls <==> x in added
    requires forall i, j :: 0 <= i < j < |calls| ==> calls[i] != calls[j]
    requires d !in added
    ensures forall x :: x in calls + [d] <==> x in added + {d}
    ensures forall i, j :: 0 <= i < j < |calls + [d]| ==> (calls + [d])[i] != (calls + [d])[j]
  {
    assert forall i :: 0 <= i < |calls| ==> (calls + [d])[i] == calls[i] && calls[i] != d;
  }

  /** Visiting an import of the copy keeps the invariant, adds its dependency and only ever adds. */
  lemma {:induction false} AddDependencySpec(g0: Graph, dep: Derivation, st: Expansion, importer: string, imported: string)
    requires ExpansionInv(g0, dep, st) && (importer, imported) in st.graph.edges
    ensures ExpansionInv(g0, dep, AddDependency(st, dep, importer, imported))
    ensures st.added <= AddDependency(st, dep, importer, imported).added
    ensures st.graph.edges <= AddDependency(st, dep, importer, imported).graph.edges
    ensures dep(importer, imported).Some? ==>
              dep(importer, imported).value in AddDependency(st, dep, importer, imported).added
  {
    if dep(importer, imported).Some? && dep(importer, imported).value !in st.added {
      AddNewDependency(g0, dep, st, importer, imported, dep(importer, imported).value);
    }
  }

  /** The dependencies of the earlier imports stay added when the last import's is added. */
  lemma {:induction false} DependenciesKept(dep: Derivation, importer: string, importeds: seq<string>, init: seq<string>,
                         before: set<(string, string)>, after: set<(string, string)>)
    requires importeds != [] && init == importeds[..|importeds| - 1]
    requires forall k :: 0 <= k < |init| && dep(importer, init[k]).Some? ==> dep(importer, init[k]).value in before
    requires before <= after
    requires dep(importer, importeds[|importeds| - 1]).Some? ==> dep(importer, importeds[|importeds| - 1]).value in after
    ensures forall k :: 0 <= k < |importeds| && dep(importer, importeds[k]).Some? ==> dep(importer, importeds[k]).value in after
  {
    forall k | 0 <= k < |importeds| && dep(importer, importeds[k]).Some?
      ensures dep(importer, importeds[k]).value in after
    {
      if k < |init| {
        assert init[k] == importeds[k];
      }
    }
  }

  /** Visiting imports of the copy, in turn, keeps the invariant and adds the dependency of each. */
  lemma {:induction false} AddDependenciesSpec(g0: Graph, dep: Derivation, st: Expansion, importer: string, importeds: seq<string>)
    requires ExpansionInv(g0, dep, st)
    requires forall k :: 0 <= k < |importeds| ==> (importer, importeds[k]) in st.graph.edges
    ensures ExpansionInv(g0, dep, AddDependencies(st, dep, importer, importeds))
    ensures st.added <= AddDependencies(st, dep, importer, importeds).added
    ensures st.graph.edges <= AddDependencies(st, dep, importer, importeds).graph.edges
    ensures forall k :: 0 <= k < |importeds| && dep(importer, importeds[k]).Some? ==>
              dep(importer, importeds[k]).value in AddDependencies(st, dep, importer, importeds).added
    decreases |importeds|
  {
    if importeds != [] {
      var init := importeds[..|importeds| - 1];
      var last := importeds[|importeds| - 1];
      AddDependenciesSpec(g0, dep, st, importer, init);
      var before := AddDependencies(st, dep, importer, init);
      AddDependencySpec(g0, dep, before, importer, last);
      var r := AddDependency(before, dep, importer, last);
      assert AddDependencies(st, dep, importer, importeds) == r;
      DependenciesKept(dep, importer, importeds, init, before.added, r.added);
    }
  }

  /**
   * The widening keeps the invariant, and the dependency of every import the visited importers
   * had when they were reached has been added.
   */
  lemma {:induction false} ExpandFromSpec(g0: Graph, dep: Derivation, st: Expansion, importers: seq<string>)
    requires ExpansionInv(g0, dep, st)
    ensures ExpansionInv(g0, dep, ExpandFrom(st, dep, importers))
    ensures st.added <= ExpandFrom(st, dep, importers).added
    ensures st.graph.edges <= ExpandFrom(st, dep, importers).graph.edges
    ensures forall e :: e in st.graph.edges && e.0 in importers && dep(e.0, e.1).Some? ==>
              dep(e.0, e.1).value in ExpandFrom(st, dep, importers).added
    decreases |importers|
  {
    if importers != [] {
      var init := importers[..|importers| - 1];
      var importer := importers[|importers| - 1];
      ExpandFromSpec(g0, dep, st, init);
      var before := ExpandFrom(st, dep, init);
      var importeds := Sorted(DirectlyImportedBy(before.graph, importer));
      AddDependenciesSpec(g0, dep, before, importer, importeds);
      var r := AddDependencies(before, dep, importer, importeds);
      assert ExpandFrom(st, dep, importers) == r;
      ImportersKept(dep, st.graph.edges, importers, importeds, before.added, r.added);
    }
  }

  /**
   * The dependencies of the earlier importers' imports stay added, and the last importer's
   * imports are among those it visits.
   */
  lemma {:induction false} ImportersKept(dep: Derivation, edges: set<(string, string)>, importers: seq<string>,
                      importeds: seq<string>, before: set<(string, string)>, after: set<(string, string)>)
    requires importers != []
    requires forall e :: e in edges && e.0 in importers[..|importers| - 1] && dep(e.0, e.1).Some? ==>
               dep(e.0, e.1).value in before
    requires before <= after
    requires forall e :: e in edges && e.0 == importers[|importers| - 1] ==> e.1 in importeds
    requires forall k :: 0 <= k < |importeds| && dep(importers[|importers| - 1], importeds[k]).Some? ==>
               dep(importers[|importers| - 1], importeds[k]).value in after
    ensures forall e :: e in edges && e.0 in importers && dep(e.0, e.1).Some? ==> dep(e.0, e.1).value in after
  {
    var n := |importers| - 1;
    forall e | e in edges && e.0 in importers && dep(e.0, e.1).Some?
      ensures dep(e.0, e.1).value in after
    {
      if e.0 != importers[n] {
        var i :| 0 <= i < |importers| && importers[i] == e.0;
        assert importers[..n][i] == e.0;
      } else {
        var k :| 0 <= k < |importeds| && importeds[k] == e.1;
      }
    }
  }

  /**
   * The widened copy holds the original imports plus exactly the added package dependencies;
   * every import of the original graph has its package dependency added; each added one is the
   * package dependency of an import of the copy; and no dependency is added twice.
   */
  lemma {:induction false} ExpandSpec(g: Graph, dep: Derivation)
    ensures var st := Expand(g, dep);
            && st.graph.edges == g.edges + st.added
            && st.graph.modules == g.modules + (set d | d in st.added :: d.0) + (set d | d in st.added :: d.1)
            && (forall d :: d in st.calls <==> d in st.added)
            && (forall i, j :: 0 <= i < j < |st.calls| ==> st.calls[i] != st.calls[j])
            && (forall d :: d in st.added ==> exists e :: e in st.graph.edges && dep(e.0, e.1) == Some(d))
    ensures forall e :: e in g.edges && e.0 in g.modules && dep(e.0, e.1).Some? ==>
              dep(e.0, e.1).value in Expand(g, dep).added
  {
    var st0 := Expansion(g, {}, []);
    assert (set d | d in st0.added :: d.0) == {} && (set d | d in st0.added :: d.1) == {};
    ExpandFromSpec(g, dep, st0, Sorted(g.modules));
  }

  /** The inner loop of the widening: the imports of one importer, in sorted order. */
  method AddImporterDependencies(graph: MutableGraph, importer: string, importeds: seq<string>,
                                 added0: set<(string, string)>, ghost calls0: seq<(string, string)>)
    returns (added: set<(string, string)>, ghost calls: seq<(string, string)>)
    modifies graph
    ensures Expansion(graph.value, added, calls)
            == AddDependencies(Expansion(old(graph.value), added0, calls0), PackageDependencyAsWritten, importer, importeds)
  {
    added, calls := added0, calls0;
    for j := 0 to |importeds|
      invariant Expansion(graph.value, added, calls)
                == AddDependencies(Expansion(old(graph.value), added0, calls0), PackageDependencyAsWritten, importer, importeds[..j])
    {
      assert importeds[..j + 1][..j] == importeds[..j];
      var packageDependency := GetPackageDependency(importer, importeds[j]);
      if packageDependency.None? || packageDependency.value in added {
        continue;
      }
      graph.AddEdge(packageDependency.value.0, packageDependency.value.1);
      added := added + {packageDependency.value};
      calls := calls + [packageDependency.value];
    }
    assert importeds[..|importeds|] == importeds;
  }

  /** The widening loop of `check`, on the copy `graph`. */
  method AddPackageDependencies(graph: MutableGraph) returns (added: set<(string, string)>)
    modifies graph
    ensures graph.value == Expand(old(graph.value), PackageDependencyAsWritten).graph
    ensures added == Expand(old(graph.value), PackageDependencyAsWritten).added
  {
    ghost var g0 := graph.value;
    ghost var calls: seq<(string, string)> := [];
    added := {};
    var importers := Sorted(graph.value.modules);
    for i := 0 to |importers|
      invariant Expansion(graph.value, added, calls) == ExpandFrom(Expansion(g0, {}, []), PackageDependencyAsWritten, importers[..i])
    {
      assert importers[..i + 1][..i] == importers[..i];
      var importedModules := DirectlyImportedBy(graph.value, importers[i]);
      added, calls := AddImporterDependencies(graph, importers[i], Sorted(importedModules), added, calls);
    }
    assert importers[..|importers|] == importers;
  }

  // ---------------------------------------------------------------------------------------------
  // `check`: grouping the cycles into families
  // ---------------------------------------------------------------------------------------------

  /** A family of cycles: its key and the cycles found for it, in the order found. */
  datatype CyclesFamily = CyclesFamily(key: CyclesFamilyKey, cycles: seq<CycleMembers>)

  /** `family_key_to_cycles`: the cycles of each key, and the keys in the order first seen. */
  datatype Families = Families(keys: seq<CyclesFamilyKey>, cycles: map<CyclesFamilyKey, seq<CycleMembers>>)

  /** `find_shortest_cycle(module, as_package=True)` on a graph. */
  type CycleFinder = (Graph, string) -> Option<CycleMembers>

  /** How a cycle's family key is computed (`Cycle.family_key`), or the error it raises. */
  type KeyOf = CycleMembers -> Result<CyclesFamilyKey>

  /** A cycle appended to the cycles of its key, the key being added if new. */
  function Record(st: Families, key: CyclesFamilyKey, members: CycleMembers): Families {
    if key in st.cycles then Families(st.keys, st.cycles[key := st.cycles[key] + [members]])
    else Families(st.keys + [key], st.cycles[key := [members]])
  }

  /**
   * The loop over the modules: a module with a cycle adds the cycle to its family, and the loop
   * stops as soon as the number of families equals the limit; a failing family key is raised.
   */
  function CollectFamilies(g: Graph, find: CycleFinder, keyOf: KeyOf, limit: Option<nat>, st: Families, modules: seq<string>)
    : Result<Families>
    decreases |modules|
  {
    if modules == [] then Ok(st)
    else
      match find(g, modules[0])
      case None => CollectFamilies(g, find, keyOf, limit, st, modules[1..])
      case Some(members) =>
        match keyOf(members)
        case Err(message) => Err(message)
        case Ok(key) =>
          var next := Record(st, key, members);
          if limit.Some? && |next.cycles| == limit.value then Ok(next)
          else CollectFamilies(g, find, keyOf, limit, next, modules[1..])
  }

  /** The keys are distinct and are the keys of the dict; every cycle recorded has its key. */
  ghost predicate FamiliesValid(keyOf: KeyOf, st: Families) {
    && (forall i, j :: 0 <= i < j < |st.keys| ==> st.keys[i] != st.keys[j])
    && (forall k :: k in st.cycles <==> k in st.keys)
    && (forall k :: k in st.cycles ==> |st.cycles[k]| > 0)
    && (forall k, c :: k in st.cycles && c in st.cycles[k] ==> keyOf(c) == Ok(k))
  }

  /** Recording a cycle under its key keeps the families valid and the key among them. */
  lemma {:induction false} RecordSpec(keyOf: KeyOf, st: Families, key: CyclesFamilyKey, members: CycleMembers)
    requires FamiliesValid(keyOf, st) && keyOf(members) == Ok(key)
    ensures FamiliesValid(keyOf, Record(st, key, members))
    ensures Record(st, key, members).keys != [] && key in Record(st, key, members).keys
    ensures forall k :: k in st.keys ==> k in Record(st, key, members).keys
    ensures |Record(st, key, members).cycles| <= |st.cycles| + 1
  {
    RecordValid(keyOf, st, key, members);
  }

  /** Recording a cycle under its key keeps the families valid. */
  lemma {:induction false} RecordValid(keyOf: KeyOf, st: Families, key: CyclesFamilyKey, members: CycleMembers)
    requires FamiliesValid(keyOf, st) && keyOf(members) == Ok(key)
    ensures FamiliesValid(keyOf, Record(st, key, members))
  {
    var r := Record(st, key, members);
    if key !in st.cycles {
      forall i, j | 0 <= i < j < |r.keys| ensures r.keys[i] != r.keys[j] {
        if j == |st.keys| {
          assert r.keys[i] in st.keys;
        }
      }
    } else {
      forall k, c | k in r.cycles && c in r.cycles[k] ensures keyOf(c) == Ok(k) {
        if k == key && c !in st.cycles[key] {
          assert c == members;
        }
      }
    }
  }

  /** The loop keeps the families valid, and a key once found stays. */
  lemma {:induction false} CollectFamiliesValid(g: Graph, find: CycleFinder, keyOf: KeyOf, limit: Option<nat>, st: Families, modules: seq<string>)
    requires FamiliesValid(keyOf, st)
    ensures CollectFamilies(g, find, keyOf, limit, st, modules).Ok? ==>
              var r := CollectFamilies(g, find, keyOf, limit, st, modules).value;
              FamiliesValid(keyOf, r) && forall k :: k in st.keys ==> k in r.keys
    decreases |modules|
  {
    if modules != [] {
      match find(g, modules[0])
      case None =>
        CollectFamiliesValid(g, find, keyOf, limit, st, modules[1..]);
      case Some(members) =>
        match keyOf(members)
        case Err(_) =>
        case Ok(key) =>
          var next := Record(st, key, members);
          RecordSpec(keyOf, st, key, members);
          if !(limit.Some? && |next.cycles| == limit.value) {
            CollectFamiliesValid(g, find, keyOf, limit, next, modules[1..]);
          }
    }
  }

  /** From no families, none is found exactly when no module has a cycle. */
  lemma {:induction false} CollectFamiliesKept(g: Graph, find: CycleFinder, keyOf: KeyOf, limit: Option<nat>, st: Families, modules: seq<string>)
    requires FamiliesValid(keyOf, st)
    ensures CollectFamilies(g, find, keyOf, limit, st, modules).Ok? ==>
              (CollectFamilies(g, find, keyOf, limit, st, modules).value.keys == [] <==>
                 st.keys == [] && forall k :: 0 <= k < |modules| ==> find(g, modules[k]).None?)
    decreases |modules|
  {
    if modules != [] {
      match find(g, modules[0])
      case None =>
        CollectFamiliesKept(g, find, keyOf, limit, st, modules[1..]);
        assert forall k :: 1 <= k < |modules| ==> modules[k] == modules[1..][k - 1];
      case Some(members) =>
        if keyOf(members).Ok? {
          var next := Record(st, keyOf(members).value, members);
          RecordSpec(keyOf, st, keyOf(members).value, members);
          CollectFamiliesValid(g, find, keyOf, limit, next, modules[1..]);
        }
    }
  }

  /** Below the limit at the start, the loop never finds more families than the limit. */
  lemma {:induction false} CollectFamiliesLimit(g: Graph, find: CycleFinder, keyOf: KeyOf, n: nat, st: Families, modules: seq<string>)
    requires FamiliesValid(keyOf, st) && |st.cycles| < n
    ensures CollectFamilies(g, find, keyOf, Some(n), st, modules).Ok? ==>
              |CollectFamilies(g, find, keyOf, Some(n), st, modules).value.cycles| <= n
    decreases |modules|
  {
    if modules != [] && find(g, modules[0]).Some? && keyOf(find(g, modules[0]).value).Ok? {
      var members := find(g, modules[0]).value;
      var next := Record(st, keyOf(members).value, members);
      RecordSpec(keyOf, st, keyOf(members).value, members);
      if |next.cycles| != n {
        CollectFamiliesLimit(g, find, keyOf, n, next, modules[1..]);
      }
    } else if modules != [] {
      CollectFamiliesLimit(g, find, keyOf, n, st, modules[1..]);
    }
  }

  /**
   * When the loop ends below the limit (or there is none), it has visited every module: the
   * family of every cycle found is among the families.
   */
  lemma {:induction false} CollectFamiliesComplete(g: Graph, find: CycleFinder, keyOf: KeyOf, limit: Option<nat>, st: Families, modules: seq<string>)
    requires FamiliesValid(keyOf, st)
    ensures var r := CollectFamilies(g, find, keyOf, limit, st, modules);
            r.Ok? && (limit.None? || |r.value.cycles| != limit.value) ==>
              forall k :: 0 <= k < |modules| && find(g, modules[k]).Some? ==>
                keyOf(find(g, modules[k]).value).Ok? && keyOf(find(g, modules[k]).value).value in r.value.keys
    decreases |modules|
  {
    var r := CollectFamilies(g, find, keyOf, limit, st, modules);
    if modules != [] && r.Ok? && (limit.None? || |r.value.cycles| != limit.value) {
      var rest := modules[1..];
      forall k | 1 <= k < |modules| ensures modules[k] == rest[k - 1] {
      }
      match find(g, modules[0])
      case None =>
        CollectFamiliesComplete(g, find, keyOf, limit, st, rest);
      case Some(members) =>
        var key := keyOf(members).value;
        var next := Record(st, key, members);
        assert !(limit.Some? && |next.cycles| == limit.value);
        assert r == CollectFamilies(g, find, keyOf, limit, next, rest);
        RecordSpec(keyOf, st, key, members);
        CollectFamiliesComplete(g, find, keyOf, limit, next, rest);
        CollectFamiliesValid(g, find, keyOf, limit, next, rest);
    }
  }

  /** After recording a cycle, every cycle held is the new one or was held before under its key. */
  lemma {:induction false} RecordCycles(st: Families, key: CyclesFamilyKey, members: CycleMembers)
    ensures forall k, c :: k in Record(st, key, members).cycles && c in Record(st, key, members).cycles[k] ==>
              (k in st.cycles && c in st.cycles[k]) || c == members
  {
  }

  /** The cycle was found for one of the modules. */
  ghost predicate FoundIn(g: Graph, find: CycleFinder, modules: seq<string>, c: CycleMembers) {
    exists m :: m in modules && find(g, m) == Some(c)
  }

  /** Every cycle in `res` was already in `st`, or was found for one of the modules. */
  ghost predicate FoundFor(g: Graph, find: CycleFinder, st: Families, res: Families, modules: seq<string>) {
    forall k, c :: k in res.cycles && c in res.cycles[k] ==> (k in st.cycles && c in st.cycles[k]) || FoundIn(g, find, modules, c)
  }

  /** The cycle found for the first module is found for the modules. */
  lemma {:induction false} FoundInFirst(g: Graph, find: CycleFinder, modules: seq<string>, c: CycleMembers)
    requires modules != [] && find(g, modules[0]) == Some(c)
    ensures FoundIn(g, find, modules, c)
  {
    assert modules[0] in modules;
  }

  /** A cycle found for some of the modules is found for all of them. */
  lemma {:induction false} FoundInMore(g: Graph, find: CycleFinder, some: seq<string>, modules: seq<string>, c: CycleMembers)
    requires FoundIn(g, find, some, c) && forall m :: m in some ==> m in modules
    ensures FoundIn(g, find, modules, c)
  {
  }

  /** Every cycle in the families was found for one of the modules, or was there at the start. */
  lemma {:induction false} CollectFamiliesSound(g: Graph, find: CycleFinder, keyOf: KeyOf, limit: Option<nat>, st: Families, modules: seq<string>)
    ensures var r := CollectFamilies(g, find, keyOf, limit, st, modules);
            r.Ok? ==> FoundFor(g, find, st, r.value, modules)
    decreases |modules|
  {
    var r := CollectFamilies(g, find, keyOf, limit, st, modules);
    if modules == [] {
      assert r == Ok(st);
    } else {
      var rest := modules[1..];
      match find(g, modules[0])
      case None =>
        CollectFamiliesSound(g, find, keyOf, limit, st, rest);
        assert r == CollectFamilies(g, find, keyOf, limit, st, rest);
        if r.Ok? {
          SoundStep(g, find, st, st, r.value, None, modules);
        }
      case Some(members) =>
        match keyOf(members)
        case Err(e) =>
          assert r == Err(e);
        case Ok(key) =>
          var next := Record(st, key, members);
          RecordCycles(st, key, members);
          if limit.Some? && |next.cycles| == limit.value {
            assert r == Ok(next);
            SoundStep(g, find, st, next, next, Some(members), modules);
          } else {
            CollectFamiliesSound(g, find, keyOf, limit, next, rest);
            assert r == CollectFamilies(g, find, keyOf, limit, next, rest);
            if r.Ok? {
              SoundStep(g, find, st, next, r.value, Some(members), modules);
            }
          }
    }
  }

  /**
   * One module visited, recording the cycle found for it (if any), followed by the families the
   * other modules give.
   */
  lemma {:induction false} SoundStep(g: Graph, find: CycleFinder, st: Families, next: Families, res: Families, found: Option<CycleMembers>,
                  modules: seq<string>)
    requires modules != [] && find(g, modules[0]) == found
    requires forall k, c :: k in next.cycles && c in next.cycles[k] ==> (k in st.cycles && c in st.cycles[k]) || Some(c) == found
    requires FoundFor(g, find, next, res, modules[1..])
    ensures FoundFor(g, find, st, res, modules)
  {
    assert forall m :: m in modules[1..] ==> m in modules;
    forall k, c | k in res.cycles && c in res.cycles[k]
      ensures (k in st.cycles && c in st.cycles[k]) || FoundIn(g, find, modules, c)
    {
      if k in next.cycles && c in next.cycles[k] {
        if Some(c) == found {
          FoundInFirst(g, find, modules, c);
        }
      } else {
        FoundInMore(g, find, modules[1..], modules, c);
      }
    }
  }

  /** The loop of `check` over the modules, recording the families into the dict in place. */
  method CollectFamiliesLoop(g: Graph, find: CycleFinder, keyOf: KeyOf, limit: Option<nat>, modules: seq<string>)
    returns (r: Result<Families>)
    ensures r == CollectFamilies(g, find, keyOf, limit, Families([], map[]), modules)
  {
    var keys: seq<CyclesFamilyKey> := [];
    var familyKeyToCycles: map<CyclesFamilyKey, seq<CycleMembers>> := map[];
    for i := 0 to |modules|
      invariant CollectFamilies(g, find, keyOf, limit, Families(keys, familyKeyToCycles), modules[i..])
                == CollectFamilies(g, find, keyOf, limit, Families([], map[]), modules)
    {
      assert modules[i..][0] == modules[i] && modules[i..][1..] == modules[i + 1..];
      var cycleMembers := find(g, modules[i]);
      if cycleMembers.None? {
        continue;
      }
      var key := keyOf(cycleMembers.value);
      if key.Err? {
        return Err(key.error);
      }
      if key.value in familyKeyToCycles {
        familyKeyToCycles := familyKeyToCycles[key.value := familyKeyToCycles[key.value] + [cycleMembers.value]];
      } else {
        keys := keys + [key.value];
        familyKeyToCycles := familyKeyToCycles[key.value := [cycleMembers.value]];
      }
      if limit.Some? && |familyKeyToCycles| == limit.value {
        return Ok(Families(keys, familyKeyToCycles));
      }
    }
    r := Ok(Families(keys, familyKeyToCycles));
  }

  /** `cycles_families`: one family per key, in the order the keys were first seen. */
  function FamilyList(st: Families): (r: seq<CyclesFamily>)
    ensures |r| == |st.keys|
    ensures forall k :: 0 <= k < |r| ==> r[k].key == st.keys[k]
  {
    seq(|st.keys|, k requires 0 <= k < |st.keys| =>
      CyclesFamily(st.keys[k], if st.keys[k] in st.cycles then st.cycles[st.keys[k]] else []))
  }

  /** The graph the cycles are searched in: the widened copy, or the graph itself. */
  function CheckedGraph(g: Graph, considerPackageDependencies: string, dep: Derivation): Graph {
    if IsTrueString(considerPackageDependencies) then Expand(g, dep).graph else g
  }

  /** The contract check reporting the families found, kept when there are none. */
  function Reported(found: Result<Families>): Result<Contract.ContractCheck<seq<CyclesFamily>>> {
    match found
    case Err(message) => Err(message)
    case Ok(st) =>
      var families := FamilyList(st);
      Ok(Contract.NewContractCheck(|families| == 0, Some(map["cycle_families" := families]), None))
  }

  /**
   * What `check` returns, given the option values as strings, how a family key is computed and
   * how an import is widened. The limit is read only once a first cycle has been recorded: an
   * option that is no integer raises there, and goes unnoticed when no cycle is found.
   */
  function CheckOutcome(g: Graph, considerPackageDependencies: string, maxCycleFamilies: string, find: CycleFinder, keyOf: KeyOf,
                        dep: Derivation)
    : Result<Contract.ContractCheck<seq<CyclesFamily>>>
  {
    var graph := CheckedGraph(g, considerPackageDependencies, dep);
    var maxCycles := MaxCycleFamilies(maxCycleFamilies);
    var found := FamiliesOf(graph, find, keyOf, SearchLimit(maxCycles));
    if maxCycles.Err? && found.Ok? && found.value.keys != [] then Err(maxCycles.error) else Reported(found)
  }

  /** The limit the search runs with: the option's, or one family when reading it raises (at the first one). */
  function SearchLimit(maxCycles: Result<Option<nat>>): Option<nat> {
    if maxCycles.Ok? then maxCycles.value else Some(1)
  }

  /** The families found over the modules of a graph in sorted order, from none. */
  function FamiliesOf(graph: Graph, find: CycleFinder, keyOf: KeyOf, limit: Option<nat>): Result<Families> {
    CollectFamilies(graph, find, keyOf, limit, Families([], map[]), Sorted(graph.modules))
  }

  /** From no families, over the modules of the graph, none is found exactly when no module has a cycle. */
  lemma {:induction false} CollectedKept(graph: Graph, find: CycleFinder, keyOf: KeyOf, limit: Option<nat>, modules: seq<string>)
    requires forall m :: m in modules <==> m in graph.modules
    ensures var r := CollectFamilies(graph, find, keyOf, limit, Families([], map[]), modules);
            r.Ok? ==> (FamilyList(r.value) == [] <==> forall m :: m in graph.modules ==> find(graph, m).None?)
  {
    CollectFamiliesKept(graph, find, keyOf, limit, Families([], map[]), modules);
    if forall k :: 0 <= k < |modules| ==> find(graph, modules[k]).None? {
      forall m | m in graph.modules ensures find(graph, m).None? {
        var k :| 0 <= k < |modules| && modules[k] == m;
      }
    }
  }

  /** No family is found exactly when no module of the graph has a cycle. */
  lemma {:induction false} FamiliesOfKept(graph: Graph, find: CycleFinder, keyOf: KeyOf, limit: Option<nat>)
    ensures FamiliesOf(graph, find, keyOf, limit).Ok? ==>
              (FamilyList(FamiliesOf(graph, find, keyOf, limit).value) == [] <==>
                 forall m :: m in graph.modules ==> find(graph, m).None?)
  {
    CollectedKept(graph, find, keyOf, limit, Sorted(graph.modules));
  }

  /** With a limit, no more families are found than the limit. */
  lemma {:induction false} FamiliesOfLimit(graph: Graph, find: CycleFinder, keyOf: KeyOf, n: nat)
    requires n >= 1
    ensures FamiliesOf(graph, find, keyOf, Some(n)).Ok? ==> |FamilyList(FamiliesOf(graph, find, keyOf, Some(n)).value)| <= n
  {
    var st0 := Families([], map[]);
    var modules := Sorted(graph.modules);
    CollectFamiliesValid(graph, find, keyOf, Some(n), st0, modules);
    CollectFamiliesLimit(graph, find, keyOf, n, st0, modules);
    if FamiliesOf(graph, find, keyOf, Some(n)).Ok? {
      DistinctKeysCount(keyOf, FamiliesOf(graph, find, keyOf, Some(n)).value);
    }
  }

  /** Each family listed holds the cycles of its key in the dict, so the dict's properties carry over. */
  lemma {:induction false} FamilyListSound(keyOf: KeyOf, st: Families, found: CycleMembers -> bool)
    requires FamiliesValid(keyOf, st)
    requires forall k, c :: k in st.cycles && c in st.cycles[k] ==> found(c)
    ensures forall f :: f in FamilyList(st) ==>
              |f.cycles| > 0 && forall c :: c in f.cycles ==> keyOf(c) == Ok(f.key) && found(c)
  {
    var families := FamilyList(st);
    forall f | f in families
      ensures |f.cycles| > 0
      ensures forall c :: c in f.cycles ==> keyOf(c) == Ok(f.key) && found(c)
    {
      var k :| 0 <= k < |families| && families[k] == f;
      assert f.key in st.cycles && f.cycles == st.cycles[f.key];
    }
  }

  /** The cycle was found for a module of the graph. */
  ghost predicate FoundInGraph(graph: Graph, find: CycleFinder, c: CycleMembers) {
    exists m :: m in graph.modules && find(graph, m) == Some(c)
  }

  /** A cycle found for one of some modules of the graph was found for a module of the graph. */
  lemma {:induction false} FoundInGraphOf(graph: Graph, find: CycleFinder, modules: seq<string>, c: CycleMembers)
    requires FoundIn(graph, find, modules, c) && forall m :: m in modules ==> m in graph.modules
    ensures FoundInGraph(graph, find, c)
  {
  }

  /** From no families, every cycle recorded over modules of the graph was found for one of them. */
  lemma {:induction false} CollectedCyclesFound(graph: Graph, find: CycleFinder, keyOf: KeyOf, limit: Option<nat>, modules: seq<string>)
    requires forall m :: m in modules ==> m in graph.modules
    ensures var r := CollectFamilies(graph, find, keyOf, limit, Families([], map[]), modules);
            r.Ok? ==>
              forall k, c :: k in r.value.cycles && c in r.value.cycles[k] ==>
                FoundInGraph(graph, find, c)
  {
    var r := CollectFamilies(graph, find, keyOf, limit, Families([], map[]), modules);
    CollectFamiliesSound(graph, find, keyOf, limit, Families([], map[]), modules);
    if r.Ok? {
      forall k, c | k in r.value.cycles && c in r.value.cycles[k]
        ensures FoundInGraph(graph, find, c)
      {
        FoundInGraphOf(graph, find, modules, c);
      }
    }
  }

  /** From no families, every family found over modules of the graph holds cycles of its key found for them. */
  lemma {:induction false} CollectedFamiliesSound(graph: Graph, find: CycleFinder, keyOf: KeyOf, limit: Option<nat>, modules: seq<string>)
    requires forall m :: m in modules ==> m in graph.modules
    ensures var r := CollectFamilies(graph, find, keyOf, limit, Families([], map[]), modules);
            r.Ok? ==>
              forall f :: f in FamilyList(r.value) ==>
                |f.cycles| > 0 &&
                forall c :: c in f.cycles ==>
                  keyOf(c) == Ok(f.key) && FoundInGraph(graph, find, c)
  {
    var st0 := Families([], map[]);
    var r := CollectFamilies(graph, find, keyOf, limit, st0, modules);
    if r.Ok? {
      CollectFamiliesValid(graph, find, keyOf, limit, st0, modules);
      CollectedCyclesFound(graph, find, keyOf, limit, modules);
      FamilyListSound(keyOf, r.value, (c: CycleMembers) => FoundInGraph(graph, find, c));
    }
  }

  /** Every family found holds at least one cycle, each of that family's key and found for a module of the graph. */
  lemma {:induction false} FamiliesOfSound(graph: Graph, find: CycleFinder, keyOf: KeyOf, limit: Option<nat>)
    ensures FamiliesOf(graph, find, keyOf, limit).Ok? ==>
              forall f :: f in FamilyList(FamiliesOf(graph, find, keyOf, limit).value) ==>
                |f.cycles| > 0 &&
                forall c :: c in f.cycles ==>
                  keyOf(c) == Ok(f.key) && FoundInGraph(graph, find, c)
  {
    CollectedFamiliesSound(graph, find, keyOf, limit, Sorted(graph.modules));
  }

  /** The report of the families found over a graph: what `CheckSpec` states of it. */
  lemma {:induction false} ReportedSpec(graph: Graph, find: CycleFinder, keyOf: KeyOf, limit: Option<nat>)
    ensures var r := Reported(FamiliesOf(graph, find, keyOf, limit));
            r.Ok? ==>
              && (r.value.kept <==> forall m :: m in graph.modules ==> find(graph, m).None?)
              && r.value.metadata.Keys == {"cycle_families"}
              && (limit.Some? && limit.value >= 1 ==> |r.value.metadata["cycle_families"]| <= limit.value)
              && (forall f :: f in r.value.metadata["cycle_families"] ==>
                    |f.cycles| > 0 &&
                    forall c :: c in f.cycles ==>
                      keyOf(c) == Ok(f.key) && FoundInGraph(graph, find, c))
  {
    FamiliesOfKept(graph, find, keyOf, limit);
    FamiliesOfSound(graph, find, keyOf, limit);
    if limit.Some? && limit.value >= 1 {
      FamiliesOfLimit(graph, find, keyOf, limit.value);
    }
  }

  /**
   * The contract is kept exactly when no module of the searched graph has a cycle; with a
   * limit, no more families are reported than the limit; each family reported holds cycles of
   * its key, each found for a module of the searched graph; and a limit that is no integer
   * fails the check exactly when some module has a cycle.
   */
  lemma {:induction false} CheckSpec(g: Graph, considerPackageDependencies: string, maxCycleFamilies: string, find: CycleFinder, keyOf: KeyOf,
                                     dep: Derivation)
    ensures var graph := CheckedGraph(g, considerPackageDependencies, dep);
            var r := CheckOutcome(g, considerPackageDependencies, maxCycleFamilies, find, keyOf, dep);
            r.Ok? ==>
              && (r.value.kept <==> forall m :: m in graph.modules ==> find(graph, m).None?)
              && r.value.metadata.Keys == {"cycle_families"}
              && (MaxCycleFamilies(maxCycleFamilies).Ok? && MaxCycleFamilies(maxCycleFamilies).value.Some? ==>
                    |r.value.metadata["cycle_families"]| <= MaxCycleFamilies(maxCycleFamilies).value.value)
              && (forall f :: f in r.value.metadata["cycle_families"] ==>
                    |f.cycles| > 0 &&
                    forall c :: c in f.cycles ==>
                      keyOf(c) == Ok(f.key) && FoundInGraph(graph, find, c))
    ensures var graph := CheckedGraph(g, considerPackageDependencies, dep);
            var r := CheckOutcome(g, considerPackageDependencies, maxCycleFamilies, find, keyOf, dep);
            r.Err? ==>
              || (MaxCycleFamilies(maxCycleFamilies).Err? && r.error == IntLiteralMessage(maxCycleFamilies))
              || exists m :: m in graph.modules && find(graph, m).Some? && keyOf(find(graph, m).value) == Err(r.error)
    ensures var graph := CheckedGraph(g, considerPackageDependencies, dep);
            MaxCycleFamilies(maxCycleFamilies).Err? ==>
              (CheckOutcome(g, considerPackageDependencies, maxCycleFamilies, find, keyOf, dep).Err? <==>
                 exists m :: m in graph.modules && find(graph, m).Some?)
  {
    var graph := CheckedGraph(g, considerPackageDependencies, dep);
    var maxCycles := MaxCycleFamilies(maxCycleFamilies);
    var limit := SearchLimit(maxCycles);
    ReportedSpec(graph, find, keyOf, limit);
    FamiliesOfRaised(graph, find, keyOf, limit);
  }

  /** From any families, a loop that fails raises the family-key error of a cycle found for one of the modules. */
  lemma {:induction false} CollectFamiliesRaised(g: Graph, find: CycleFinder, keyOf: KeyOf, limit: Option<nat>, st: Families, modules: seq<string>)
    ensures var r := CollectFamilies(g, find, keyOf, limit, st, modules);
            r.Err? ==> exists m :: m in modules && find(g, m).Some? && keyOf(find(g, m).value) == Err(r.error)
    decreases |modules|
  {
    if modules != [] && find(g, modules[0]).Some? {
      var members := find(g, modules[0]).value;
      if keyOf(members).Ok? {
        var next := Record(st, keyOf(members).value, members);
        if !(limit.Some? && |next.cycles| == limit.value) {
          CollectFamiliesRaised(g, find, keyOf, limit, next, modules[1..]);
          assert forall m :: m in modules[1..] ==> m in modules;
        }
      }
    } else if modules != [] {
      CollectFamiliesRaised(g, find, keyOf, limit, st, modules[1..]);
      assert forall m :: m in modules[1..] ==> m in modules;
    }
  }

  /** A search that fails raises the family-key error of a cycle found for a module of the graph. */
  lemma {:induction false} FamiliesOfRaised(graph: Graph, find: CycleFinder, keyOf: KeyOf, limit: Option<nat>)
    ensures var r := FamiliesOf(graph, find, keyOf, limit);
            r.Err? ==> exists m :: m in graph.modules && find(graph, m).Some? && keyOf(find(graph, m).value) == Err(r.error)
  {
    CollectFamiliesRaised(graph, find, keyOf, limit, Families([], map[]), Sorted(graph.modules));
  }

  /** The keys of valid families are as many as the keys of the dict. */
  lemma {:induction false} DistinctKeysCount(keyOf: KeyOf, st: Families)
    requires FamiliesValid(keyOf, st)
    ensures |st.keys| == |st.cycles|
  {
    DistinctSeqCount(st.keys);
    assert st.cycles.Keys == set k | k in st.keys;
  }

  /** A sequence without repeats has as many elements as the set of them. */
  lemma {:induction false} DistinctSeqCount<T>(s: seq<T>)
    requires forall i, j :: 0 <= i < j < |s| ==> s[i] != s[j]
    ensures |set x | x in s| == |s|
    decreases |s|
  {
    if s != [] {
      var init := s[..|s| - 1];
      DistinctSeqCount(init);
      assert (set x | x in s) == (set x | x in init) + {s[|s| - 1]};
      assert s[|s| - 1] !in init;
    }
  }

  /** The first part of `check`: the graph widened on a deep copy when package dependencies are considered. */
  method GraphToSearch(g: Graph, considerPackageDependencies: string) returns (graph: Graph)
    ensures graph == CheckedGraph(g, considerPackageDependencies, PackageDependencyAsWritten)
  {
    graph := g;
    if IsTrueString(considerPackageDependencies) {
      var copy := new MutableGraph(g);
      var _ := AddPackageDependencies(copy);
      graph := copy.value;
    }
  }

  /**
   * `check`: the graph is widened on a copy when package dependencies are considered, then the
   * cycles of its modules are grouped into families.
   */
  method Check(g: Graph, considerPackageDependencies: string, maxCycleFamilies: string, find: CycleFinder)
    returns (r: Result<Contract.ContractCheck<seq<CyclesFamily>>>)
    ensures r == CheckOutcome(g, considerPackageDependencies, maxCycleFamilies, find, FamilyKey, PackageDependencyAsWritten)
  {
    var graph := GraphToSearch(g, considerPackageDependencies);
    var maxCycles := MaxCycleFamilies(maxCycleFamilies);
    var collected := CollectFamiliesLoop(graph, find, FamilyKey, SearchLimit(maxCycles), Sorted(graph.modules));
    assert collected == FamiliesOf(graph, find, FamilyKey, SearchLimit(maxCycles));
    if collected.Err? {
      return Err(collected.error);
    }
    if maxCycles.Err? && collected.value.keys != [] {
      return Err(maxCycles.error);
    }
    r := Reported(collected);
  }
}
