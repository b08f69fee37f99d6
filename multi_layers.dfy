/**
 * The multi-layers contract (src/importlinter/contracts/multi_layers.py): levels of sibling
 * layers, read from comma-separated strings; the ordered pairs of layers it forbids; the check
 * that every layer exists; the temporary graph without the other layers; and when the contract
 * is kept.
 */
module MultiLayers {
  import opened Wrappers
  import opened Strings
  import opened Imports
  import opened Graphs
  import opened Fields
  import Contract

  /** One layer of a level: a module name. */
  datatype Layer = Layer(name: string)

  /** The layers named by a comma-separated string, in order. */
  function LayersOf(s: string): seq<Layer> {
    var names := Split(s, ',');
    seq(|names|, k requires 0 <= k < |names| => Layer(names[k]))
  }

  /** `MultiLayerField.parse`: one level, its layers separated by commas. */
  function ParseMultiLayer(raw: Raw): Parsed<seq<Layer>> {
    match ParseString(raw)
    case Value(s) => Value(LayersOf(s))
    case Invalid(m) => Invalid(m)
    case Raised(e) => Raised(e)
  }

  /**
   * A list is refused; a string gives one layer per comma-separated piece, in order and
   * unstripped.
   */
  lemma {:induction false} ParseMultiLayerSpec(raw: Raw)
    ensures raw.ListOf? ==> ParseMultiLayer(raw) == Invalid(MultipleValuesMessage)
    ensures raw.Str? ==>
              && ParseMultiLayer(raw).Value?
              && |ParseMultiLayer(raw).value| == |Split(raw.s, ',')|
              && forall k :: 0 <= k < |Split(raw.s, ',')| ==> ParseMultiLayer(raw).value[k].name == Split(raw.s, ',')[k]
  {
  }

  /** Names free of commas, joined with commas, are read back as the same layers. */
  lemma {:induction false} ParseMultiLayerRoundTrip(names: seq<string>)
    requires |names| >= 1
    requires forall k :: 0 <= k < |names| ==> ',' !in names[k]
    ensures ParseMultiLayer(Str(Join(names, ","))) == Value(seq(|names|, k requires 0 <= k < |names| => Layer(names[k])))
  {
    SplitJoin(names, ',');
  }

  /** Whether some layer of `level` is named `n`. */
  predicate InLevel(n: string, level: seq<Layer>) {
    exists q :: 0 <= q < |level| && level[q].name == n
  }

  /** All the layers of the levels, level by level. */
  function Flatten(levels: seq<seq<Layer>>): seq<Layer> {
    if levels == [] then [] else levels[0] + Flatten(levels[1..])
  }

  /** A name is in the flattened levels exactly when some level has it. */
  lemma {:induction false} FlattenSpec(levels: seq<seq<Layer>>, n: string)
    ensures InLevel(n, Flatten(levels)) <==> exists j :: 0 <= j < |levels| && InLevel(n, levels[j])
  {
    if levels != [] {
      FlattenSpec(levels[1..], n);
      var rest := Flatten(levels[1..]);
      assert Flatten(levels) == levels[0] + rest;
      if InLevel(n, Flatten(levels)) {
        var q :| 0 <= q < |Flatten(levels)| && Flatten(levels)[q].name == n;
        if q >= |levels[0]| {
          assert rest[q - |levels[0]|].name == n;
          var j :| 0 <= j < |levels[1..]| && InLevel(n, levels[1..][j]);
          assert levels[j + 1] == levels[1..][j];
        } else {
          assert levels[0][q].name == n;
        }
      }
      if exists j :: 0 <= j < |levels| && InLevel(n, levels[j]) {
        var j :| 0 <= j < |levels| && InLevel(n, levels[j]);
        var q :| 0 <= q < |levels[j]| && levels[j][q].name == n;
        if j == 0 {
          assert Flatten(levels)[q].name == n;
        } else {
          assert levels[1..][j - 1] == levels[j];
          var r :| 0 <= r < |rest| && rest[r].name == n;
          assert Flatten(levels)[|levels[0]| + r].name == n;
        }
      }
    }
  }

  /** The pairs `layer` forms with each sibling of a different name, in the level's order. */
  function SiblingPairs(layer: Layer, level: seq<Layer>): seq<(string, string)> {
    if level == [] then []
    else (if level[0] != layer then [(layer.name, level[0].name)] else []) + SiblingPairs(layer, level[1..])
  }

  lemma {:induction false} SiblingPairsSpec(layer: Layer, level: seq<Layer>, p: (string, string))
    ensures p in SiblingPairs(layer, level) <==> p.0 == layer.name && InLevel(p.1, level) && p.1 != layer.name
  {
    if level != [] {
      SiblingPairsSpec(layer, level[1..], p);
      if InLevel(p.1, level) && p.1 != level[0].name {
        var q :| 0 <= q < |level| && level[q].name == p.1;
        assert level[1..][q - 1].name == p.1;
      }
      if InLevel(p.1, level[1..]) {
        var q :| 0 <= q < |level[1..]| && level[1..][q].name == p.1;
        assert level[q + 1].name == p.1;
      }
    }
  }

  /** The pairs `layer` forms with each of `lower`, in order. */
  function PairsWith(layer: Layer, lower: seq<Layer>): (r: seq<(string, string)>)
    ensures forall p :: p in r <==> p.0 == layer.name && InLevel(p.1, lower)
  {
    var r := seq(|lower|, k requires 0 <= k < |lower| => (layer.name, lower[k].name));
    assert forall p: (string, string) :: p.0 == layer.name && InLevel(p.1, lower) ==> p in r by {
      forall p: (string, string) | p.0 == layer.name && InLevel(p.1, lower) ensures p in r {
        var q :| 0 <= q < |lower| && lower[q].name == p.1;
        assert r[q] == p;
      }
    }
    r
  }

  /** What the generator yields for one layer of level `i`: its siblings, then every lower layer. */
  function LayerPermutations(levels: seq<seq<Layer>>, i: nat, layer: Layer): seq<(string, string)>
    requires i < |levels|
  {
    SiblingPairs(layer, levels[i]) + PairsWith(layer, Flatten(levels[i + 1..]))
  }

  /** What the generator yields for the layers `layers` of level `i`, in order. */
  function LevelPermutations(levels: seq<seq<Layer>>, i: nat, layers: seq<Layer>): seq<(string, string)>
    requires i < |levels|
  {
    if layers == [] then [] else LayerPermutations(levels, i, layers[0]) + LevelPermutations(levels, i, layers[1..])
  }

  /** What the generator yields for the levels from `i` on. */
  function PermutationsFrom(levels: seq<seq<Layer>>, i: nat): seq<(string, string)>
    decreases |levels| - i
  {
    if i >= |levels| then [] else LevelPermutations(levels, i, levels[i]) + PermutationsFrom(levels, i + 1)
  }

  /** `_get_module_permutations`: the (higher, lower) pairs, in the order the generator yields them. */
  function ModulePermutations(levels: seq<seq<Layer>>): seq<(string, string)> {
    PermutationsFrom(levels, 0)
  }

  /**
   * The pair (a, b) is banned at level `i` when `a` is a layer there and `b` is either a sibling
   * with another name or a layer of a later level.
   */
  ghost predicate BannedAt(levels: seq<seq<Layer>>, i: nat, p: (string, string))
    requires i < |levels|
  {
    && InLevel(p.0, levels[i])
    && ((InLevel(p.1, levels[i]) && p.1 != p.0) || exists j :: i < j < |levels| && InLevel(p.1, levels[j]))
  }

  lemma {:induction false} LayerPermutationsSpec(levels: seq<seq<Layer>>, i: nat, layer: Layer, p: (string, string))
    requires i < |levels|
    ensures p in LayerPermutations(levels, i, layer) <==>
              p.0 == layer.name
              && ((InLevel(p.1, levels[i]) && p.1 != p.0) || exists j :: i < j < |levels| && InLevel(p.1, levels[j]))
  {
    SiblingPairsSpec(layer, levels[i], p);
    var lower := levels[i + 1..];
    FlattenSpec(lower, p.1);
    if exists j :: 0 <= j < |lower| && InLevel(p.1, lower[j]) {
      var j :| 0 <= j < |lower| && InLevel(p.1, lower[j]);
      assert lower[j] == levels[i + 1 + j];
    }
    if exists j :: i < j < |levels| && InLevel(p.1, levels[j]) {
      var j :| i < j < |levels| && InLevel(p.1, levels[j]);
      assert lower[j - i - 1] == levels[j];
    }
  }

  lemma {:induction false} LevelPermutationsSpec(levels: seq<seq<Layer>>, i: nat, layers: seq<Layer>, p: (string, string))
    requires i < |levels|
    ensures p in LevelPermutations(levels, i, layers) <==>
              InLevel(p.0, layers)
              && ((InLevel(p.1, levels[i]) && p.1 != p.0) || exists j :: i < j < |levels| && InLevel(p.1, levels[j]))
  {
    if layers != [] {
      LayerPermutationsSpec(levels, i, layers[0], p);
      LevelPermutationsSpec(levels, i, layers[1..], p);
      if InLevel(p.0, layers) && p.0 != layers[0].name {
        var q :| 0 <= q < |layers| && layers[q].name == p.0;
        assert layers[1..][q - 1].name == p.0;
      }
      if InLevel(p.0, layers[1..]) {
        var q :| 0 <= q < |layers[1..]| && layers[1..][q].name == p.0;
        assert layers[q + 1].name == p.0;
      }
    }
  }

  lemma {:induction false} PermutationsFromSpec(levels: seq<seq<Layer>>, i: nat, p: (string, string))
    ensures p in PermutationsFrom(levels, i) <==> exists k :: i <= k < |levels| && BannedAt(levels, k, p)
    decreases |levels| - i
  {
    if i < |levels| {
      LevelPermutationsSpec(levels, i, levels[i], p);
      PermutationsFromSpec(levels, i + 1, p);
      assert PermutationsFrom(levels, i) == LevelPermutations(levels, i, levels[i]) + PermutationsFrom(levels, i + 1);
      assert p in LevelPermutations(levels, i, levels[i]) <==> BannedAt(levels, i, p);
      if exists k :: i <= k < |levels| && BannedAt(levels, k, p) {
        var k :| i <= k < |levels| && BannedAt(levels, k, p);
        if k > i {
          assert exists k' :: i + 1 <= k' < |levels| && BannedAt(levels, k', p);
        }
      }
    }
  }

  /**
   * The generator yields (a, b) exactly when, on some level, `a` is a layer and `b` is a sibling
   * of another name or a layer of a later level.
   */
  lemma {:induction false} ModulePermutationsSpec(levels: seq<seq<Layer>>, p: (string, string))
    ensures p in ModulePermutations(levels) <==> exists i :: 0 <= i < |levels| && BannedAt(levels, i, p)
  {
    PermutationsFromSpec(levels, 0, p);
  }

  /** Siblings with different names are banned from each other in both directions. */
  lemma {:induction false} SiblingsBothWays(levels: seq<seq<Layer>>, i: nat, a: string, b: string)
    requires i < |levels| && InLevel(a, levels[i]) && InLevel(b, levels[i]) && a != b
    ensures (a, b) in ModulePermutations(levels) && (b, a) in ModulePermutations(levels)
  {
    ModulePermutationsSpec(levels, (a, b));
    ModulePermutationsSpec(levels, (b, a));
    assert BannedAt(levels, i, (a, b)) && BannedAt(levels, i, (b, a));
  }

  /**
   * A layer of a higher level and one of a lower level, each named on its level only, give the
   * downward pair and never the upward one: the higher layer may import the lower.
   */
  lemma {:induction false} HigherMayImportLower(levels: seq<seq<Layer>>, i: nat, j: nat, a: string, b: string)
    requires i < j < |levels| && InLevel(a, levels[i]) && InLevel(b, levels[j])
    requires forall k :: 0 <= k < |levels| && InLevel(a, levels[k]) ==> k == i
    requires forall k :: 0 <= k < |levels| && InLevel(b, levels[k]) ==> k == j
    ensures (a, b) in ModulePermutations(levels)
    ensures (b, a) !in ModulePermutations(levels)
  {
    ModulePermutationsSpec(levels, (a, b));
    ModulePermutationsSpec(levels, (b, a));
    assert BannedAt(levels, i, (a, b));
  }

  /** `repr` of a name: wrapped in single quotes. */
  function Repr(s: string): string {
    "'" + s + "'"
  }

  function MissingLayerMessage(name: string): string {
    "Missing layer " + Repr(name) + ": module " + Repr(name) + " does not exist"
  }

  /** The layers whose module is not in the graph. */
  function LayerMissing(g: Graph): Layer -> bool {
    (layer: Layer) => layer.name !in g.modules
  }

  /** The first loop of `check`: the first layer, level by level, that is not in the graph. */
  function ExistenceError(g: Graph, levels: seq<seq<Layer>>): Option<string> {
    match FirstWhere(Flatten(levels), LayerMissing(g))
    case None => None
    case Some(layer) => Some(MissingLayerMessage(layer.name))
  }

  /** There is no error exactly when every layer is a module of the graph; an error names one that is not. */
  lemma {:induction false} ExistenceErrorSpec(g: Graph, levels: seq<seq<Layer>>)
    ensures ExistenceError(g, levels).None? <==> forall j, q :: 0 <= j < |levels| && 0 <= q < |levels[j]| ==> levels[j][q].name in g.modules
    ensures ExistenceError(g, levels).Some? ==>
              exists j, q :: 0 <= j < |levels| && 0 <= q < |levels[j]| && levels[j][q].name !in g.modules
                             && ExistenceError(g, levels).value == MissingLayerMessage(levels[j][q].name)
  {
    var flat := Flatten(levels);
    FirstWhereSpec(flat, LayerMissing(g));
    if ExistenceError(g, levels).None? {
      forall j, q | 0 <= j < |levels| && 0 <= q < |levels[j]| ensures levels[j][q].name in g.modules {
        FlattenSpec(levels, levels[j][q].name);
        var r :| 0 <= r < |flat| && flat[r].name == levels[j][q].name;
        assert !LayerMissing(g)(flat[r]);
      }
    } else {
      var r :| 0 <= r < |flat| && flat[r] == FirstWhere(flat, LayerMissing(g)).value && LayerMissing(g)(flat[r]);
      FlattenSpec(levels, flat[r].name);
      var j :| 0 <= j < |levels| && InLevel(flat[r].name, levels[j]);
      var q :| 0 <= q < |levels[j]| && levels[j][q].name == flat[r].name;
    }
  }

  /** The first loop of `check`. */
  method CheckAllLayersExist(g: Graph, levels: seq<seq<Layer>>) returns (error: Option<string>)
    ensures error == ExistenceError(g, levels)
  {
    var i := 0;
    while i < |levels|
      invariant 0 <= i <= |levels|
      invariant FirstWhere(Flatten(levels), LayerMissing(g)) == FirstWhere(Flatten(levels[i..]), LayerMissing(g))
    {
      assert levels[i..][1..] == levels[i + 1..];
      assert Flatten(levels[i..]) == levels[i] + Flatten(levels[i + 1..]);
      FirstWhereAppend(levels[i], Flatten(levels[i + 1..]), LayerMissing(g));
      var missing := FindFirst(levels[i], LayerMissing(g));
      if missing.Some? {
        return Some(MissingLayerMessage(missing.value.name));
      }
      i := i + 1;
    }
    return None;
  }

  /** Whether `_remove_layers`, as intended, removes `layer`: it is in the graph and not one of the pair. */
  predicate RemovesLayer(layer: Layer, modules: set<string>, preserve: (string, string)) {
    layer.name in modules && layer.name != preserve.0 && layer.name != preserve.1
  }

  /** The modules removed for one layer, judged on the graph `g` as it was before any removal. */
  function LayerDoom(g: Graph, layer: Layer, preserve: (string, string)): set<string> {
    if RemovesLayer(layer, g.modules, preserve) then {layer.name} + Descendants(g, layer.name) else {}
  }

  /** The modules removed for the layers of one level. */
  function LevelDoom(g: Graph, level: seq<Layer>, preserve: (string, string)): set<string> {
    set q, m | 0 <= q < |level| && m in LayerDoom(g, level[q], preserve) :: m
  }

  /** The modules removed for all the levels. */
  function Doomed(g: Graph, levels: seq<seq<Layer>>, preserve: (string, string)): set<string> {
    set j, m | 0 <= j < |levels| && m in LevelDoom(g, levels[j], preserve) :: m
  }

  lemma {:induction false} LevelDoomSnoc(g: Graph, level: seq<Layer>, q: nat, preserve: (string, string))
    requires q < |level|
    ensures LevelDoom(g, level[..q + 1], preserve) == LevelDoom(g, level[..q], preserve) + LayerDoom(g, level[q], preserve)
  {
    var a := LevelDoom(g, level[..q + 1], preserve);
    var b := LevelDoom(g, level[..q], preserve) + LayerDoom(g, level[q], preserve);
    forall m | m in a ensures m in b {
      var r :| 0 <= r < q + 1 && m in LayerDoom(g, level[..q + 1][r], preserve);
      if r < q {
        assert level[..q][r] == level[..q + 1][r];
      }
    }
    forall m | m in b ensures m in a {
      if m !in LayerDoom(g, level[q], preserve) {
        var r :| 0 <= r < q && m in LayerDoom(g, level[..q][r], preserve);
        assert level[..q + 1][r] == level[..q][r];
      } else {
        assert level[..q + 1][q] == level[q];
      }
    }
  }

  lemma {:induction false} DoomedSnoc(g: Graph, levels: seq<seq<Layer>>, j: nat, preserve: (string, string))
    requires j < |levels|
    ensures Doomed(g, levels[..j + 1], preserve) == Doomed(g, levels[..j], preserve) + LevelDoom(g, levels[j], preserve)
  {
    var a := Doomed(g, levels[..j + 1], preserve);
    var b := Doomed(g, levels[..j], preserve) + LevelDoom(g, levels[j], preserve);
    forall m | m in a ensures m in b {
      var r :| 0 <= r < j + 1 && m in LevelDoom(g, levels[..j + 1][r], preserve);
      if r < j {
        assert levels[..j][r] == levels[..j + 1][r];
      }
    }
    forall m | m in b ensures m in a {
      if m !in LevelDoom(g, levels[j], preserve) {
        var r :| 0 <= r < j && m in LevelDoom(g, levels[..j][r], preserve);
        assert levels[..j + 1][r] == levels[..j][r];
      } else {
        assert levels[..j + 1][j] == levels[j];
      }
    }
  }

  /** Whether `removed` holds, with each of its modules, every descendant of it in `g`. */
  ghost predicate DescendantClosed(g: Graph, removed: set<string>) {
    forall x, d :: x in removed && d in Descendants(g, x) ==> d in removed
  }

  /** A layer and its descendants, added to a closed set, leave it closed. */
  lemma {:induction false} LayerDoomClosed(g: Graph, removed: set<string>, layer: Layer, preserve: (string, string))
    requires DescendantClosed(g, removed)
    ensures DescendantClosed(g, removed + LayerDoom(g, layer, preserve))
  {
    var all := removed + LayerDoom(g, layer, preserve);
    forall x, d | x in all && d in Descendants(g, x) ensures d in all {
      if x !in removed && x != layer.name {
        DescendantTransitive(Module(d), Module(x), Module(layer.name));
      }
    }
  }

  /** `remove_module` for each of `ms`, in any order: `graph` is `g` without `removed`, and ends without `ms` too. */
  method RemoveAll(graph: MutableGraph, ghost g: Graph, ghost removed: set<string>, ms: set<string>)
    requires graph.value == WithoutModules(g, removed)
    modifies graph
    ensures graph.value == WithoutModules(g, removed + ms)
  {
    var remaining := ms;
    while remaining != {}
      invariant remaining <= ms
      invariant graph.value == WithoutModules(g, removed + (ms - remaining))
      decreases |remaining|
    {
      var d :| d in remaining;
      WithoutModulesTwice(g, removed + (ms - remaining), {d});
      graph.RemoveModule(d);
      assert removed + (ms - remaining) + {d} == removed + (ms - (remaining - {d}));
      remaining := remaining - {d};
    }
    assert ms - remaining == ms;
  }

  /** The descendants of a module in a graph without `removed` are its descendants in `g` that were not removed. */
  lemma {:induction false} DescendantsWithout(g: Graph, removed: set<string>, name: string)
    ensures Descendants(WithoutModules(g, removed), name) == Descendants(g, name) - removed
  {
  }

  /** A removable layer that was already removed brings nothing new: its descendants went with it. */
  lemma {:induction false} AlreadyRemoved(g: Graph, removed: set<string>, layer: Layer, preserve: (string, string))
    requires DescendantClosed(g, removed) && RemovesLayer(layer, g.modules, preserve) && layer.name in removed
    ensures removed + LayerDoom(g, layer, preserve) == removed
  {
  }

  /**
   * The body of `_remove_layers` for one layer, with the comparison it was evidently meant to
   * make: `graph` is `g` without `removed`, and ends without that layer and its descendants too.
   */
  method RemoveLayer(graph: MutableGraph, ghost g: Graph, ghost removed: set<string>, layer: Layer, preserve: (string, string))
    requires graph.value == WithoutModules(g, removed) && DescendantClosed(g, removed)
    modifies graph
    ensures graph.value == WithoutModules(g, removed + LayerDoom(g, layer, preserve))
  {
    if RemovesLayer(layer, graph.value.modules, preserve) {
      var descendants := Descendants(graph.value, layer.name);
      DescendantsWithout(g, removed, layer.name);
      RemoveAll(graph, g, removed, descendants);
      WithoutModulesTwice(g, removed + descendants, {layer.name});
      graph.RemoveModule(layer.name);
      assert removed + descendants + {layer.name} == removed + LayerDoom(g, layer, preserve);
    } else if RemovesLayer(layer, g.modules, preserve) {
      AlreadyRemoved(g, removed, layer, preserve);
    }
  }

  /** The loop of `_remove_layers` over the layers of one level. */
  method RemoveLevel(graph: MutableGraph, ghost g: Graph, ghost removed: set<string>, level: seq<Layer>, preserve: (string, string))
    requires graph.value == WithoutModules(g, removed) && DescendantClosed(g, removed)
    modifies graph
    ensures graph.value == WithoutModules(g, removed + LevelDoom(g, level, preserve))
    ensures DescendantClosed(g, removed + LevelDoom(g, level, preserve))
  {
    var q := 0;
    while q < |level|
      invariant 0 <= q <= |level|
      invariant graph.value == WithoutModules(g, removed + LevelDoom(g, level[..q], preserve))
      invariant DescendantClosed(g, removed + LevelDoom(g, level[..q], preserve))
    {
      ghost var before := removed + LevelDoom(g, level[..q], preserve);
      RemoveLayer(graph, g, before, level[q], preserve);
      LayerDoomClosed(g, before, level[q], preserve);
      LevelDoomSnoc(g, level, q, preserve);
      ghost var after := removed + LevelDoom(g, level[..q + 1], preserve);
      assert before + LayerDoom(g, level[q], preserve) == after;
      q := q + 1;
    }
    assert level[..q] == level;
  }

  /**
   * `_remove_layers`, as evidently intended: every layer in the graph that is not one of the
   * preserved pair goes, with its descendants.
   */
  method RemoveLayers(graph: MutableGraph, levels: seq<seq<Layer>>, preserve: (string, string))
    modifies graph
    ensures graph.value == WithoutModules(old(graph.value), Doomed(old(graph.value), levels, preserve))
  {
    ghost var g := graph.value;
    assert WithoutModules(g, {}) == g;
    var j := 0;
    while j < |levels|
      invariant 0 <= j <= |levels|
      invariant graph.value == WithoutModules(g, Doomed(g, levels[..j], preserve))
      invariant DescendantClosed(g, Doomed(g, levels[..j], preserve))
    {
      RemoveLevel(graph, g, Doomed(g, levels[..j], preserve), levels[j], preserve);
      DoomedSnoc(g, levels, j, preserve);
      j := j + 1;
    }
    assert levels[..j] == levels;
  }

  /** What `_remove_layers` removes for one layer is that layer, if removable, and its descendants. */
  lemma {:induction false} DoomedSpec(g: Graph, levels: seq<seq<Layer>>, preserve: (string, string), m: string)
    ensures m in Doomed(g, levels, preserve) <==>
              exists j, q :: 0 <= j < |levels| && 0 <= q < |levels[j]| && RemovesLayer(levels[j][q], g.modules, preserve)
                             && (m == levels[j][q].name || m in Descendants(g, levels[j][q].name))
  {
    if m in Doomed(g, levels, preserve) {
      var j :| 0 <= j < |levels| && m in LevelDoom(g, levels[j], preserve);
      var q :| 0 <= q < |levels[j]| && m in LayerDoom(g, levels[j][q], preserve);
    }
    if exists j, q :: 0 <= j < |levels| && 0 <= q < |levels[j]| && RemovesLayer(levels[j][q], g.modules, preserve)
                      && (m == levels[j][q].name || m in Descendants(g, levels[j][q].name)) {
      var j, q :| 0 <= j < |levels| && 0 <= q < |levels[j]| && RemovesLayer(levels[j][q], g.modules, preserve)
                  && (m == levels[j][q].name || m in Descendants(g, levels[j][q].name));
      assert m in LayerDoom(g, levels[j][q], preserve);
      assert m in LevelDoom(g, levels[j], preserve);
    }
  }

  /**
   * After the intended removal, no layer other than the preserved pair is left, nor any of its
   * descendants, and every other module stays.
   */
  lemma {:induction false} RemoveLayersSpec(g: Graph, levels: seq<seq<Layer>>, preserve: (string, string))
    ensures forall j, q :: 0 <= j < |levels| && 0 <= q < |levels[j]| && RemovesLayer(levels[j][q], g.modules, preserve) ==>
              && levels[j][q].name !in WithoutModules(g, Doomed(g, levels, preserve)).modules
              && Descendants(g, levels[j][q].name) !! WithoutModules(g, Doomed(g, levels, preserve)).modules
    ensures forall m :: m in g.modules && m !in WithoutModules(g, Doomed(g, levels, preserve)).modules ==>
              exists j, q :: 0 <= j < |levels| && 0 <= q < |levels[j]| && RemovesLayer(levels[j][q], g.modules, preserve)
                             && (m == levels[j][q].name || m in Descendants(g, levels[j][q].name))
  {
    var doomed := Doomed(g, levels, preserve);
    forall j, q | 0 <= j < |levels| && 0 <= q < |levels[j]| && RemovesLayer(levels[j][q], g.modules, preserve)
      ensures levels[j][q].name !in WithoutModules(g, doomed).modules
      ensures Descendants(g, levels[j][q].name) !! WithoutModules(g, doomed).modules
    {
      assert LayerDoom(g, levels[j][q], preserve) <= LevelDoom(g, levels[j], preserve) <= doomed;
    }
    forall m | m in g.modules && m !in WithoutModules(g, doomed).modules
      ensures exists j, q :: 0 <= j < |levels| && 0 <= q < |levels[j]| && RemovesLayer(levels[j][q], g.modules, preserve)
                             && (m == levels[j][q].name || m in Descendants(g, levels[j][q].name))
    {
      DoomedSpec(g, levels, preserve, m);
    }
  }

  /** A value of the running program that `_remove_layers` compares: a module name, or a layer tuple. */
  datatype PyValue = PyName(name: string) | PyLayer(layer: Layer)

  /**
   * `layer in graph.modules and Module(layer) not in preserve` as written: the `Layer` tuple
   * itself, not its name, is looked up among the module names and the preserved pair.
   */
  predicate RemovesLayerAsWritten(layer: Layer, modules: set<string>, preserve: (string, string)) {
    && PyLayer(layer) in (set m | m in modules :: PyName(m))
    && PyLayer(layer) != PyName(preserve.0) && PyLayer(layer) != PyName(preserve.1)
  }

  /** The modules `_remove_layers` removes as written. */
  function DoomedAsWritten(g: Graph, levels: seq<seq<Layer>>, preserve: (string, string)): set<string> {
    set j, q, m | 0 <= j < |levels| && 0 <= q < |levels[j]| && RemovesLayerAsWritten(levels[j][q], g.modules, preserve)
                  && m in {levels[j][q].name} + Descendants(g, levels[j][q].name) :: m
  }

  /** As written, `_remove_layers` removes nothing: the temporary graph is the graph. */
  lemma {:induction false} RemoveLayersAsWrittenKeepsAll(g: Graph, levels: seq<seq<Layer>>, preserve: (string, string))
    ensures DoomedAsWritten(g, levels, preserve) == {}
    ensures WithoutModules(g, DoomedAsWritten(g, levels, preserve)).modules == g.modules
  {
  }

  /**
   * Three single-layer levels, all in the graph, checked for the pair of the first two: as
   * written the third layer stays in the temporary graph; as intended it goes.
   */
  lemma {:induction false} RemoveLayersCounterexample()
    ensures var g := Graph({"high", "low", "other"}, {}, {}, {});
            var levels := [[Layer("high")], [Layer("low")], [Layer("other")]];
            && "other" in WithoutModules(g, DoomedAsWritten(g, levels, ("high", "low"))).modules
            && "other" !in WithoutModules(g, Doomed(g, levels, ("high", "low"))).modules
  {
    var g := Graph({"high", "low", "other"}, {}, {}, {});
    var levels := [[Layer("high")], [Layer("low")], [Layer("other")]];
    RemoveLayersAsWrittenKeepsAll(g, levels, ("high", "low"));
    RemoveLayersSpec(g, levels, ("high", "low"));
    assert levels[2][0].name == "other";
  }

  /** One direct import as `_pop_direct_imports` reports it. */
  datatype DirectImport = DirectImport(importer: string, imported: string, lineNumber: string, lineContents: string)

  /** One link of a reported chain, with the line numbers of its imports. */
  datatype Import = Import(importer: string, imported: string, lineNumbers: seq<string>)

  /** A reported chain, with the imports that start and end it besides the first and last. */
  datatype Path = Path(chain: seq<Import>, extraFirsts: seq<Import>, extraLasts: seq<Import>)

  /** The lower layer imports the higher one, by these chains. */
  datatype Violation = Violation(higherLayer: string, lowerLayer: string, chains: seq<Path>)

  /**
   * `LayersContract._pop_direct_imports(higher, lower, graph)`: the groups of direct imports
   * from the lower layer into the higher one, each between one pair of modules, and the graph
   * it leaves behind, those imports having been removed from it.
   */
  type DirectImportsFinder = (string, string, Graph) -> (seq<seq<DirectImport>>, Graph)

  /** `LayersContract._get_indirect_collapsed_chains(graph, importer_package, imported_package)`. */
  type IndirectChainsFinder = (Graph, string, string) -> seq<Path>

  /** The `IndexError` that `direct_import[0]` raises on an empty group. */
  const IndexErrorMessage := "list index out of range"

  /** A group of direct imports as a one-link path: its first import, with the line numbers of all. */
  function DirectPath(group: seq<DirectImport>): Path
    requires group != []
  {
    Path([Import(group[0].importer, group[0].imported, seq(|group|, k requires 0 <= k < |group| => group[k].lineNumber))], [], [])
  }

  /** The paths `check` builds from the direct import groups, or the error an empty group raises. */
  function DirectPaths(groups: seq<seq<DirectImport>>): (r: Result<seq<Path>>)
    ensures r.Err? <==> exists k :: 0 <= k < |groups| && groups[k] == []
    ensures r.Err? ==> r.error == IndexErrorMessage
    ensures r.Ok? ==> |r.value| == |groups| && forall k :: 0 <= k < |groups| ==> r.value[k] == DirectPath(groups[k])
  {
    if groups == [] then Ok([])
    else if groups[0] == [] then Err(IndexErrorMessage)
    else match DirectPaths(groups[1..])
      case Err(e) => Err(e)
      case Ok(rest) =>
        assert forall k :: 1 <= k < |groups| ==> groups[k] == groups[1..][k - 1];
        Ok([DirectPath(groups[0])] + rest)
  }

  /** The loop of `check` over the direct import groups. */
  method DirectViolationPaths(groups: seq<seq<DirectImport>>) returns (r: Result<seq<Path>>)
    ensures r == DirectPaths(groups)
  {
    var paths: seq<Path> := [];
    var i := 0;
    while i < |groups|
      invariant 0 <= i <= |groups|
      invariant forall k :: 0 <= k < i ==> groups[k] != []
      invariant |paths| == i && forall k :: 0 <= k < i ==> paths[k] == DirectPath(groups[k])
    {
      if groups[i] == [] {
        return Err(IndexErrorMessage);
      }
      paths := paths + [DirectPath(groups[i])];
      i := i + 1;
    }
    ghost var expected := DirectPaths(groups);
    assert expected.Ok? && paths == expected.value;
    return Ok(paths);
  }

  /**
   * The shared graph once the direct imports of the pairs `pairs` have been popped from it, one
   * pair after another.
   */
  function Popped(g: Graph, pairs: seq<(string, string)>, direct: DirectImportsFinder): Graph {
    if pairs == [] then g else PopPair(Popped(g, pairs[..|pairs| - 1], direct), pairs[|pairs| - 1], direct)
  }

  /** The graph `_pop_direct_imports` leaves for one pair. */
  function PopPair(g: Graph, pair: (string, string), direct: DirectImportsFinder): Graph {
    direct(pair.0, pair.1, g).1
  }

  /** The graph left once the pairs up to and including the `i`-th have been popped. */
  function PoppedThrough(g: Graph, pairs: seq<(string, string)>, i: nat, direct: DirectImportsFinder): Graph
    requires i < |pairs|
  {
    Popped(g, pairs[..i + 1], direct)
  }

  /**
   * The chains by which `pair.1` imports `pair.0` in the graph `g` as it stands when the pair
   * comes: the direct ones, popped from it, then the indirect ones, searched in what the popping
   * leaves.
   */
  function PairPaths(g: Graph, pair: (string, string), direct: DirectImportsFinder, indirect: IndirectChainsFinder): Result<seq<Path>> {
    var (groups, popped) := direct(pair.0, pair.1, g);
    match DirectPaths(groups)
    case Err(e) => Err(e)
    case Ok(paths) => Ok(paths + indirect(popped, pair.1, pair.0))
  }

  /** The chains of the `k`-th pair, in the graph the pairs before it have popped. */
  function PathsAt(g: Graph, pairs: seq<(string, string)>, k: nat, direct: DirectImportsFinder, indirect: IndirectChainsFinder): Result<seq<Path>>
    requires k < |pairs|
  {
    PairPaths(Popped(g, pairs[..k], direct), pairs[k], direct, indirect)
  }

  /** The violations found for the pairs `pairs`, in order, each in the graph popped so far, or the first error. */
  function Violations(g: Graph, pairs: seq<(string, string)>, direct: DirectImportsFinder, indirect: IndirectChainsFinder): Result<seq<Violation>> {
    if pairs == [] then Ok([])
    else
      var last := pairs[|pairs| - 1];
      match Violations(g, pairs[..|pairs| - 1], direct, indirect)
      case Err(e) => Err(e)
      case Ok(found) =>
        match PathsAt(g, pairs, |pairs| - 1, direct, indirect)
        case Err(e) => Err(e)
        case Ok(paths) => Ok(found + if paths != [] then [Violation(last.0, last.1, paths)] else [])
  }

  /** The pairs before the `k`-th are the same in a longer run. */
  lemma {:induction false} PathsAtPrefix(g: Graph, pairs: seq<(string, string)>, n: nat, k: nat,
                                         direct: DirectImportsFinder, indirect: IndirectChainsFinder)
    requires k < n <= |pairs|
    ensures PathsAt(g, pairs[..n], k, direct, indirect) == PathsAt(g, pairs, k, direct, indirect)
  {
    assert pairs[..n][..k] == pairs[..k];
    assert pairs[..n][k] == pairs[k];
  }

  /** An error among the first pairs is the error for all of them. */
  lemma {:induction false} ViolationsPrefixError(g: Graph, pairs: seq<(string, string)>, i: nat,
                                                 direct: DirectImportsFinder, indirect: IndirectChainsFinder)
    requires i <= |pairs| && Violations(g, pairs[..i], direct, indirect).Err?
    ensures Violations(g, pairs, direct, indirect) == Violations(g, pairs[..i], direct, indirect)
    decreases |pairs| - i
  {
    if i < |pairs| {
      assert pairs[..i + 1][..i] == pairs[..i];
      ViolationsPrefixError(g, pairs, i + 1, direct, indirect);
    } else {
      assert pairs[..i] == pairs;
    }
  }

  /** The violations are found without error exactly when every pair's chains are, each in the graph popped before it. */
  lemma {:induction false} ViolationsOkIff(g: Graph, pairs: seq<(string, string)>, direct: DirectImportsFinder, indirect: IndirectChainsFinder)
    ensures Violations(g, pairs, direct, indirect).Ok? <==> forall k :: 0 <= k < |pairs| ==> PathsAt(g, pairs, k, direct, indirect).Ok?
  {
    if pairs != [] {
      var n := |pairs| - 1;
      var init := pairs[..n];
      ViolationsOkIff(g, init, direct, indirect);
      forall k | 0 <= k < n ensures PathsAt(g, init, k, direct, indirect) == PathsAt(g, pairs, k, direct, indirect) {
        PathsAtPrefix(g, pairs, n, k, direct, indirect);
      }
    }
  }

  /** Found without error, there are no violations exactly when no pair has any chain. */
  lemma {:induction false} ViolationsEmptyIff(g: Graph, pairs: seq<(string, string)>, direct: DirectImportsFinder, indirect: IndirectChainsFinder)
    requires Violations(g, pairs, direct, indirect).Ok?
    ensures Violations(g, pairs, direct, indirect).value == [] <==>
              forall k :: 0 <= k < |pairs| ==> PathsAt(g, pairs, k, direct, indirect) == Ok([])
  {
    if pairs != [] {
      var n := |pairs| - 1;
      var init := pairs[..n];
      ViolationsEmptyIff(g, init, direct, indirect);
      forall k | 0 <= k < n ensures PathsAt(g, init, k, direct, indirect) == PathsAt(g, pairs, k, direct, indirect) {
        PathsAtPrefix(g, pairs, n, k, direct, indirect);
      }
    }
  }

  /** Each violation is a pair, in order of the pairs, with its chains, which are not empty. */
  lemma {:induction false} ViolationsFromPairs(g: Graph, pairs: seq<(string, string)>, direct: DirectImportsFinder, indirect: IndirectChainsFinder)
    requires Violations(g, pairs, direct, indirect).Ok?
    ensures forall v :: v in Violations(g, pairs, direct, indirect).value ==>
              v.chains != [] && exists k :: 0 <= k < |pairs| && pairs[k] == (v.higherLayer, v.lowerLayer)
                                             && PathsAt(g, pairs, k, direct, indirect) == Ok(v.chains)
  {
    if pairs != [] {
      var n := |pairs| - 1;
      var init := pairs[..n];
      ViolationsFromPairs(g, init, direct, indirect);
      forall k | 0 <= k < n ensures PathsAt(g, init, k, direct, indirect) == PathsAt(g, pairs, k, direct, indirect) && init[k] == pairs[k] {
        PathsAtPrefix(g, pairs, n, k, direct, indirect);
      }
    }
  }

  /**
   * What `check` returns or raises: a missing layer first, then the violations of every banned
   * pair, in the generator's order, each searched in the graph the earlier pairs have popped.
   */
  function CheckOutcome(g: Graph, levels: seq<seq<Layer>>, direct: DirectImportsFinder, indirect: IndirectChainsFinder)
    : Result<Contract.ContractCheck<seq<Violation>>>
  {
    match ExistenceError(g, levels)
    case Some(e) => Err(e)
    case None =>
      match Violations(g, ModulePermutations(levels), direct, indirect)
      case Err(e) => Err(e)
      case Ok(violations) => Ok(Contract.NewContractCheck(violations == [], Some(map["violations" := violations]), None))
  }

  /**
   * The kept rule: a checked contract is kept exactly when no banned pair, visited in the
   * generator's order, has a direct import group or an indirect chain from its lower layer to its
   * higher one in the graph as the pairs before it have left it; every pair visited is banned.
   */
  lemma {:induction false} KeptIff(g: Graph, levels: seq<seq<Layer>>, direct: DirectImportsFinder, indirect: IndirectChainsFinder)
    requires CheckOutcome(g, levels, direct, indirect).Ok?
    ensures var pairs := ModulePermutations(levels);
            CheckOutcome(g, levels, direct, indirect).value.kept <==>
              forall k :: 0 <= k < |pairs| ==> PathsAt(g, pairs, k, direct, indirect) == Ok([])
    ensures forall p :: p in ModulePermutations(levels) ==> exists i :: 0 <= i < |levels| && BannedAt(levels, i, p)
  {
    var pairs := ModulePermutations(levels);
    ViolationsEmptyIff(g, pairs, direct, indirect);
    assert CheckOutcome(g, levels, direct, indirect).value.kept <==> Violations(g, pairs, direct, indirect).value == [];
    forall p | p in pairs ensures exists i :: 0 <= i < |levels| && BannedAt(levels, i, p) {
      ModulePermutationsSpec(levels, p);
    }
  }

  /** A check that gets as far as a result found every layer in the graph. */
  lemma {:induction false} CheckedLayersExist(g: Graph, levels: seq<seq<Layer>>, direct: DirectImportsFinder, indirect: IndirectChainsFinder)
    requires CheckOutcome(g, levels, direct, indirect).Ok?
    ensures forall j, q :: 0 <= j < |levels| && 0 <= q < |levels[j]| ==> levels[j][q].name in g.modules
  {
    ExistenceErrorSpec(g, levels);
  }

  /** One more pair extends the violations by its own, if it has chains. */
  lemma {:induction false} ViolationsStep(g: Graph, pairs: seq<(string, string)>, i: nat, direct: DirectImportsFinder, indirect: IndirectChainsFinder,
                       found: seq<Violation>, paths: seq<Path>)
    requires i < |pairs|
    requires Violations(g, pairs[..i], direct, indirect) == Ok(found)
    requires PathsAt(g, pairs, i, direct, indirect) == Ok(paths)
    ensures Violations(g, pairs[..i + 1], direct, indirect) ==
              Ok(found + if paths != [] then [Violation(pairs[i].0, pairs[i].1, paths)] else [])
  {
    assert pairs[..i + 1][..i] == pairs[..i];
    PathsAtPrefix(g, pairs, i + 1, i, direct, indirect);
  }

  /** One more pair popped: the graph the next pair sees. */
  lemma {:induction false} PoppedStep(g: Graph, pairs: seq<(string, string)>, i: nat, direct: DirectImportsFinder)
    requires i < |pairs|
    ensures Popped(g, pairs[..i + 1], direct) == PopPair(Popped(g, pairs[..i], direct), pairs[i], direct)
  {
    assert pairs[..i + 1][..i] == pairs[..i];
  }

  /**
   * The body of `check`'s loop for one pair: the direct imports are popped from the shared graph
   * itself, and the indirect chains are searched in what is left of it. The temporary copy that
   * `_remove_layers` is given keeps every module as written (`RemoveLayersAsWrittenKeepsAll`)
   * and is never read again, so it is not built here.
   */
  method CheckPair(graph: MutableGraph, levels: seq<seq<Layer>>, pair: (string, string), direct: DirectImportsFinder, indirect: IndirectChainsFinder)
    returns (r: Result<seq<Path>>)
    modifies graph
    ensures r == PairPaths(old(graph.value), pair, direct, indirect)
    ensures graph.value == PopPair(old(graph.value), pair, direct)
  {
    var (higherLayer, lowerLayer) := pair;
    var (directImports, popped) := direct(higherLayer, lowerLayer, graph.value);
    graph.value := popped;
    var directPaths := DirectViolationPaths(directImports);
    if directPaths.Err? {
      return Err(directPaths.error);
    }
    return Ok(directPaths.value + indirect(graph.value, lowerLayer, higherLayer));
  }

  /**
   * The loop of `check` over the banned pairs, appending a violation for each pair with chains;
   * the shared graph is left with the direct imports of every pair visited popped.
   */
  method FindViolations(graph: MutableGraph, levels: seq<seq<Layer>>, permutations: seq<(string, string)>,
                        direct: DirectImportsFinder, indirect: IndirectChainsFinder)
    returns (r: Result<seq<Violation>>)
    modifies graph
    ensures r == Violations(old(graph.value), permutations, direct, indirect)
    ensures r.Ok? ==> graph.value == Popped(old(graph.value), permutations, direct)
    ensures r.Err? ==> exists i :: 0 <= i < |permutations| && graph.value == PoppedThrough(old(graph.value), permutations, i, direct)
  {
    ghost var g := graph.value;
    var violations: seq<Violation> := [];
    var i := 0;
    while i < |permutations|
      invariant 0 <= i <= |permutations|
      invariant Violations(g, permutations[..i], direct, indirect) == Ok(violations)
      invariant graph.value == Popped(g, permutations[..i], direct)
    {
      ghost var before := graph.value;
      var violationPaths := CheckPair(graph, levels, permutations[i], direct, indirect);
      assert violationPaths == PathsAt(g, permutations, i, direct, indirect);
      PoppedStep(g, permutations, i, direct);
      assert graph.value == PoppedThrough(g, permutations, i, direct);
      if violationPaths.Err? {
        assert permutations[..i + 1][..i] == permutations[..i];
        ViolationsPrefixError(g, permutations, i + 1, direct, indirect);
        return Err(violationPaths.error);
      }
      ViolationsStep(g, permutations, i, direct, indirect, violations, violationPaths.value);
      ghost var next := violations + if violationPaths.value != [] then [Violation(permutations[i].0, permutations[i].1, violationPaths.value)] else [];
      if violationPaths.value != [] {
        violations := violations + [Violation(permutations[i].0, permutations[i].1, violationPaths.value)];
      }
      assert violations == next;
      i := i + 1;
    }
    assert permutations[..i] == permutations;
    return Ok(violations);
  }

  /**
   * `check`: the direct imports of every banned pair visited are popped from the graph it is
   * given, which is left that way.
   */
  method Check(graph: MutableGraph, levels: seq<seq<Layer>>, direct: DirectImportsFinder, indirect: IndirectChainsFinder)
    returns (r: Result<Contract.ContractCheck<seq<Violation>>>)
    modifies graph
    ensures r == CheckOutcome(old(graph.value), levels, direct, indirect)
    ensures ExistenceError(old(graph.value), levels).Some? ==> graph.value == old(graph.value)
    ensures r.Ok? ==> graph.value == Popped(old(graph.value), ModulePermutations(levels), direct)
  {
    var missing := CheckAllLayersExist(graph.value, levels);
    if missing.Some? {
      return Err(missing.value);
    }
    var violations := FindViolations(graph, levels, ModulePermutations(levels), direct, indirect);
    if violations.Err? {
      return Err(violations.error);
    }
    return Ok(Contract.NewContractCheck(violations.value == [], Some(map["violations" := violations.value]), None));
  }

  const BothNoneMessage := "Both 'importer' and 'imported' cannot be None"

  /** The line numbers as "l.n", separated by commas. */
  function LineNumbersText(lineNumbers: seq<string>): string {
    Join(seq(|lineNumbers|, k requires 0 <= k < |lineNumbers| => "l." + lineNumbers[k]), ", ")
  }

  /** `format_import`: the prefix, the modules given, and the line numbers in parentheses. */
  function FormatImport(importer: Option<string>, imported: Option<string>, lineNumbers: seq<string>, prefix: string): (r: Result<string>)
    ensures r.Err? <==> importer.None? && imported.None?
    ensures r.Err? ==> r.error == BothNoneMessage
  {
    var linesText := LineNumbersText(lineNumbers);
    if importer.Some? && imported.Some? then Ok(prefix + importer.value + " -> " + imported.value + " (" + linesText + ")")
    else if importer.Some? then Ok(prefix + importer.value + " (" + linesText + ")")
    else if imported.Some? then Ok(prefix + imported.value + " (" + linesText + ")")
    else Err(BothNoneMessage)
  }

  /** A concatenation starts with its first part and ends with its second. */
  lemma {:induction false} Affixes(head: string, tail: string)
    ensures StartsWith(head + tail, head) && EndsWith(head + tail, tail)
  {
    assert (head + tail)[..|head|] == head;
    assert (head + tail)[|head + tail| - |tail|..] == tail;
  }

  /**
   * The rendering is "importer -> imported" when both are given and either alone otherwise,
   * after the prefix and before the line numbers in parentheses.
   */
  lemma {:induction false} FormatImportSpec(importer: Option<string>, imported: Option<string>, lineNumbers: seq<string>, prefix: string)
    ensures FormatImport(importer, imported, lineNumbers, prefix).Ok? ==>
              EndsWith(FormatImport(importer, imported, lineNumbers, prefix).value, " (" + LineNumbersText(lineNumbers) + ")")
    ensures importer.Some? && imported.Some? ==>
              StartsWith(FormatImport(importer, imported, lineNumbers, prefix).value, prefix + importer.value + " -> " + imported.value + " (")
    ensures importer.Some? && imported.None? ==>
              StartsWith(FormatImport(importer, imported, lineNumbers, prefix).value, prefix + importer.value + " (")
    ensures importer.None? && imported.Some? ==>
              StartsWith(FormatImport(importer, imported, lineNumbers, prefix).value, prefix + imported.value + " (")
  {
    var linesText := LineNumbersText(lineNumbers);
    var r := FormatImport(importer, imported, lineNumbers, prefix);
    if r.Ok? {
      var head := if importer.Some? && imported.Some? then prefix + importer.value + " -> " + imported.value
                  else if importer.Some? then prefix + importer.value
                  else prefix + imported.value;
      assert r.value == head + (" (" + linesText + ")");
      Affixes(head, " (" + linesText + ")");
      assert r.value == (head + " (") + (linesText + ")");
      Affixes(head + " (", linesText + ")");
    }
  }
}
