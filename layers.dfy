/**
 * The layers contract (src/importlinter/contracts/layers.py): how a layer is read from the
 * configuration, how containers and layers are validated against the graph, which modules an
 * exhaustive contract finds undeclared, and when the contract is kept.
 */
module Layers {
  import opened Wrappers
  import opened Strings
  import opened Imports
  import opened Graphs
  import opened Fields
  import Contract
  import Common

  const IndependentDelimiter := '|'
  const NonIndependentDelimiter := ':'

  /** The last part of a module name under a container, and whether the layer may be absent. */
  datatype ModuleTail = ModuleTail(name: string, isOptional: bool)

  /** One layer: its sibling modules, and whether they must be independent of each other. */
  datatype Layer = Layer(moduleTails: set<ModuleTail>, isIndependent: bool)

  const MixedDelimitersMessage := "Layer cannot have a mixture of independent and non-independent elements."

  /** The pieces of `raw` between occurrences of `c`, each stripped of surrounding whitespace. */
  function StrippedParts(raw: string, c: char): seq<string> {
    var parts := Split(raw, c);
    seq(|parts|, k requires 0 <= k < |parts| => Strip(parts[k]))
  }

  /** `_parse_raw_module_tails`: split on "|" if present, else on ":" if present, else one piece. */
  function RawModuleTails(raw: string): seq<string> {
    if IndependentDelimiter in raw then StrippedParts(raw, IndependentDelimiter)
    else if NonIndependentDelimiter in raw then StrippedParts(raw, NonIndependentDelimiter)
    else [Strip(raw)]
  }

  /** A string without leading or trailing whitespace. */
  predicate Unpadded(s: string) {
    s == "" || (!IsSpace(s[0]) && !IsSpace(s[|s| - 1]))
  }

  /** The pieces of a split are stripped and free of the delimiter. */
  lemma {:induction false} StrippedPartsSpec(raw: string, c: char)
    ensures |StrippedParts(raw, c)| >= 1
    ensures forall k :: 0 <= k < |StrippedParts(raw, c)| ==>
              Unpadded(StrippedParts(raw, c)[k]) && c !in StrippedParts(raw, c)[k]
  {
    var parts := Split(raw, c);
    SplitPartsFree(raw, c);
    forall k | 0 <= k < |parts| ensures c !in Strip(parts[k]) {
      var i, j :| 0 <= i <= j <= |parts[k]| && Strip(parts[k]) == parts[k][i..j];
      assert forall x :: x in parts[k][i..j] ==> x in parts[k];
    }
  }

  /**
   * The tails are never empty as a list, each is stripped, and none contains the delimiter
   * that was split on; without delimiters the whole stripped string is the one tail.
   */
  lemma {:induction false} RawModuleTailsSpec(raw: string)
    ensures |RawModuleTails(raw)| >= 1
    ensures forall k :: 0 <= k < |RawModuleTails(raw)| ==> Unpadded(RawModuleTails(raw)[k])
    ensures IndependentDelimiter in raw ==>
              forall k :: 0 <= k < |RawModuleTails(raw)| ==> IndependentDelimiter !in RawModuleTails(raw)[k]
    ensures IndependentDelimiter !in raw ==>
              forall k :: 0 <= k < |RawModuleTails(raw)| ==> IndependentDelimiter !in RawModuleTails(raw)[k]
                                                                && NonIndependentDelimiter !in RawModuleTails(raw)[k]
    ensures IndependentDelimiter !in raw && NonIndependentDelimiter !in raw ==> RawModuleTails(raw) == [Strip(raw)]
  {
    if IndependentDelimiter in raw {
      StrippedPartsSpec(raw, IndependentDelimiter);
    } else if NonIndependentDelimiter in raw {
      StrippedPartsSpec(raw, NonIndependentDelimiter);
      var parts := Split(raw, NonIndependentDelimiter);
      forall k | 0 <= k < |parts| ensures IndependentDelimiter !in Strip(parts[k]) {
        StripWithin(raw, NonIndependentDelimiter, k);
      }
    } else {
      var i, j :| 0 <= i <= j <= |raw| && Strip(raw) == raw[i..j];
      assert forall x :: x in raw[i..j] ==> x in raw;
    }
  }

  /** A stripped piece of a split holds only characters of the whole string. */
  lemma {:induction false} StripWithin(raw: string, c: char, k: int)
    requires 0 <= k < |Split(raw, c)|
    ensures forall x :: x in Strip(Split(raw, c)[k]) ==> x in raw
  {
    var part := Split(raw, c)[k];
    JoinSplit(raw, [c]);
    JoinHolds(Split(raw, c), [c], k);
    var i, j :| 0 <= i <= j <= |part| && Strip(part) == part[i..j];
    assert forall x :: x in part[i..j] ==> x in part;
  }

  /** Every character of a part is a character of the joined string. */
  lemma {:induction false} JoinHolds(parts: seq<string>, sep: string, k: int)
    requires 0 <= k < |parts|
    ensures forall x :: x in parts[k] ==> x in Join(parts, sep)
    decreases |parts|
  {
    if |parts| > 1 {
      assert Join(parts, sep) == parts[0] + sep + Join(parts[1..], sep);
      if k > 0 {
        JoinHolds(parts[1..], sep, k - 1);
      }
    }
  }

  /**
   * Layer names free of whitespace at their ends and of "|", written with "|" between them,
   * come back as they were: `_parse_raw_module_tails` undoes joining.
   */
  lemma {:induction false} RawModuleTailsRoundTrip(names: seq<string>)
    requires |names| >= 2
    requires forall k :: 0 <= k < |names| ==> Unpadded(names[k]) && IndependentDelimiter !in names[k]
    ensures RawModuleTails(Join(names, [IndependentDelimiter])) == names
  {
    var raw := Join(names, [IndependentDelimiter]);
    assert raw == names[0] + [IndependentDelimiter] + Join(names[1..], [IndependentDelimiter]);
    assert raw[|names[0]|] == IndependentDelimiter;
    assert RawModuleTails(raw) == StrippedParts(raw, IndependentDelimiter);
    SplitJoin(names, IndependentDelimiter);
    StrippedPartsUnpadded(raw, IndependentDelimiter, names);
  }

  /** When the pieces of a split have no whitespace at their ends, stripping keeps them as they are. */
  lemma {:induction false} StrippedPartsUnpadded(raw: string, c: char, names: seq<string>)
    requires Split(raw, c) == names
    requires forall k :: 0 <= k < |names| ==> Unpadded(names[k])
    ensures StrippedParts(raw, c) == names
  {
    forall k | 0 <= k < |names| ensures Strip(names[k]) == names[k] {
      StripUnpadded(names[k]);
    }
  }

  /** `_parse_is_independent`: "|" means independent, ":" not, neither means independent, both is an error. */
  function ParseIsIndependent(raw: string): (r: Result<bool>)
    ensures r.Err? <==> IndependentDelimiter in raw && NonIndependentDelimiter in raw
    ensures r.Err? ==> r.error == MixedDelimitersMessage
    ensures r == Ok(false) <==> NonIndependentDelimiter in raw && IndependentDelimiter !in raw
  {
    if IndependentDelimiter in raw && NonIndependentDelimiter in raw then Err(MixedDelimitersMessage)
    else if IndependentDelimiter in raw then Ok(true)
    else if NonIndependentDelimiter in raw then Ok(false)
    else Ok(true)
  }

  /** One tail: wrapped in parentheses, it is optional and loses them. */
  function ParseTail(raw: string): (t: ModuleTail)
    ensures t.isOptional <==> StartsWith(raw, "(") && EndsWith(raw, ")")
    ensures t.isOptional ==> "(" + t.name + ")" == raw
    ensures !t.isOptional ==> t.name == raw
  {
    if StartsWith(raw, "(") && EndsWith(raw, ")") then
      assert raw[..1] == "(" && raw[|raw| - 1..] == ")";
      assert raw[0] == '(' && raw[|raw| - 1] == ')';
      assert raw == [raw[0]] + raw[1..|raw| - 1] + [raw[|raw| - 1]];
      ModuleTail(raw[1..|raw| - 1], true)
    else ModuleTail(raw, false)
  }

  /** The tails of a layer string. */
  function TailsOf(raw: string): set<ModuleTail> {
    var raws := RawModuleTails(raw);
    set k | 0 <= k < |raws| :: ParseTail(raws[k])
  }

  /** What `LayerField.parse` gives for a raw configuration value. */
  function LayerOf(raw: Raw): Parsed<Layer> {
    match ParseString(raw)
    case Value(s) =>
      (match ParseIsIndependent(s)
       case Ok(independent) => Value(Layer(TailsOf(s), independent))
       case Err(e) => Invalid(e))
    case Invalid(m) => Invalid(m)
    case Raised(e) => Raised(e)
  }

  /** The loop of `LayerField.parse` that turns each raw tail into a `ModuleTail`. */
  method CollectTails(rawModuleTails: seq<string>) returns (moduleTails: set<ModuleTail>)
    ensures forall t :: t in moduleTails <==> exists k :: 0 <= k < |rawModuleTails| && t == ParseTail(rawModuleTails[k])
  {
    moduleTails := {};
    var i := 0;
    while i < |rawModuleTails|
      invariant 0 <= i <= |rawModuleTails|
      invariant forall t :: t in moduleTails <==> exists k :: 0 <= k < i && t == ParseTail(rawModuleTails[k])
    {
      moduleTails := moduleTails + {ParseTail(rawModuleTails[i])};
      i := i + 1;
    }
  }

  /** `LayerField.parse`. */
  method ParseLayer(raw: Raw) returns (r: Parsed<Layer>)
    ensures r == LayerOf(raw)
  {
    if raw.ListOf? {
      return Invalid(MultipleValuesMessage);
    }
    var rawString := StrOf(raw);
    var moduleTails := CollectTails(RawModuleTails(rawString));
    assert moduleTails == TailsOf(rawString);
    var isIndependent := ParseIsIndependent(rawString);
    if isIndependent.Err? {
      return Invalid(isIndependent.error);
    }
    return Value(Layer(moduleTails, isIndependent.value));
  }

  /** A layer read from a string holds exactly the parsed tails, and is independent unless ":" was used. */
  lemma {:induction false} LayerOfString(s: string)
    ensures LayerOf(Str(s)).Invalid? <==> IndependentDelimiter in s && NonIndependentDelimiter in s
    ensures LayerOf(Str(s)).Value? ==>
              && LayerOf(Str(s)).value.isIndependent == (NonIndependentDelimiter !in s)
              && forall t :: t in LayerOf(Str(s)).value.moduleTails <==>
                   exists k :: 0 <= k < |RawModuleTails(s)| && t == ParseTail(RawModuleTails(s)[k])
  {
  }

  /** A list is refused: a layer is a single string. */
  lemma {:induction false} LayerOfList(items: seq<Raw>)
    ensures LayerOf(ListOf(items)) == Invalid(MultipleValuesMessage)
  {
  }

  /** The options of a layers contract that its checks read. */
  datatype LayersOptions = LayersOptions(
    layers: seq<Layer>,
    containers: Option<seq<string>>,
    exhaustive: bool,
    exhaustiveIgnores: Option<set<string>>)

  const ExhaustiveMessage := "The exhaustive option is not supported for contracts without containers."

  /** `if self.containers`: containers were given, and not as an empty list. */
  predicate HasContainers(containers: Option<seq<string>>) {
    containers.Some? && containers.value != []
  }

  /** `validate`: an exhaustive contract must name its containers. */
  function Validate(options: LayersOptions): (r: Option<map<string, string>>)
    ensures r.Some? <==> options.exhaustive && !HasContainers(options.containers)
    ensures r.Some? ==> r.value.Keys == {"exhaustive"} && r.value["exhaustive"] == ExhaustiveMessage
  {
    if options.exhaustive && !HasContainers(options.containers) then Some(map["exhaustive" := ExhaustiveMessage])
    else None
  }

  /** The tails of all the layers together. */
  function AllTails(layers: seq<Layer>): set<ModuleTail> {
    if layers == [] then {} else layers[0].moduleTails + AllTails(layers[1..])
  }

  /** A tail belongs to the union exactly when some layer has it. */
  lemma {:induction false} AllTailsSpec(layers: seq<Layer>)
    ensures forall t :: t in AllTails(layers) <==> exists k :: 0 <= k < |layers| && t in layers[k].moduleTails
  {
    if layers != [] {
      AllTailsSpec(layers[1..]);
      assert AllTails(layers) == layers[0].moduleTails + AllTails(layers[1..]);
      forall t | t in AllTails(layers) ensures exists k :: 0 <= k < |layers| && t in layers[k].moduleTails {
        if t !in layers[0].moduleTails {
          var k :| 0 <= k < |layers| - 1 && t in layers[1..][k].moduleTails;
          assert t in layers[k + 1].moduleTails;
        }
      }
      forall t | exists k :: 0 <= k < |layers| && t in layers[k].moduleTails ensures t in AllTails(layers) {
        var k :| 0 <= k < |layers| && t in layers[k].moduleTails;
        if k > 0 {
          assert t in layers[1..][k - 1].moduleTails;
        }
      }
    }
  }

  /** `_get_all_module_tails_from_layers`. */
  method GetAllModuleTails(layers: seq<Layer>) returns (flattened: set<ModuleTail>)
    ensures flattened == AllTails(layers)
  {
    flattened := {};
    var i := 0;
    while i < |layers|
      invariant 0 <= i <= |layers|
      invariant forall t :: t in flattened <==> exists k :: 0 <= k < i && t in layers[k].moduleTails
    {
      flattened := flattened + layers[i].moduleTails;
      i := i + 1;
    }
    AllTailsSpec(layers);
  }

  /** The names of the tails that are not optional. */
  function RequiredNames(tails: set<ModuleTail>): set<string> {
    set t | t in tails && !t.isOptional :: t.name
  }

  /** Whether `container` is one of the root packages or inside one. */
  predicate InRootPackages(container: string, rootPackages: seq<string>) {
    exists k :: 0 <= k < |rootPackages| && IsInPackage(Module(container), Module(rootPackages[k]))
  }

  function InvalidContainerMessage(container: string, rootPackages: seq<string>): string {
    if |rootPackages| == 1 then
      "Invalid container '" + container + "': a container must either be a subpackage of "
      + rootPackages[0] + ", or " + rootPackages[0] + " itself."
    else
      "Invalid container '" + container + "': a container must either be a root package, "
      + "or a subpackage of one of them. (The root packages are: " + Join(rootPackages, ", ") + ".)"
  }

  function MissingLayerInContainerMessage(container: string, moduleName: string): string {
    "Missing layer in container '" + container + "': module " + moduleName + " does not exist."
  }

  /** The tail names whose module under `container` is not in the graph. */
  function MissingInContainer(g: Graph, container: string): string -> bool {
    name => container + "." + name !in g.modules
  }

  /** `_check_all_layers_exist_for_container`, visiting the required names in sorted order. */
  function ContainerLayersError(g: Graph, container: string, allTails: set<ModuleTail>): Option<string> {
    match FirstWhere(Sorted(RequiredNames(allTails)), MissingInContainer(g, container))
    case None => None
    case Some(name) => Some(MissingLayerInContainerMessage(container, container + "." + name))
  }

  /**
   * There is no error exactly when every required tail exists under the container; an error
   * names the module of a required tail that is missing.
   */
  lemma {:induction false} ContainerLayersErrorSpec(g: Graph, container: string, allTails: set<ModuleTail>)
    ensures ContainerLayersError(g, container, allTails).None? <==>
              forall t :: t in allTails && !t.isOptional ==> container + "." + t.name in g.modules
    ensures ContainerLayersError(g, container, allTails).Some? ==>
              exists t :: t in allTails && !t.isOptional && container + "." + t.name !in g.modules
                          && ContainerLayersError(g, container, allTails).value
                             == MissingLayerInContainerMessage(container, container + "." + t.name)
  {
    var names := Sorted(RequiredNames(allTails));
    FirstWhereSpec(names, MissingInContainer(g, container));
    if ContainerLayersError(g, container, allTails).None? {
      forall t | t in allTails && !t.isOptional ensures container + "." + t.name in g.modules {
        assert t.name in names;
        var k :| 0 <= k < |names| && names[k] == t.name;
        assert !MissingInContainer(g, container)(names[k]);
      }
    } else {
      var k :| 0 <= k < |names| && names[k] == FirstWhere(names, MissingInContainer(g, container)).value
               && MissingInContainer(g, container)(names[k]);
      assert names[k] in RequiredNames(allTails);
      var t :| t in allTails && !t.isOptional && t.name == names[k];
    }
  }

  /** An optional tail never makes a container's layer check fail. */
  lemma {:induction false} OptionalTailNeverMissing(g: Graph, container: string, allTails: set<ModuleTail>, name: string)
    ensures ContainerLayersError(g, container, allTails + {ModuleTail(name, true)})
            == ContainerLayersError(g, container, allTails)
  {
    assert RequiredNames(allTails + {ModuleTail(name, true)}) == RequiredNames(allTails);
  }

  /** One container passes exactly when it lies in a root package and holds every required layer. */
  lemma {:induction false} ContainerErrorNone(g: Graph, container: string, rootPackages: seq<string>, allTails: set<ModuleTail>)
    ensures ContainerError(g, container, rootPackages, allTails).None? <==>
              InRootPackages(container, rootPackages)
              && forall t :: t in allTails && !t.isOptional ==> container + "." + t.name in g.modules
  {
    ContainerLayersErrorSpec(g, container, allTails);
  }

  /** The error `_validate_containers` raises for one container, if any. */
  function ContainerError(g: Graph, container: string, rootPackages: seq<string>, allTails: set<ModuleTail>): Option<string> {
    if !InRootPackages(container, rootPackages) then Some(InvalidContainerMessage(container, rootPackages))
    else ContainerLayersError(g, container, allTails)
  }

  function HasContainerError(g: Graph, rootPackages: seq<string>, allTails: set<ModuleTail>): string -> bool {
    container => ContainerError(g, container, rootPackages, allTails).Some?
  }

  /** `_validate_containers`, visiting the containers in sorted order. */
  function ContainersError(g: Graph, containers: set<string>, rootPackages: seq<string>, allTails: set<ModuleTail>): Option<string> {
    match FirstWhere(Sorted(containers), HasContainerError(g, rootPackages, allTails))
    case None => None
    case Some(container) => ContainerError(g, container, rootPackages, allTails)
  }

  /**
   * The containers are valid exactly when each lies in a root package and holds every required
   * layer; otherwise the error is the one for some container.
   */
  lemma {:induction false} ContainersErrorSpec(g: Graph, containers: set<string>, rootPackages: seq<string>, allTails: set<ModuleTail>)
    ensures ContainersError(g, containers, rootPackages, allTails).None? <==>
              forall c :: c in containers ==>
                InRootPackages(c, rootPackages)
                && forall t :: t in allTails && !t.isOptional ==> c + "." + t.name in g.modules
    ensures ContainersError(g, containers, rootPackages, allTails).Some? ==>
              exists c :: c in containers
                          && ContainersError(g, containers, rootPackages, allTails) == ContainerError(g, c, rootPackages, allTails)
  {
    var bad := HasContainerError(g, rootPackages, allTails);
    FirstWhereInSet(Sorted(containers), containers, bad);
    forall c | c in containers {
      ContainerErrorNone(g, c, rootPackages, allTails);
    }
  }

  /** The loop of `_check_all_layers_exist_for_container`. */
  method CheckAllLayersExistForContainer(g: Graph, container: string, allModuleTails: set<ModuleTail>)
    returns (error: Option<string>)
    ensures error == ContainerLayersError(g, container, allModuleTails)
  {
    var missing := FindFirst(Sorted(RequiredNames(allModuleTails)), MissingInContainer(g, container));
    if missing.Some? {
      return Some(MissingLayerInContainerMessage(container, container + "." + missing.value));
    }
    return None;
  }

  /** The loop of `_validate_containers`. */
  method ValidateContainers(g: Graph, containers: set<string>, rootPackages: seq<string>, allModuleTails: set<ModuleTail>)
    returns (error: Option<string>)
    ensures error == ContainersError(g, containers, rootPackages, allModuleTails)
  {
    var sorted := Sorted(containers);
    ghost var bad := HasContainerError(g, rootPackages, allModuleTails);
    var i := 0;
    while i < |sorted|
      invariant 0 <= i <= |sorted|
      invariant FirstWhere(sorted, bad) == FirstWhere(sorted[i..], bad)
    {
      var container := sorted[i];
      FirstWhereAt(sorted, i, bad);
      if !InRootPackages(container, rootPackages) {
        assert bad(container);
        return Some(InvalidContainerMessage(container, rootPackages));
      }
      error := CheckAllLayersExistForContainer(g, container, allModuleTails);
      if error.Some? {
        assert bad(container);
        return;
      }
      assert !bad(container);
      i := i + 1;
    }
    assert sorted[i..] == [];
    return None;
  }

  function MissingLayerMessage(name: string): string {
    "Missing layer '" + name + "': module " + name + " does not exist."
  }

  /** The required names of the layers, layer by layer, each layer's in sorted order. */
  function VisitOrder(layers: seq<Layer>): seq<string> {
    if layers == [] then [] else Sorted(RequiredNames(layers[0].moduleTails)) + VisitOrder(layers[1..])
  }

  /** The names visited are exactly the required names of the layers. */
  lemma {:induction false} VisitOrderSpec(layers: seq<Layer>)
    ensures forall n :: n in VisitOrder(layers) <==> exists k :: 0 <= k < |layers| && n in RequiredNames(layers[k].moduleTails)
  {
    if layers != [] {
      VisitOrderSpec(layers[1..]);
      forall n ensures n in VisitOrder(layers) <==> exists k :: 0 <= k < |layers| && n in RequiredNames(layers[k].moduleTails) {
        VisitOrderCons(layers, n);
        SomeLayerCons(layers, n);
      }
    }
  }

  /** A name is visited in the first layer or in the rest. */
  lemma {:induction false} VisitOrderCons(layers: seq<Layer>, n: string)
    requires layers != []
    ensures n in VisitOrder(layers) <==> n in RequiredNames(layers[0].moduleTails) || n in VisitOrder(layers[1..])
  {
    var first := Sorted(RequiredNames(layers[0].moduleTails));
    assert VisitOrder(layers) == first + VisitOrder(layers[1..]);
  }

  /** A name is required by some layer when it is by the first or by one of the rest. */
  lemma {:induction false} SomeLayerCons(layers: seq<Layer>, n: string)
    requires layers != []
    ensures (exists k :: 0 <= k < |layers| && n in RequiredNames(layers[k].moduleTails)) <==>
            n in RequiredNames(layers[0].moduleTails) || exists k :: 0 <= k < |layers[1..]| && n in RequiredNames(layers[1..][k].moduleTails)
  {
    if exists k :: 0 <= k < |layers| && n in RequiredNames(layers[k].moduleTails) {
      var k :| 0 <= k < |layers| && n in RequiredNames(layers[k].moduleTails);
      if k > 0 {
        assert layers[1..][k - 1] == layers[k];
      }
    }
    if exists k :: 0 <= k < |layers[1..]| && n in RequiredNames(layers[1..][k].moduleTails) {
      var k :| 0 <= k < |layers[1..]| && n in RequiredNames(layers[1..][k].moduleTails);
      assert layers[1..][k] == layers[k + 1];
    }
  }

  /** `_check_all_containerless_layers_exist`. */
  function ContainerlessError(g: Graph, layers: seq<Layer>): Option<string> {
    match FirstWhere(VisitOrder(layers), NotInGraph(g))
    case None => None
    case Some(name) => Some(MissingLayerMessage(name))
  }

  /**
   * Without containers there is no error exactly when every required tail of every layer is a
   * module of the graph; an error names a required tail that is not.
   */
  lemma {:induction false} ContainerlessErrorSpec(g: Graph, layers: seq<Layer>)
    ensures ContainerlessError(g, layers).None? <==>
              forall k, t :: 0 <= k < |layers| && t in layers[k].moduleTails && !t.isOptional ==> t.name in g.modules
    ensures ContainerlessError(g, layers).Some? ==>
              exists k, t :: 0 <= k < |layers| && t in layers[k].moduleTails && !t.isOptional
                             && t.name !in g.modules && ContainerlessError(g, layers).value == MissingLayerMessage(t.name)
  {
    var order := VisitOrder(layers);
    VisitOrderSpec(layers);
    FirstWhereSpec(order, NotInGraph(g));
    if ContainerlessError(g, layers).None? {
      forall k, t | 0 <= k < |layers| && t in layers[k].moduleTails && !t.isOptional ensures t.name in g.modules {
        assert t.name in RequiredNames(layers[k].moduleTails);
        assert t.name in order;
        var i :| 0 <= i < |order| && order[i] == t.name;
        assert !NotInGraph(g)(order[i]);
      }
    } else {
      var name := FirstWhere(order, NotInGraph(g)).value;
      var i :| 0 <= i < |order| && order[i] == name && NotInGraph(g)(order[i]);
      assert name in order;
      var k :| 0 <= k < |layers| && name in RequiredNames(layers[k].moduleTails);
      var t :| t in layers[k].moduleTails && !t.isOptional && t.name == name;
    }
  }

  /** The loops of `_check_all_containerless_layers_exist`. */
  method CheckAllContainerlessLayersExist(g: Graph, layers: seq<Layer>) returns (error: Option<string>)
    ensures error == ContainerlessError(g, layers)
  {
    var i := 0;
    while i < |layers|
      invariant 0 <= i <= |layers|
      invariant FirstWhere(VisitOrder(layers), NotInGraph(g)) == FirstWhere(VisitOrder(layers[i..]), NotInGraph(g))
    {
      var names := Sorted(RequiredNames(layers[i].moduleTails));
      assert layers[i..][1..] == layers[i + 1..];
      assert VisitOrder(layers[i..]) == names + VisitOrder(layers[i + 1..]);
      FirstWhereAppend(names, VisitOrder(layers[i + 1..]), NotInGraph(g));
      var missing := FindFirst(names, NotInGraph(g));
      if missing.Some? {
        return Some(MissingLayerMessage(missing.value));
      }
      i := i + 1;
    }
    return None;
  }

  /** A child of `container` is `container` followed by a dot and its last segment. */
  lemma {:induction false} ChildLastSegment(g: Graph, container: string, m: string)
    requires m in Children(g, container)
    ensures container + "." + LastSegment(m) == m
  {
    ChildOfIff(Module(m), Module(container));
    var seg :| '.' !in seg && m == container + "." + seg;
    SplitSnoc(container, '.', seg);
    assert container + "." + seg == container + ['.'] + seg;
  }

  /** The tail names and the exhaustive ignores: what a container's children may be called. */
  function DeclaredTails(allTails: set<ModuleTail>, exhaustiveIgnores: Option<set<string>>): set<string> {
    (set t | t in allTails :: t.name) + exhaustiveIgnores.GetOr({})
  }

  /** `_get_undeclared_modules`, with the declared tails given. */
  function UndeclaredModules(g: Graph, containers: set<string>, exhaustive: bool, declared: set<string>): set<string> {
    if !exhaustive then {}
    else set c, m | c in containers && m in Children(g, c) && LastSegment(m) !in declared :: c + "." + LastSegment(m)
  }

  /**
   * Nothing is undeclared unless the contract is exhaustive; then the undeclared modules are
   * exactly the children of containers whose last segment is not declared.
   */
  lemma {:induction false} UndeclaredModulesSpec(g: Graph, containers: set<string>, exhaustive: bool, declared: set<string>)
    ensures !exhaustive ==> UndeclaredModules(g, containers, exhaustive, declared) == {}
    ensures exhaustive ==>
              forall x :: x in UndeclaredModules(g, containers, exhaustive, declared) <==>
                exists c :: c in containers && x in Children(g, c) && LastSegment(x) !in declared
  {
    if exhaustive {
      forall x | x in UndeclaredModules(g, containers, exhaustive, declared)
        ensures exists c :: c in containers && x in Children(g, c) && LastSegment(x) !in declared
      {
        var c, m :| c in containers && m in Children(g, c) && LastSegment(m) !in declared && x == c + "." + LastSegment(m);
        ChildLastSegment(g, c, m);
      }
      forall x | exists c :: c in containers && x in Children(g, c) && LastSegment(x) !in declared
        ensures x in UndeclaredModules(g, containers, exhaustive, declared)
      {
        var c :| c in containers && x in Children(g, c) && LastSegment(x) !in declared;
        ChildLastSegment(g, c, x);
      }
    }
  }

  /** The inner loop of `_get_undeclared_modules`, over the children of one container. */
  method UndeclaredChildren(g: Graph, container: string, declared: set<string>) returns (found: set<string>)
    ensures forall x :: x in found <==> x in Children(g, container) && LastSegment(x) !in declared
  {
    found := {};
    var remaining := Children(g, container);
    while remaining != {}
      invariant remaining <= Children(g, container)
      invariant forall x :: x in found <==> x in Children(g, container) - remaining && LastSegment(x) !in declared
      decreases |remaining|
    {
      var m :| m in remaining;
      var tail := LastSegment(m);
      if tail !in declared {
        ChildLastSegment(g, container, m);
        found := found + {container + "." + tail};
      }
      remaining := remaining - {m};
    }
  }

  /** `_get_undeclared_modules`. */
  method GetUndeclaredModules(g: Graph, containers: set<string>, exhaustive: bool,
                              allModuleTails: set<ModuleTail>, exhaustiveIgnores: Option<set<string>>)
    returns (undeclared: set<string>)
    ensures undeclared == UndeclaredModules(g, containers, exhaustive, DeclaredTails(allModuleTails, exhaustiveIgnores))
  {
    var declared := DeclaredTails(allModuleTails, exhaustiveIgnores);
    UndeclaredModulesSpec(g, containers, exhaustive, declared);
    if !exhaustive {
      return {};
    }
    undeclared := {};
    var remaining := containers;
    while remaining != {}
      invariant remaining <= containers
      invariant forall x :: x in undeclared <==>
                  exists c :: c in containers - remaining && x in Children(g, c) && LastSegment(x) !in declared
      decreases |remaining|
    {
      var container :| container in remaining;
      var found := UndeclaredChildren(g, container, declared);
      undeclared := undeclared + found;
      remaining := remaining - {container};
    }
  }

  /** `grimp.Layer`: the names of a layer's siblings, and whether they are independent. */
  datatype GrimpLayer = GrimpLayer(moduleTails: set<string>, independent: bool)

  /** `_grimpify_layers`: the same layers, in the same order, by name only. */
  function GrimpifyLayers(layers: seq<Layer>): (r: seq<GrimpLayer>)
    ensures |r| == |layers|
    ensures forall k :: 0 <= k < |layers| ==>
              r[k].independent == layers[k].isIndependent
              && forall n :: n in r[k].moduleTails <==> exists t :: t in layers[k].moduleTails && t.name == n
  {
    seq(|layers|, k requires 0 <= k < |layers| => GrimpLayer(set t | t in layers[k].moduleTails :: t.name, layers[k].isIndependent))
  }

  /** A route of an illegal dependency: the importing heads, the modules between, the imported tails. */
  datatype Route = Route(heads: set<string>, middle: seq<string>, tails: set<string>)

  /**
   * `grimp.PackageDependency`: one lower layer importing one higher layer, by these routes. The
   * routes are a frozen set; they are listed in the order Python iterates it.
   */
  datatype PackageDependency = PackageDependency(importer: string, imported: string, routes: seq<Route>)

  /**
   * `find_illegal_dependencies_for_layers`, computed by the graph library. It returns a set of
   * dependencies; they are listed in the order Python iterates it.
   */
  type IllegalDependenciesFinder = (Graph, seq<GrimpLayer>, set<string>) -> seq<PackageDependency>

  /**
   * `build_detailed_chain_from_route` of the shared contract helpers, which is not part of this
   * model: the detailed chain of one route through the graph.
   */
  type RouteBuilder = (Route, Graph) -> Common.DetailedChain

  /** `_LayerChainData`: one illegal dependency, with a detailed chain per route. */
  datatype LayerChainData = LayerChainData(importer: string, imported: string, routes: seq<Common.DetailedChain>)

  /**
   * `_build_invalid_chains`: one entry per illegal dependency, in the order they are iterated,
   * naming its importer and imported layer and holding the detailed chain of each of its routes,
   * in order.
   */
  function BuildInvalidChains(dependencies: seq<PackageDependency>, g: Graph, build: RouteBuilder): (r: seq<LayerChainData>)
    ensures |r| == |dependencies|
    ensures forall k :: 0 <= k < |r| ==>
              && r[k].importer == dependencies[k].importer
              && r[k].imported == dependencies[k].imported
              && |r[k].routes| == |dependencies[k].routes|
              && forall j :: 0 <= j < |r[k].routes| ==> r[k].routes[j] == build(dependencies[k].routes[j], g)
  {
    seq(|dependencies|, k requires 0 <= k < |dependencies| =>
      LayerChainData(dependencies[k].importer, dependencies[k].imported,
                     seq(|dependencies[k].routes|, j requires 0 <= j < |dependencies[k].routes| => build(dependencies[k].routes[j], g))))
  }

  /** The metadata of a layers check: the invalid chains and the undeclared modules. */
  datatype LayersMetadata = InvalidChains(chains: seq<LayerChainData>) | Undeclared(modules: set<string>)

  /** The container names a check works with: the resolved ones when containers were given. */
  function ContainersUsed(options: LayersOptions, resolvedContainers: set<string>): set<string> {
    if HasContainers(options.containers) then resolvedContainers else {}
  }

  /** The error a check raises because of a bad container or a missing layer, if any. */
  function LayersError(options: LayersOptions, g: Graph, resolvedContainers: set<string>, rootPackages: seq<string>): Option<string> {
    if HasContainers(options.containers) then ContainersError(g, resolvedContainers, rootPackages, AllTails(options.layers))
    else ContainerlessError(g, options.layers)
  }

  /**
   * What `check` returns, or raises: `g` is the graph once the ignored imports are removed,
   * `resolvedContainers` the modules the container expressions name, and `warnings` those the
   * removal gave.
   */
  function CheckOutcome(options: LayersOptions, g: Graph, resolvedContainers: set<string>, rootPackages: seq<string>,
                        finder: IllegalDependenciesFinder, build: RouteBuilder, warnings: seq<string>)
    : (r: Result<Contract.ContractCheck<LayersMetadata>>)
    ensures r.Err? <==> LayersError(options, g, resolvedContainers, rootPackages).Some?
    ensures r.Err? ==> r.error == LayersError(options, g, resolvedContainers, rootPackages).value
    ensures r.Ok? ==>
              var dependencies := finder(g, GrimpifyLayers(options.layers), ContainersUsed(options, resolvedContainers));
              && r.value.warnings == warnings
              && r.value.metadata.Keys == {"invalid_dependencies", "undeclared_modules"}
              && r.value.metadata["invalid_dependencies"] == InvalidChains(BuildInvalidChains(dependencies, g, build))
              && (r.value.metadata["invalid_dependencies"].chains == [] <==> dependencies == [])
  {
    var error := LayersError(options, g, resolvedContainers, rootPackages);
    if error.Some? then Err(error.value)
    else
      var containers := ContainersUsed(options, resolvedContainers);
      var undeclared := UndeclaredModules(g, containers, options.exhaustive, DeclaredTails(AllTails(options.layers), options.exhaustiveIgnores));
      var dependencies := finder(g, GrimpifyLayers(options.layers), containers);
      Ok(Contract.ContractCheck(
        dependencies == [] && undeclared == {},
        map["invalid_dependencies" := InvalidChains(BuildInvalidChains(dependencies, g, build)),
            "undeclared_modules" := Undeclared(undeclared)],
        warnings))
  }

  /** A check that gets as far as a result found every required layer where it belongs. */
  lemma {:induction false} CheckedLayersExist(options: LayersOptions, g: Graph, resolvedContainers: set<string>, rootPackages: seq<string>,
                           finder: IllegalDependenciesFinder, build: RouteBuilder, warnings: seq<string>)
    requires CheckOutcome(options, g, resolvedContainers, rootPackages, finder, build, warnings).Ok?
    ensures HasContainers(options.containers) ==>
              forall c, t :: c in resolvedContainers && t in AllTails(options.layers) && !t.isOptional ==>
                InRootPackages(c, rootPackages) && c + "." + t.name in g.modules
    ensures !HasContainers(options.containers) ==>
              forall k, t :: 0 <= k < |options.layers| && t in options.layers[k].moduleTails && !t.isOptional ==>
                t.name in g.modules
  {
    if HasContainers(options.containers) {
      ContainersErrorSpec(g, resolvedContainers, rootPackages, AllTails(options.layers));
    } else {
      ContainerlessErrorSpec(g, options.layers);
    }
  }

  /**
   * The kept rule: a checked contract is kept exactly when the graph library finds no illegal
   * dependency and, for an exhaustive contract, every child of every container is declared.
   */
  lemma {:induction false} KeptIff(options: LayersOptions, g: Graph, resolvedContainers: set<string>, rootPackages: seq<string>,
                finder: IllegalDependenciesFinder, build: RouteBuilder, warnings: seq<string>)
    requires CheckOutcome(options, g, resolvedContainers, rootPackages, finder, build, warnings).Ok?
    ensures CheckOutcome(options, g, resolvedContainers, rootPackages, finder, build, warnings).value.kept <==>
              && finder(g, GrimpifyLayers(options.layers), ContainersUsed(options, resolvedContainers)) == []
              && (options.exhaustive ==>
                    forall c, m :: c in ContainersUsed(options, resolvedContainers) && m in Children(g, c) ==>
                      LastSegment(m) in DeclaredTails(AllTails(options.layers), options.exhaustiveIgnores))
  {
    var containers := ContainersUsed(options, resolvedContainers);
    var declared := DeclaredTails(AllTails(options.layers), options.exhaustiveIgnores);
    UndeclaredModulesSpec(g, containers, options.exhaustive, declared);
    if options.exhaustive && UndeclaredModules(g, containers, options.exhaustive, declared) != {} {
      var x :| x in UndeclaredModules(g, containers, options.exhaustive, declared);
      var c :| c in containers && x in Children(g, c) && LastSegment(x) !in declared;
    }
  }

  /** A layers contract being checked; `check` records the tails of all its layers. */
  class LayersContract {
    const options: LayersOptions
    var allModuleTails: set<ModuleTail>

    constructor (options: LayersOptions)
      ensures this.options == options && allModuleTails == {}
    {
      this.options := options;
      allModuleTails := {};
    }

    /** `check`. */
    method Check(g: Graph, resolvedContainers: set<string>, rootPackages: seq<string>,
                 finder: IllegalDependenciesFinder, build: RouteBuilder, warnings: seq<string>)
      returns (r: Result<Contract.ContractCheck<LayersMetadata>>)
      modifies this
      ensures allModuleTails == AllTails(options.layers)
      ensures r == CheckOutcome(options, g, resolvedContainers, rootPackages, finder, build, warnings)
    {
      allModuleTails := GetAllModuleTails(options.layers);
      var containers: set<string> := {};
      if HasContainers(options.containers) {
        containers := resolvedContainers;
      }
      var error: Option<string>;
      if HasContainers(options.containers) {
        error := ValidateContainers(g, containers, rootPackages, allModuleTails);
      } else {
        error := CheckAllContainerlessLayersExist(g, options.layers);
      }
      if error.Some? {
        return Err(error.value);
      }
      var undeclared := GetUndeclaredModules(g, containers, options.exhaustive, allModuleTails, options.exhaustiveIgnores);
      var dependencies := finder(g, GrimpifyLayers(options.layers), containers);
      var invalidChains := BuildInvalidChains(dependencies, g, build);
      return Ok(Contract.ContractCheck(
        dependencies == [] && undeclared == {},
        map["invalid_dependencies" := InvalidChains(invalidChains), "undeclared_modules" := Undeclared(undeclared)],
        warnings));
    }
  }
}
