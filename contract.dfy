/**
 * Contracts: populating their fields from the raw contract options, the result of a check,
 * and the registry of contract types (src/importlinter/domain/contract.py).
 */
module Contract {
  import opened Wrappers
  import opened Fields

  /** A field declared on a contract class, with the values its parser produces of type `V`. */
  datatype FieldSpec<V> = FieldSpec(settings: FieldSettings<V>, parse: Raw -> Parsed<V>)

  /** An entry of a contract class's own `__dict__`: a field, or any other attribute. */
  datatype ClassAttribute<V> = FieldAttribute(field: FieldSpec<V>) | OtherAttribute

  /** `_get_field_names` with `_get_field`: the fields declared on the class itself, in declaration order. */
  function GetFields<V>(classDict: seq<(string, ClassAttribute<V>)>): (r: seq<(string, FieldSpec<V>)>)
    ensures |r| <= |classDict|
    ensures forall k :: 0 <= k < |r| ==> (r[k].0, FieldAttribute(r[k].1)) in classDict
    ensures forall k :: 0 <= k < |classDict| && classDict[k].1.FieldAttribute? ==>
              (classDict[k].0, classDict[k].1.field) in r
  {
    if classDict == [] then []
    else
      var rest := GetFields(classDict[1..]);
      assert forall k :: 1 <= k < |classDict| ==> classDict[k] == classDict[1..][k - 1];
      if classDict[0].1.FieldAttribute? then [(classDict[0].0, classDict[0].1.field)] + rest else rest
  }

  /** The indices, from `from` on, of the entries of `classDict` that are fields, in increasing order. */
  function FieldPositions<V>(classDict: seq<(string, ClassAttribute<V>)>, from: nat): seq<nat>
    requires from <= |classDict|
    decreases |classDict| - from
  {
    if from == |classDict| then []
    else (if classDict[from].1.FieldAttribute? then [from] else []) + FieldPositions(classDict, from + 1)
  }

  /**
   * `r` holds exactly the field entries of `classDict` from `from` on, at the increasing positions
   * `pos`.
   */
  ghost predicate Picks<V>(classDict: seq<(string, ClassAttribute<V>)>, from: nat, pos: seq<nat>, r: seq<(string, FieldSpec<V>)>) {
    && |pos| == |r|
    && (forall k :: 0 <= k < |pos| ==> from <= pos[k] < |classDict| && classDict[pos[k]] == (r[k].0, FieldAttribute(r[k].1)))
    && (forall k1, k2 :: 0 <= k1 < k2 < |pos| ==> pos[k1] < pos[k2])
    && (forall i :: from <= i < |classDict| && classDict[i].1.FieldAttribute? ==> i in pos)
  }

  /** A field entry at `from` goes first. */
  lemma {:induction false} PicksField<V>(classDict: seq<(string, ClassAttribute<V>)>, from: nat, pos: seq<nat>,
                                         r: seq<(string, FieldSpec<V>)>)
    requires from < |classDict| && classDict[from].1.FieldAttribute? && Picks(classDict, from + 1, pos, r)
    ensures Picks(classDict, from, [from] + pos, [(classDict[from].0, classDict[from].1.field)] + r)
  {
    var pos', r' := [from] + pos, [(classDict[from].0, classDict[from].1.field)] + r;
    forall k | 0 <= k < |pos'|
      ensures from <= pos'[k] < |classDict| && classDict[pos'[k]] == (r'[k].0, FieldAttribute(r'[k].1))
    {
      if k > 0 {
        assert pos'[k] == pos[k - 1] && r'[k] == r[k - 1];
      }
    }
    forall k1, k2 | 0 <= k1 < k2 < |pos'| ensures pos'[k1] < pos'[k2] {
      assert pos'[k2] == pos[k2 - 1];
      if k1 > 0 {
        assert pos'[k1] == pos[k1 - 1];
      }
    }
  }

  /** Any other entry at `from` is skipped. */
  lemma {:induction false} PicksOther<V>(classDict: seq<(string, ClassAttribute<V>)>, from: nat, pos: seq<nat>,
                                         r: seq<(string, FieldSpec<V>)>)
    requires from < |classDict| && !classDict[from].1.FieldAttribute? && Picks(classDict, from + 1, pos, r)
    ensures Picks(classDict, from, pos, r)
  {
  }

  /** `GetFields` on the entries from `from` on picks exactly the field entries, keeping their order. */
  lemma {:induction false} FieldsFrom<V>(classDict: seq<(string, ClassAttribute<V>)>, from: nat)
    requires from <= |classDict|
    ensures Picks(classDict, from, FieldPositions(classDict, from), GetFields(classDict[from..]))
    decreases |classDict| - from
  {
    if from < |classDict| {
      FieldsFrom(classDict, from + 1);
      var pos, rest := FieldPositions(classDict, from + 1), GetFields(classDict[from + 1..]);
      assert classDict[from..][1..] == classDict[from + 1..];
      assert classDict[from..][0] == classDict[from];
      if classDict[from].1.FieldAttribute? {
        PicksField(classDict, from, pos, rest);
      } else {
        PicksOther(classDict, from, pos, rest);
      }
    }
  }

  /**
   * `_get_field_names` keeps the order of the class's `__dict__`: the fields are the field entries
   * at strictly increasing positions, and every field entry is among them.
   */
  lemma {:induction false} GetFieldsInOrder<V>(classDict: seq<(string, ClassAttribute<V>)>)
    ensures var pos := FieldPositions(classDict, 0);
            var r := GetFields(classDict);
            && |pos| == |r|
            && (forall k :: 0 <= k < |pos| ==> pos[k] < |classDict| && classDict[pos[k]] == (r[k].0, FieldAttribute(r[k].1)))
            && (forall k1, k2 :: 0 <= k1 < k2 < |pos| ==> pos[k1] < pos[k2])
            && (forall i :: 0 <= i < |classDict| && classDict[i].1.FieldAttribute? ==> i in pos)
  {
    FieldsFrom(classDict, 0);
    assert classDict[0..] == classDict;
    assert Picks(classDict, 0, FieldPositions(classDict, 0), GetFields(classDict));
  }

  const RequiredFieldMessage := "This is a required field."

  /** What `_populate_fields` does with one field: set an attribute, record an error, or let an exception out. */
  datatype FieldOutcome<V> = SetTo(value: Option<V>) | Error(message: string) | Abort(exception: string)

  function FieldStep<V>(name: string, field: FieldSpec<V>, options: map<string, Raw>): (r: FieldOutcome<V>)
    ensures name !in options && field.settings.default.Supplied? ==> r == SetTo(Some(field.settings.default.value))
    ensures name !in options && field.settings.default.NotSupplied? ==>
              r == if field.settings.required then Error(RequiredFieldMessage) else SetTo(None)
    ensures name in options ==> match field.parse(options[name])
                                case Value(v) => r == SetTo(Some(v))
                                case Invalid(m) => r == Error(m)
                                case Raised(e) => r == Abort(e)
  {
    if name !in options then
      if field.settings.default.Supplied? then SetTo(Some(field.settings.default.value))
      else if field.settings.required then Error(RequiredFieldMessage)
      else SetTo(None)
    else
      match field.parse(options[name])
      case Value(v) => SetTo(Some(v))
      case Invalid(m) => Error(m)
      case Raised(e) => Abort(e)
  }

  /** The attributes set and the errors recorded so far, or the exception that stopped the loop. */
  datatype Population<V> = Population(values: map<string, Option<V>>, errors: map<string, string>) | Aborted(exception: string)

  /** Records one field's outcome, unless an earlier field already stopped the loop. */
  function Record<V>(p: Population<V>, name: string, o: FieldOutcome<V>): Population<V> {
    match p
    case Aborted(_) => p
    case Population(values, errors) =>
      match o
      case SetTo(v) => Population(values[name := v], errors)
      case Error(m) => Population(values, errors[name := m])
      case Abort(e) => Aborted(e)
  }

  /** The effect of `_populate_fields`'s loop over the given fields. */
  function Populate<V>(fields: seq<(string, FieldSpec<V>)>, options: map<string, Raw>): Population<V>
    decreases |fields|
  {
    if fields == [] then Population(map[], map[])
    else
      var last := fields[|fields| - 1];
      Record(Populate(fields[..|fields| - 1], options), last.0, FieldStep(last.0, last.1, options))
  }

  /** One more turn of the loop records one more field. */
  lemma {:induction false} PopulateSnoc<V>(fields: seq<(string, FieldSpec<V>)>, i: nat, options: map<string, Raw>)
    requires i < |fields|
    ensures Populate(fields[..i + 1], options)
            == Record(Populate(fields[..i], options), fields[i].0, FieldStep(fields[i].0, fields[i].1, options))
  {
    assert fields[..i + 1][..i] == fields[..i];
  }

  /** The outcome of a field as the population records it. */
  ghost predicate Recorded<V>(p: Population<V>, name: string, o: FieldOutcome<V>) {
    match o
    case SetTo(v) => p.Population? && name in p.values && p.values[name] == v && name !in p.errors
    case Error(m) => p.Population? && name in p.errors && p.errors[name] == m && name !in p.values
    case Abort(_) => false
  }

  predicate DistinctNames<V>(fields: seq<(string, FieldSpec<V>)>) {
    forall i, j :: 0 <= i < j < |fields| ==> fields[i].0 != fields[j].0
  }

  /**
   * Each field is handled on its own: its attribute is set, or its error is recorded, exactly as
   * its own outcome says, and nothing is recorded for names that are not fields.
   */
  lemma {:induction false} PopulateFieldwise<V>(fields: seq<(string, FieldSpec<V>)>, options: map<string, Raw>)
    requires DistinctNames(fields)
    requires Populate(fields, options).Population?
    ensures forall k :: 0 <= k < |fields| ==>
              Recorded(Populate(fields, options), fields[k].0, FieldStep(fields[k].0, fields[k].1, options))
    ensures var p := Populate(fields, options);
            forall n :: n in p.values || n in p.errors ==> exists k :: 0 <= k < |fields| && fields[k].0 == n
    decreases |fields|
  {
    if fields != [] {
      var init := fields[..|fields| - 1];
      var last := fields[|fields| - 1];
      var p := Populate(fields, options);
      var q := Populate(init, options);
      assert q.Population?;
      assert DistinctNames(init);
      PopulateFieldwise(init, options);
      forall k | 0 <= k < |fields|
        ensures Recorded(p, fields[k].0, FieldStep(fields[k].0, fields[k].1, options))
      {
        if k < |init| {
          assert fields[k] == init[k];
          assert Recorded(q, init[k].0, FieldStep(init[k].0, init[k].1, options));
        }
      }
      forall n | n in p.values || n in p.errors ensures exists k :: 0 <= k < |fields| && fields[k].0 == n {
        if n != last.0 {
          assert n in q.values || n in q.errors;
          var k :| 0 <= k < |init| && init[k].0 == n;
          assert fields[k].0 == n;
        }
      }
    }
  }

  /** A field whose parser raises something other than a validation error stops the loop. */
  lemma {:induction false} PopulateAborts<V>(fields: seq<(string, FieldSpec<V>)>, options: map<string, Raw>)
    ensures Populate(fields, options).Aborted? <==>
              exists k :: 0 <= k < |fields| && FieldStep(fields[k].0, fields[k].1, options).Abort?
    decreases |fields|
  {
    if fields != [] {
      var init := fields[..|fields| - 1];
      PopulateAborts(init, options);
      if exists k :: 0 <= k < |init| && FieldStep(init[k].0, init[k].1, options).Abort? {
        var k :| 0 <= k < |init| && FieldStep(init[k].0, init[k].1, options).Abort?;
        assert fields[k] == init[k];
      }
      if exists k :: 0 <= k < |fields| && FieldStep(fields[k].0, fields[k].1, options).Abort? {
        var k :| 0 <= k < |fields| && FieldStep(fields[k].0, fields[k].1, options).Abort?;
        if k < |init| {
          assert fields[k] == init[k];
        }
      }
    }
  }

  /** How constructing a contract ends. */
  datatype PopulateResult<V> =
    | Populated(values: map<string, Option<V>>)
    | InvalidContractOptions(errors: map<string, string>)
    | RaisedDuringParse(exception: string)

  /** `_populate_fields`: every field is visited, then all the errors are raised together. */
  function PopulateOutcome<V>(fields: seq<(string, FieldSpec<V>)>, options: map<string, Raw>): PopulateResult<V>
  {
    match Populate(fields, options)
    case Aborted(e) => RaisedDuringParse(e)
    case Population(values, errors) =>
      if errors != map[] then InvalidContractOptions(errors) else Populated(values)
  }

  /**
   * Errors are collected for every field and raised once: the options are invalid exactly when
   * some field has an error and none aborts, and then the error mapping holds every field's message.
   */
  lemma {:induction false} ErrorsRaisedTogether<V>(fields: seq<(string, FieldSpec<V>)>, options: map<string, Raw>)
    requires DistinctNames(fields)
    ensures PopulateOutcome(fields, options).InvalidContractOptions? <==>
              (forall k :: 0 <= k < |fields| ==> !FieldStep(fields[k].0, fields[k].1, options).Abort?)
              && exists k :: 0 <= k < |fields| && FieldStep(fields[k].0, fields[k].1, options).Error?
    ensures PopulateOutcome(fields, options).InvalidContractOptions? ==>
              forall k :: 0 <= k < |fields| && FieldStep(fields[k].0, fields[k].1, options).Error? ==>
                var errors := PopulateOutcome(fields, options).errors;
                fields[k].0 in errors && errors[fields[k].0] == FieldStep(fields[k].0, fields[k].1, options).message
  {
    PopulateAborts(fields, options);
    if Populate(fields, options).Population? {
      PopulateFieldwise(fields, options);
      var p := Populate(fields, options);
      if p.errors != map[] {
        var n :| n in p.errors;
        var k :| 0 <= k < |fields| && fields[k].0 == n;
        assert FieldStep(fields[k].0, fields[k].1, options).Error?;
      }
    }
  }

  /** A contract: its name, the session and contract options, and the attributes its fields set. */
  class Contract<V> {
    var name: string
    var sessionOptions: map<string, Raw>
    var contractOptions: map<string, Raw>
    var attributes: map<string, Option<V>>

    constructor (name: string, sessionOptions: map<string, Raw>, contractOptions: map<string, Raw>)
      ensures this.name == name && this.sessionOptions == sessionOptions
      ensures this.contractOptions == contractOptions && attributes == map[]
    {
      this.name := name;
      this.sessionOptions := sessionOptions;
      this.contractOptions := contractOptions;
      attributes := map[];
    }

    /** The body of `_populate_fields`'s loop for one field: sets its attribute, or says what else happened. */
    method PopulateField(fieldName: string, field: FieldSpec<V>) returns (outcome: FieldOutcome<V>)
      modifies this`attributes
      ensures outcome == FieldStep(fieldName, field, contractOptions)
      ensures attributes == if outcome.SetTo? then old(attributes)[fieldName := outcome.value] else old(attributes)
    {
      if fieldName !in contractOptions {
        if field.settings.default.Supplied? {
          attributes := attributes[fieldName := Some(field.settings.default.value)];
          return SetTo(Some(field.settings.default.value));
        } else if field.settings.required {
          return Error(RequiredFieldMessage);
        } else {
          attributes := attributes[fieldName := None];
          return SetTo(None);
        }
      }
      var rawData := contractOptions[fieldName];
      var clean := field.parse(rawData);
      match clean
      case Raised(e) =>
        return Abort(e);
      case Invalid(m) =>
        return Error(m);
      case Value(v) =>
        attributes := attributes[fieldName := Some(v)];
        return SetTo(Some(v));
    }

    /**
     * `_populate_fields`, run by `__init__` over the fields declared on the contract class: every
     * field's error is collected and the errors are raised together.
     */
    method PopulateFields(classDict: seq<(string, ClassAttribute<V>)>) returns (r: PopulateResult<V>)
      modifies this`attributes
      ensures r == PopulateOutcome(GetFields(classDict), contractOptions)
      ensures r.Populated? ==> attributes == old(attributes) + r.values
    {
      var fields := GetFields(classDict);
      var errors: map<string, string> := map[];
      var setValues: map<string, Option<V>> := map[];
      var i := 0;
      while i < |fields|
        invariant 0 <= i <= |fields|
        invariant Populate(fields[..i], contractOptions) == Population(setValues, errors)
        invariant attributes == old(attributes) + setValues
      {
        PopulateSnoc(fields, i, contractOptions);
        var outcome := PopulateField(fields[i].0, fields[i].1);
        match outcome {
          case Abort(e) =>
            PopulatePrefixAborted(fields, i + 1, contractOptions);
            return RaisedDuringParse(e);
          case Error(m) =>
            errors := errors[fields[i].0 := m];
          case SetTo(v) =>
            UnionUpdate(old(attributes), setValues, fields[i].0, v);
            setValues := setValues[fields[i].0 := v];
        }
        i := i + 1;
      }
      assert fields[..i] == fields;
      if errors != map[] {
        return InvalidContractOptions(errors);
      }
      return Populated(setValues);
    }
  }

  /** Updating a union of two maps is updating its right-hand side. */
  lemma {:induction false} UnionUpdate<K, W>(a: map<K, W>, b: map<K, W>, k: K, v: W)
    ensures (a + b)[k := v] == a + b[k := v]
  {
  }

  /** Once a prefix of the fields aborts, so does the whole loop, with the same exception. */
  lemma {:induction false} PopulatePrefixAborted<V>(fields: seq<(string, FieldSpec<V>)>, i: nat, options: map<string, Raw>)
    requires i <= |fields| && Populate(fields[..i], options).Aborted?
    ensures Populate(fields, options) == Populate(fields[..i], options)
    decreases |fields| - i
  {
    if i < |fields| {
      assert fields[..i + 1][..i] == fields[..i];
      PopulatePrefixAborted(fields, i + 1, options);
    } else {
      assert fields[..i] == fields;
    }
  }

  /** The result of checking a contract. */
  datatype ContractCheck<M> = ContractCheck(kept: bool, metadata: map<string, M>, warnings: seq<string>)

  /** `ContractCheck(kept, metadata, warnings)`: missing (or empty) metadata and warnings become `{}` and `[]`. */
  function NewContractCheck<M>(kept: bool, metadata: Option<map<string, M>>, warnings: Option<seq<string>>)
    : (r: ContractCheck<M>)
    ensures r.kept == kept
    ensures metadata.None? ==> r.metadata == map[]
    ensures warnings.None? ==> r.warnings == []
    ensures metadata.Some? ==> r.metadata == metadata.value
    ensures warnings.Some? ==> r.warnings == warnings.value
  {
    ContractCheck(kept, metadata.GetOr(map[]), warnings.GetOr([]))
  }

  /** The registry of contract types by name. */
  class ContractRegistry<C> {
    var classesByName: map<string, C>

    constructor ()
      ensures classesByName == map[]
    {
      classesByName := map[];
    }

    /** `register`: a later registration under the same name replaces the earlier one. */
    method Register(contractClass: C, name: string)
      modifies this
      ensures classesByName == old(classesByName)[name := contractClass]
    {
      classesByName := classesByName[name := contractClass];
    }

    /** `get_contract_class`: the registered class, or `NoSuchContractType(name)`. */
    function GetContractClass(name: string): (r: Result<C>)
      reads this
      ensures r.Ok? <==> name in classesByName
      ensures r.Ok? ==> r.value == classesByName[name]
      ensures r.Err? ==> r.error == name
    {
      if name in classesByName then Ok(classesByName[name]) else Err(name)
    }
  }
}
