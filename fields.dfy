/**
 * The typed fields that turn a contract's raw options into clean values
 * (src/importlinter/domain/fields.py).
 */
module Fields {
  import opened Wrappers
  import opened Strings
  import opened Imports

  /**
   * A raw option value as the configuration readers deliver it: a string, a list, a tuple, or
   * any other Python value. A tuple and an other value carry the text `str()` gives them.
   */
  datatype Raw = Str(s: string) | ListOf(items: seq<Raw>) | TupleOf(items: seq<Raw>, text: string) | Other(text: string)

  /** The outcome of `parse`: a clean value, a `ValidationError`, or some other exception. */
  datatype Parsed<+T> = Value(value: T) | Invalid(message: string) | Raised(exception: string)

  /** Two outcomes that fail in the same way. */
  predicate SameFailure<A, B>(x: Parsed<A>, y: Parsed<B>) {
    (x.Invalid? && y.Invalid? && x.message == y.message)
    || (x.Raised? && y.Raised? && x.exception == y.exception)
  }

  /** The `NotSupplied` sentinel, or a supplied value. */
  datatype Supplied<+T> = NotSupplied | Supplied(value: T)

  /** What `Field.__init__` stores. */
  datatype FieldSettings<+T> = FieldSettings(required: bool, default: Supplied<T>)

  const RequiredWithDefaultMessage := "A required field cannot also provide a default value."

  /** `Field.__init__(required, default)`. */
  function FieldInit<T>(required: Supplied<bool>, default: Supplied<T>): (r: Result<FieldSettings<T>>)
    ensures r.Err? <==> default.Supplied? && required == Supplied(true)
    ensures r.Err? ==> r.error == RequiredWithDefaultMessage
    ensures r.Ok? ==> r.value.default == default
    ensures r.Ok? ==> (r.value.required <==> default.NotSupplied? && required != Supplied(false))
  {
    if default.NotSupplied? then
      if required.NotSupplied? then Ok(FieldSettings(true, default))
      else Ok(FieldSettings(required.value, default))
    else if required == Supplied(true) then Err(RequiredWithDefaultMessage)
    else Ok(FieldSettings(false, default))
  }

  const MultipleValuesMessage := "Expected a single value, got multiple values."

  /** Python's `str(raw)` for anything but a list. */
  function StrOf(raw: Raw): string
    requires !raw.ListOf?
  {
    match raw
    case Str(s) => s
    case TupleOf(_, text) => text
    case Other(text) => text
  }

  /** `StringField.parse`. */
  function ParseString(raw: Raw): (r: Parsed<string>)
    ensures r.Invalid? <==> raw.ListOf?
    ensures r.Invalid? ==> r.message == MultipleValuesMessage
    ensures !r.Raised?
    ensures raw.Str? ==> r == Value(raw.s)
  {
    if raw.ListOf? then Invalid(MultipleValuesMessage) else Value(StrOf(raw))
  }

  /** `ModuleField.parse`. */
  function ParseModule(raw: Raw): (r: Parsed<Module>)
    ensures SameFailure(r, ParseString(raw)) || (r.Value? && ParseString(raw) == Value(r.value.name))
  {
    match ParseString(raw)
    case Value(s) => Value(Module(s))
    case Invalid(m) => Invalid(m)
    case Raised(e) => Raised(e)
  }

  /** The items a multi-value field parses: a list or tuple's items, or the single value alone. */
  function AsItems(raw: Raw): (r: seq<Raw>)
    ensures !raw.ListOf? && !raw.TupleOf? ==> r == [raw]
  {
    match raw
    case ListOf(items) => items
    case TupleOf(items, _) => items
    case _ => [raw]
  }

  /** Each item parsed by the subfield, in order; the first failure propagates. */
  function ParseEach<T>(items: seq<Raw>, sub: Raw -> Parsed<T>): (r: Parsed<seq<T>>)
    ensures r.Value? <==> forall k :: 0 <= k < |items| ==> sub(items[k]).Value?
    ensures r.Value? ==> |r.value| == |items| && forall k :: 0 <= k < |items| ==> sub(items[k]) == Value(r.value[k])
    ensures !r.Value? ==> exists k :: 0 <= k < |items| && SameFailure(r, sub(items[k]))
                                      && forall j :: 0 <= j < k ==> sub(items[j]).Value?
  {
    if items == [] then Value([])
    else
      match sub(items[0])
      case Invalid(m) => Invalid(m)
      case Raised(e) => Raised(e)
      case Value(v) =>
        var rest := ParseEach(items[1..], sub);
        if rest.Value? then Value([v] + rest.value)
        else
          var k :| 0 <= k < |items[1..]| && SameFailure(rest, sub(items[1..][k]))
                   && forall j :: 0 <= j < k ==> sub(items[1..][j]).Value?;
          assert SameFailure(rest, sub(items[k + 1]));
          if rest.Invalid? then Invalid(rest.message) else Raised(rest.exception)
  }

  /**
   * `BaseMultipleValueField.parse`: a tuple is read as a list, a single value as a one-item
   * list, and every item is parsed by the subfield into `clean_list`.
   */
  method ParseMultiple<T>(raw: Raw, sub: Raw -> Parsed<T>) returns (r: Parsed<seq<T>>)
    ensures r == ParseEach(AsItems(raw), sub)
  {
    var rawData := AsItems(raw);
    var cleanList: seq<T> := [];
    var i := 0;
    while i < |rawData|
      invariant 0 <= i <= |rawData|
      invariant ParseEach(rawData[..i], sub) == Value(cleanList)
    {
      var clean := sub(rawData[i]);
      if !clean.Value? {
        ParseEachPrefixFails(rawData, i, sub);
        return match clean
          case Invalid(m) => Invalid(m)
          case Raised(e) => Raised(e);
      }
      ParseEachSnoc(rawData[..i], rawData[i], sub);
      assert rawData[..i + 1] == rawData[..i] + [rawData[i]];
      cleanList := cleanList + [clean.value];
      i := i + 1;
    }
    assert rawData[..i] == rawData;
    r := Value(cleanList);
  }

  /** Parsing one more item that succeeds appends its value. */
  lemma {:induction false} ParseEachSnoc<T>(items: seq<Raw>, x: Raw, sub: Raw -> Parsed<T>)
    requires ParseEach(items, sub).Value? && sub(x).Value?
    ensures ParseEach(items + [x], sub) == Value(ParseEach(items, sub).value + [sub(x).value])
  {
    var all := items + [x];
    var vs := ParseEach(items, sub).value + [sub(x).value];
    assert forall k :: 0 <= k < |all| ==> sub(all[k]) == Value(vs[k]);
    var r := ParseEach(all, sub);
    assert r.Value?;
    assert |r.value| == |vs|;
    forall k | 0 <= k < |vs| ensures r.value[k] == vs[k] {
      assert sub(all[k]) == Value(r.value[k]);
      if k < |items| {
        assert all[k] == items[k];
      }
    }
    assert r.value == vs;
  }

  /** When the first failing item is at index `i`, parsing the whole list fails the same way. */
  lemma {:induction false} ParseEachPrefixFails<T>(items: seq<Raw>, i: nat, sub: Raw -> Parsed<T>)
    requires i < |items| && ParseEach(items[..i], sub).Value? && !sub(items[i]).Value?
    ensures SameFailure(ParseEach(items, sub), sub(items[i]))
  {
    var r := ParseEach(items, sub);
    assert forall j :: 0 <= j < i ==> sub(items[..i][j]).Value?;
    assert !r.Value?;
    var k :| 0 <= k < |items| && SameFailure(r, sub(items[k])) && forall j :: 0 <= j < k ==> sub(items[j]).Value?;
    assert forall j :: 0 <= j < i ==> sub(items[j]).Value? by {
      forall j | 0 <= j < i ensures sub(items[j]).Value? {
        assert items[..i][j] == items[j];
      }
    }
    assert k == i;
  }

  /** `ListField.parse`: the clean items in input order. */
  method ParseList<T>(raw: Raw, sub: Raw -> Parsed<T>) returns (r: Parsed<seq<T>>)
    ensures r.Value? ==> |r.value| == |AsItems(raw)|
                         && forall k :: 0 <= k < |r.value| ==> sub(AsItems(raw)[k]) == Value(r.value[k])
    ensures r.Value? <==> forall k :: 0 <= k < |AsItems(raw)| ==> sub(AsItems(raw)[k]).Value?
    ensures !r.Value? ==> exists k :: 0 <= k < |AsItems(raw)| && SameFailure(r, sub(AsItems(raw)[k]))
                                      && forall j :: 0 <= j < k ==> sub(AsItems(raw)[j]).Value?
  {
    r := ParseMultiple(raw, sub);
  }

  /** `SetField.parse`: the set of clean items, so equal items collapse. */
  method ParseSet<T>(raw: Raw, sub: Raw -> Parsed<T>) returns (r: Parsed<set<T>>)
    ensures r.Value? <==> forall k :: 0 <= k < |AsItems(raw)| ==> sub(AsItems(raw)[k]).Value?
    ensures r.Value? ==> |r.value| <= |AsItems(raw)|
    ensures r.Value? ==> forall x :: x in r.value <==> exists k :: 0 <= k < |AsItems(raw)| && sub(AsItems(raw)[k]) == Value(x)
    ensures !r.Value? ==> SameFailure(r, ParseEach(AsItems(raw), sub))
  {
    var items := ParseMultiple(raw, sub);
    match items
    case Value(vs) =>
      CardinalityOfElements(vs);
      return Value(set x | x in vs);
    case Invalid(m) => return Invalid(m);
    case Raised(e) => return Raised(e);
  }

  /** A sequence has at least as many positions as distinct elements. */
  lemma {:induction false} CardinalityOfElements<T>(s: seq<T>)
    ensures |set x | x in s| <= |s|
  {
    if s != [] {
      CardinalityOfElements(s[1..]);
      assert (set x | x in s) == (set x | x in s[1..]) + {s[0]};
    }
  }

  const FormMessage := "Must be in the form \"package.importer -> package.imported\"."
  const WildcardMessage := "A wildcard can only replace a whole module."

  /** `_validate_wildcard`: no dotted segment longer than one character contains `*`. */
  predicate WildcardValid(expression: string) {
    var parts := Split(expression, '.');
    forall k :: 0 <= k < |parts| ==> !(|parts[k]| > 1 && '*' in parts[k])
  }

  /** `ImportExpressionField.parse`: split at the first ` -> `, require both sides, check wildcards. */
  function ParseImportExpression(raw: Raw): (r: Parsed<ImportExpression>)
    ensures r.Value? ==> r.value.importer != "" && r.value.imported != ""
                         && WildcardValid(r.value.importer) && WildcardValid(r.value.imported)
                         && ParseString(raw) == Value(ExpressionString(r.value))
                         && !Contains(r.value.importer, " -> ")
    ensures ParseString(raw).Value? && !Contains(ParseString(raw).value, " -> ") ==> r == Invalid(FormMessage)
    ensures ParseString(raw).Value? && StartsWith(ParseString(raw).value, " -> ") ==> r == Invalid(FormMessage)
    ensures ParseString(raw).Value? ==>
              var (importer, _, imported) := Partition(ParseString(raw).value, " -> ");
              && (r == Invalid(FormMessage) <==> importer == "" || imported == "")
              && (importer != "" && imported != "" && (!WildcardValid(importer) || !WildcardValid(imported))
                  ==> r == Invalid(WildcardMessage))
    ensures raw.ListOf? ==> r == Invalid(MultipleValuesMessage)
    ensures !r.Raised?
  {
    match ParseString(raw)
    case Value(text) =>
      var (importer, sep, imported) := Partition(text, " -> ");
      if !(importer != "" && imported != "") then Invalid(FormMessage)
      else if !WildcardValid(importer) then Invalid(WildcardMessage)
      else if !WildcardValid(imported) then Invalid(WildcardMessage)
      else
        assert Contains(text, " -> ");
        Value(ImportExpression(importer, imported))
    case Invalid(m) => Invalid(m)
    case Raised(e) => Raised(e)
  }

  /** The expression string of a space-free importer splits back at the right place. */
  lemma {:induction false} PartitionExpression(importer: string, imported: string)
    requires ' ' !in importer
    ensures Partition(importer + " -> " + imported, " -> ") == (importer, " -> ", imported)
  {
    var s := importer + " -> " + imported;
    var n := |importer|;
    assert OccursAt(s, " -> ", n);
    assert Contains(s, " -> ");
    var i := Find(s, " -> ").value;
    forall j: nat | j < n ensures !OccursAt(s, " -> ", j) {
      assert s[j] == importer[j];
      assert s[j..j + 4][0] == s[j];
    }
    assert i == n;
    assert s[..n] == importer;
    assert s[n + 4..] == imported;
  }

  /** The round trip: a well-formed expression, written out, parses back to itself. */
  lemma {:induction false} ExpressionRoundTrip(e: ImportExpression)
    requires e.importer != "" && e.imported != "" && ' ' !in e.importer
    requires WildcardValid(e.importer) && WildcardValid(e.imported)
    ensures ParseImportExpression(Str(ExpressionString(e))) == Value(e)
  {
    PartitionExpression(e.importer, e.imported);
  }

  /** A segment of two stars is refused. */
  lemma {:induction false} DoubleStarRefused()
    ensures !WildcardValid("**")
  {
    SplitNoSep("**", '.');
    assert Split("**", '.')[0] == "**";
  }

  /** An expression whose importer side has a misplaced wildcard is refused with the wildcard message. */
  lemma {:induction false} MisplacedWildcardRefused(importer: string, imported: string)
    requires importer != "" && imported != "" && ' ' !in importer
    requires !WildcardValid(importer)
    ensures ParseImportExpression(Str(importer + " -> " + imported)) == Invalid(WildcardMessage)
  {
    PartitionExpression(importer, imported);
  }

  /** A whole-segment `*` may be added under any valid package. */
  lemma {:induction false} StarSegmentAccepted(package: string)
    requires WildcardValid(package)
    ensures WildcardValid(package + ".*")
  {
    SplitSnoc(package, '.', "*");
    assert package + ".*" == package + ['.'] + "*";
  }

  /** A last segment longer than one character that contains `*` is refused. */
  lemma {:induction false} PartialStarSegmentRefused(package: string, segment: string)
    requires '.' !in segment && |segment| > 1 && '*' in segment
    ensures !WildcardValid(package + "." + segment)
  {
    SplitSnoc(package, '.', segment);
    assert package + "." + segment == package + ['.'] + segment;
    var parts := Split(package + "." + segment, '.');
    assert parts[|parts| - 1] == segment;
  }

  /** A value of an enum member: a string, or a value of another type. */
  datatype EnumValue = StrValue(s: string) | NonStrValue

  const UnsupportedEnumMessage := "Unsupported Enum for EnumField: member values must all be strings."

  /** An `EnumField`: its settings and the string values of its enum's members, in order. */
  datatype EnumFieldConfig = EnumFieldConfig(settings: FieldSettings<string>, values: seq<string>)

  /** `EnumField.__init__`: the base field rules, then the check that every member value is a string. */
  function EnumFieldInit(members: seq<EnumValue>, required: Supplied<bool>, default: Supplied<string>)
    : (r: Result<EnumFieldConfig>)
    ensures r.Ok? <==> FieldInit(required, default).Ok? && forall k :: 0 <= k < |members| ==> members[k].StrValue?
    ensures FieldInit(required, default).Ok? && !r.Ok? ==> r.error == UnsupportedEnumMessage
    ensures r.Ok? ==> |r.value.values| == |members| && forall k :: 0 <= k < |members| ==> members[k] == StrValue(r.value.values[k])
  {
    var settings :- FieldInit(required, default);
    if forall k :: 0 <= k < |members| ==> members[k].StrValue? then
      Ok(EnumFieldConfig(settings, seq(|members|, k requires 0 <= k < |members| => members[k].s)))
    else Err(UnsupportedEnumMessage)
  }

  /** `'a', 'b'` … for the message listing the allowed values. */
  function QuotedList(values: seq<string>): string {
    Join(seq(|values|, k requires 0 <= k < |values| => "'" + values[k] + "'"), ", ")
  }

  /** `Invalid value '<v>': expected 'a', 'b' or 'c'.` */
  function InvalidEnumMessage(stripped: string, values: seq<string>): string
    requires |values| > 0
  {
    "Invalid value '" + stripped + "': expected " + QuotedList(values[..|values| - 1])
    + " or '" + values[|values| - 1] + "'."
  }

  /**
   * `EnumField.parse`: the value of the member named by the stripped input, or the default for
   * blank input. A non-string input fails on `strip`; an enum without members fails on `values[-1]`.
   */
  function ParseEnum(config: EnumFieldConfig, raw: Raw): (r: Parsed<Supplied<string>>)
    ensures r.Value? ==> raw.Str?
    ensures r.Value? && r.value.Supplied? && Strip(raw.s) != "" ==> r.value.value == Strip(raw.s) && Strip(raw.s) in config.values
    ensures raw.Str? && Strip(raw.s) == "" ==> r == Value(config.settings.default)
    ensures r.Invalid? <==> raw.ListOf? || (raw.Str? && Strip(raw.s) != "" && Strip(raw.s) !in config.values && config.values != [])
    ensures raw.ListOf? ==> r == Invalid(MultipleValuesMessage)
    ensures raw.Str? && Strip(raw.s) != "" && Strip(raw.s) !in config.values && config.values != []
            ==> r == Invalid(InvalidEnumMessage(Strip(raw.s), config.values))
  {
    match raw
    case ListOf(_) => Invalid(MultipleValuesMessage)
    case Str(s) =>
      var stripped := Strip(s);
      if stripped == "" then Value(config.settings.default)
      else if stripped in config.values then Value(Supplied(stripped))
      else if config.values == [] then Raised("IndexError")
      else Invalid(InvalidEnumMessage(stripped, config.values))
    case _ => Raised("AttributeError")
  }

  /** Whitespace around a known value is ignored. */
  lemma {:induction false} EnumIgnoresPadding(config: EnumFieldConfig, v: string, pad: string)
    requires v in config.values && v != "" && !IsSpace(v[0]) && !IsSpace(v[|v| - 1])
    requires forall k :: 0 <= k < |pad| ==> IsSpace(pad[k])
    ensures ParseEnum(config, Str(pad + v + pad)) == Value(Supplied(v))
  {
    var s := pad + v + pad;
    var i := LeadingSpaces(s, 0);
    assert s[|pad|] == v[0];
    assert i == |pad|;
    var j := TrailingEnd(s, i, |s|);
    assert s[|pad| + |v| - 1] == v[|v| - 1];
    assert j == |pad| + |v|;
    assert s[i..j] == v;
  }
}
