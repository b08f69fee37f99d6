/**
 * What a contract does with ignored-import expressions that matched nothing in the graph
 * (src/importlinter/application/contract_utils.py).
 */
module ContractUtils {
  import opened Wrappers
  import opened Strings
  import opened Imports

  /** How to react to an unresolved ignored import: not at all, with a warning, or with an error. */
  datatype AlertLevel = NoAlert | Warn | Error

  /** The enum's values, as read from the configuration. */
  function AlertLevelValue(level: AlertLevel): string {
    match level
    case NoAlert => "none"
    case Warn => "warn"
    case Error => "error"
  }

  /** The enum is `@unique`: distinct levels have distinct values. */
  lemma {:induction false} AlertLevelValuesUnique(a: AlertLevel, b: AlertLevel)
    ensures AlertLevelValue(a) == AlertLevelValue(b) ==> a == b
  {
    if a != b {
      assert AlertLevelValue(a)[0] != AlertLevelValue(b)[0];
    }
  }

  function UnresolvedMessage(expression: string): string {
    "Ignored import expression " + expression + " didn't match anything in the graph."
  }

  /** The strings of the given expressions. */
  function ExpressionStrings(expressions: seq<ImportExpression>): (r: set<string>)
    ensures forall s :: s in r <==> exists k :: 0 <= k < |expressions| && s == ExpressionString(expressions[k])
  {
    set k | 0 <= k < |expressions| :: ExpressionString(expressions[k])
  }

  /** The first of the sorted expression strings is one of them, and smaller than every other. */
  lemma {:induction false} SmallestExpressionString(expressions: seq<ImportExpression>)
    requires expressions != []
    ensures |Sorted(ExpressionStrings(expressions))| > 0
    ensures exists k :: 0 <= k < |expressions|
                        && Sorted(ExpressionStrings(expressions))[0] == ExpressionString(expressions[k])
    ensures forall j :: 0 <= j < |expressions| && ExpressionString(expressions[j]) != Sorted(ExpressionStrings(expressions))[0] ==>
              Less(Sorted(ExpressionStrings(expressions))[0], ExpressionString(expressions[j]))
  {
    var strings := ExpressionStrings(expressions);
    var sorted := Sorted(strings);
    assert ExpressionString(expressions[0]) in strings;
    assert sorted[0] in strings;
    forall j | 0 <= j < |expressions| && ExpressionString(expressions[j]) != sorted[0]
      ensures Less(sorted[0], ExpressionString(expressions[j]))
    {
      assert ExpressionString(expressions[j]) in sorted;
      var m :| 0 <= m < |sorted| && sorted[m] == ExpressionString(expressions[j]);
    }
  }

  /** The warning loop of `handle_unresolved_import_expressions`: one warning per expression, in order. */
  method WarnAll(expressions: seq<ImportExpression>) returns (warnings: seq<string>)
    ensures |warnings| == |expressions|
    ensures forall k :: 0 <= k < |expressions| ==> warnings[k] == UnresolvedMessage(ExpressionString(expressions[k]))
  {
    warnings := [];
    var i := 0;
    while i < |expressions|
      invariant 0 <= i <= |expressions|
      invariant |warnings| == i
      invariant forall k :: 0 <= k < i ==> warnings[k] == UnresolvedMessage(ExpressionString(expressions[k]))
    {
      warnings := warnings + [UnresolvedMessage(ExpressionString(expressions[i]))];
      i := i + 1;
    }
  }

  /**
   * `handle_unresolved_import_expressions`: the warnings it prints and the `MissingImport`
   * message it raises, if any. With the error level, the expression named is the smallest of
   * their strings.
   */
  method HandleUnresolvedImportExpressions(expressions: seq<ImportExpression>, alertLevel: AlertLevel)
    returns (warnings: seq<string>, raised: Option<string>)
    ensures alertLevel == NoAlert || expressions == [] ==> warnings == [] && raised == None
    ensures alertLevel == Warn ==>
              raised == None && |warnings| == |expressions|
              && forall k :: 0 <= k < |expressions| ==> warnings[k] == UnresolvedMessage(ExpressionString(expressions[k]))
    ensures alertLevel == Error && expressions != [] ==>
              warnings == [] && raised.Some?
              && exists k :: 0 <= k < |expressions| && raised.value == UnresolvedMessage(ExpressionString(expressions[k]))
                             && forall j :: 0 <= j < |expressions| && ExpressionString(expressions[j]) != ExpressionString(expressions[k]) ==>
                                  Less(ExpressionString(expressions[k]), ExpressionString(expressions[j]))
  {
    warnings, raised := [], None;
    if alertLevel == NoAlert {
      return;
    }
    if expressions == [] {
      return;
    }
    if alertLevel == Warn {
      warnings := WarnAll(expressions);
    } else {
      SmallestExpressionString(expressions);
      var expressionString := Sorted(ExpressionStrings(expressions))[0];
      ghost var k :| 0 <= k < |expressions| && expressionString == ExpressionString(expressions[k]);
      raised := Some(UnresolvedMessage(expressionString));
    }
  }
}
