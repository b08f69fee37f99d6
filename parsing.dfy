/**
 * Parsing of `"importer -> imported"` strings into direct imports
 * (src/importlinter/domain/parsing.py), for the pattern `^([\w\.]+) -> ([\w\.]+)$`.
 */
module Parsing {
  import opened Wrappers
  import opened Strings
  import opened Imports

  /** A direct import between two modules. */
  datatype DirectImport = DirectImport(importer: Module, imported: Module)

  /**
   * A character of the class `[\w\.]`, narrowed to ASCII: a letter, digit, underscore or a dot.
   * Python's `\w` on strings also takes every Unicode letter and digit, which this does not.
   */
  predicate IsNameChar(c: char) {
    ('a' <= c <= 'z') || ('A' <= c <= 'Z') || ('0' <= c <= '9') || c == '_' || c == '.'
  }

  /** What one group `([\w\.]+)` captures: a non-empty run of name characters. */
  predicate IsName(s: string) {
    |s| > 0 && forall k :: 0 <= k < |s| ==> IsNameChar(s[k])
  }

  /**
   * The regular expression matches `s` with groups `a` and `b`. Without MULTILINE, `$` also
   * matches just before a newline that ends the string.
   */
  predicate PatternMatches(s: string, a: string, b: string) {
    IsName(a) && IsName(b) && (s == a + " -> " + b || s == a + " -> " + b + "\n")
  }

  /** The end of the run of name characters that starts at `from`. */
  function NameRun(s: string, from: nat): (r: nat)
    requires from <= |s|
    ensures from <= r <= |s|
    ensures forall k :: from <= k < r ==> IsNameChar(s[k])
    ensures r == |s| || !IsNameChar(s[r])
    decreases |s| - from
  {
    if from < |s| && IsNameChar(s[from]) then NameRun(s, from + 1) else from
  }

  function ParseErrorMessage(s: string): string {
    "Could not parse direct import " + s + "."
  }

  /** `string_to_direct_import`: the two captured names, or the `ValueError` message. */
  function StringToDirectImport(s: string): (r: Result<DirectImport>)
    ensures r.Err? ==> r.error == ParseErrorMessage(s)
  {
    var i := NameRun(s, 0);
    if i > 0 && OccursAt(s, " -> ", i) then
      var j := NameRun(s, i + 4);
      if j > i + 4 && (j == |s| || (j == |s| - 1 && s[j] == '\n')) then
        Ok(DirectImport(Module(s[..i]), Module(s[i + 4..j])))
      else Err(ParseErrorMessage(s))
    else Err(ParseErrorMessage(s))
  }

  /** Whatever is accepted matches the pattern, with the captured names as importer and imported. */
  lemma {:induction false} ParseSound(s: string)
    requires StringToDirectImport(s).Ok?
    ensures PatternMatches(s, StringToDirectImport(s).value.importer.name, StringToDirectImport(s).value.imported.name)
  {
    var i := NameRun(s, 0);
    var j := NameRun(s, i + 4);
    var a, b := s[..i], s[i + 4..j];
    assert s[i..i + 4] == " -> ";
    if j == |s| {
      assert s == a + " -> " + b;
    } else {
      assert s == a + " -> " + b + "\n";
    }
  }

  /** Whatever matches the pattern is accepted, and yields exactly the two groups. */
  lemma {:induction false} ParseComplete(s: string, a: string, b: string)
    requires PatternMatches(s, a, b)
    ensures StringToDirectImport(s) == Ok(DirectImport(Module(a), Module(b)))
  {
    var i, j := |a|, |a| + 4 + |b|;
    var t := a + " -> " + b;
    assert s[..j] == t;
    assert t[..i] == a && t[i..i + 4] == " -> " && t[i + 4..] == b;
    assert s[..i] == a && s[i..i + 4] == " -> " && s[i + 4..j] == b;
    NameRunOver(s, 0, i);
    NameRunOver(s, i + 4, j);
  }

  /** A run of name characters from `from` that stops at `end` is the run `NameRun` finds. */
  lemma {:induction false} NameRunOver(s: string, from: nat, end: nat)
    requires from <= end <= |s|
    requires forall k :: from <= k < end ==> IsNameChar(s[k])
    requires end == |s| || !IsNameChar(s[end])
    ensures NameRun(s, from) == end
    decreases end - from
  {
    if from < end {
      NameRunOver(s, from + 1, end);
    }
  }

  /** The round trip: a pair of names written as `a -> b` parses back to that pair. */
  lemma {:induction false} RenderThenParse(a: string, b: string)
    requires IsName(a) && IsName(b)
    ensures StringToDirectImport(a + " -> " + b) == Ok(DirectImport(Module(a), Module(b)))
  {
    ParseComplete(a + " -> " + b, a, b);
  }

  /** Surrounding spaces are not accepted: the pattern must cover the whole string. */
  lemma {:induction false} PaddedRejected(a: string, b: string)
    requires IsName(a) && IsName(b)
    ensures StringToDirectImport(" " + a + " -> " + b).Err?
    ensures StringToDirectImport(a + " -> " + b + " ").Err?
  {
    var s1 := " " + a + " -> " + b;
    assert NameRun(s1, 0) == 0;
    var s2 := a + " -> " + b + " ";
    ParseComplete(a + " -> " + b, a, b);
    if StringToDirectImport(s2).Ok? {
      ParseSound(s2);
      var r := StringToDirectImport(s2).value;
      assert s2[|s2| - 1] == ' ';
      assert !IsNameChar(' ');
    }
  }

  /** `strings_to_direct_imports`: each string parsed in turn; the first failure is raised. */
  function StringsToDirectImports(ss: seq<string>): (r: Result<seq<DirectImport>>)
    ensures r.Ok? ==> |r.value| == |ss|
                      && forall k :: 0 <= k < |ss| ==> StringToDirectImport(ss[k]) == Ok(r.value[k])
    ensures r.Err? ==> exists k :: 0 <= k < |ss| && StringToDirectImport(ss[k]) == Err(r.error)
                                   && forall j :: 0 <= j < k ==> StringToDirectImport(ss[j]).Ok?
    ensures r.Ok? <==> forall k :: 0 <= k < |ss| ==> StringToDirectImport(ss[k]).Ok?
  {
    if ss == [] then Ok([])
    else
      match StringToDirectImport(ss[0])
      case Err(e) => Err(e)
      case Ok(d) =>
        match StringsToDirectImports(ss[1..])
        case Err(e) =>
          FailureShifts(ss, e);
          Err(e)
        case Ok(rest) => Ok([d] + rest)
  }

  /** A first failure among the strings after the first, which parses, is the first failure of them all. */
  lemma {:induction false} FailureShifts(ss: seq<string>, e: string)
    requires ss != [] && StringToDirectImport(ss[0]).Ok?
    requires exists k :: 0 <= k < |ss[1..]| && StringToDirectImport(ss[1..][k]) == Err(e)
                         && forall j :: 0 <= j < k ==> StringToDirectImport(ss[1..][j]).Ok?
    ensures exists k :: 0 <= k < |ss| && StringToDirectImport(ss[k]) == Err(e)
                        && forall j :: 0 <= j < k ==> StringToDirectImport(ss[j]).Ok?
  {
    var k :| 0 <= k < |ss[1..]| && StringToDirectImport(ss[1..][k]) == Err(e)
             && forall j :: 0 <= j < k ==> StringToDirectImport(ss[1..][j]).Ok?;
    assert StringToDirectImport(ss[k + 1]) == Err(e);
    forall j | 0 <= j < k + 1 ensures StringToDirectImport(ss[j]).Ok? {
      if j > 0 {
        assert ss[j] == ss[1..][j - 1];
      }
    }
  }
}
