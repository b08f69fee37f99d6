/**
 * The lint run (src/importlinter/application/use_cases.py): the user's options are normalised,
 * the contracts are narrowed to the requested ids, each contract is built and checked on its
 * own copy of the graph, and the outcome becomes `SUCCESS` or `FAILURE`.
 */
module UseCases {
  import opened Wrappers
  import Strings
  import opened Fields
  import Contract
  import opened Graphs
  import Reporting

  /** `SUCCESS` and `FAILURE`, the two answers of `lint_imports`. */
  const Success := true
  const Failure := false

  /** One section of options, by option name. */
  type Options = map<string, Raw>

  /** `UserOptions`: the session options and, in order, the options of each contract. */
  datatype UserOptions = UserOptions(sessionOptions: Options, contractsOptions: seq<Options>)

  // Normalising the options
  // -----------------------

  /** After normalisation the root packages are under `root_packages` and `root_package` is gone. */
  predicate Normalized(session: Options) {
    "root_packages" in session && "root_package" !in session
  }

  /**
   * `_normalize_user_options`: a single `root_package` becomes the one-element list
   * `root_packages`; with neither option the lookup of `root_package` raises `KeyError`.
   */
  function NormalizeUserOptions(userOptions: UserOptions): (r: Result<UserOptions>)
    ensures r.Err? <==> "root_packages" !in userOptions.sessionOptions && "root_package" !in userOptions.sessionOptions
    ensures r.Err? ==> r.error == "KeyError: 'root_package'"
    ensures r.Ok? ==> Normalized(r.value.sessionOptions) && r.value.contractsOptions == userOptions.contractsOptions
    ensures r.Ok? ==> r.value.sessionOptions["root_packages"] ==
                        (if "root_packages" in userOptions.sessionOptions then userOptions.sessionOptions["root_packages"]
                         else ListOf([userOptions.sessionOptions["root_package"]]))
    ensures r.Ok? ==> forall k :: k != "root_packages" && k != "root_package" ==>
              (k in r.value.sessionOptions <==> k in userOptions.sessionOptions)
    ensures r.Ok? ==> forall k :: k != "root_packages" && k in r.value.sessionOptions ==>
              r.value.sessionOptions[k] == userOptions.sessionOptions[k]
  {
    var session := userOptions.sessionOptions;
    if "root_packages" !in session && "root_package" !in session then Err("KeyError: 'root_package'")
    else
      var withList := if "root_packages" in session then session else session["root_packages" := ListOf([session["root_package"]])];
      Ok(UserOptions(withList - {"root_package"}, userOptions.contractsOptions))
  }

  /** Normalising is idempotent: normalised options are left as they are. */
  lemma {:induction false} NormalizeIdempotent(userOptions: UserOptions)
    requires NormalizeUserOptions(userOptions).Ok?
    ensures NormalizeUserOptions(NormalizeUserOptions(userOptions).value) == NormalizeUserOptions(userOptions)
  {
    var n := NormalizeUserOptions(userOptions).value;
    assert n.sessionOptions - {"root_package"} == n.sessionOptions;
  }

  // Limiting the run to some contracts
  // ----------------------------------

  /** Why putting this contract's id into a set raises, if it does. */
  function IdError(o: Options): (r: Option<string>)
    ensures r.None? <==> "id" in o && !o["id"].ListOf?
  {
    if "id" !in o then Some("KeyError: 'id'")
    else if o["id"].ListOf? then Some("TypeError: unhashable type: 'list'")
    else None
  }

  /** The error of the first contract whose id cannot be collected, as the set comprehension meets them. */
  function FirstIdError(options: seq<Options>): Option<string> {
    if options == [] then None
    else if IdError(options[0]).Some? then IdError(options[0])
    else FirstIdError(options[1..])
  }

  /** The ids of the contracts that are strings, the only ones a requested id can equal. */
  function RegisteredIds(options: seq<Options>): set<string> {
    set o: Options | o in options && "id" in o && o["id"].Str? :: o["id"].s
  }

  /** The requested ids no contract has. */
  function MissingIds(options: seq<Options>, limit: seq<string>): set<string> {
    (set l | l in limit) - RegisteredIds(options)
  }

  /** True when the contract's id is one of the requested ids. */
  predicate IdIn(o: Options, limit: seq<string>) {
    "id" in o && o["id"].Str? && o["id"].s in limit
  }

  /** `[o for o in contracts_options if o["id"] in limit_to_contracts]`. */
  function KeepLimited(options: seq<Options>, limit: seq<string>): (r: seq<Options>)
    ensures |r| <= |options|
  {
    if options == [] then []
    else (if IdIn(options[0], limit) then [options[0]] else []) + KeepLimited(options[1..], limit)
  }

  function OneMissingMessage(id: string): string {
    "Could not find contract '" + id + "'.\n\n"
    + "You asked to limit the check to that contract, but nothing exists with that id."
  }

  function SeveralMissingMessage(ids: seq<string>): string {
    "Could not find the following contract ids: " + Strings.Join(ids, ", ") + ".\n\n"
    + "You asked to limit the check to those contracts, but there are no contracts with those ids."
  }

  /**
   * `_filter_contract_options`: with no limit, every contract; otherwise every requested id must
   * exist (one missing id and several missing ids have their own `ValueError` messages), and the
   * contracts with a requested id are kept in their order.
   */
  function FilterContractOptions(options: seq<Options>, limit: seq<string>): (r: Result<seq<Options>>)
  {
    if limit == [] then Ok(options)
    else if FirstIdError(options).Some? then Err(FirstIdError(options).value)
    else
      var missing := MissingIds(options, limit);
      if |missing| == 1 then Err(OneMissingMessage(Strings.Sorted(missing)[0]))
      else if |missing| > 1 then Err(SeveralMissingMessage(Strings.Sorted(missing)))
      else Ok(KeepLimited(options, limit))
  }

  /** `FirstIdError` finds nothing exactly when every contract has a hashable id. */
  lemma {:induction false} FirstIdErrorSpec(options: seq<Options>)
    ensures FirstIdError(options).None? <==> forall k :: 0 <= k < |options| ==> IdError(options[k]).None?
  {
    if options != [] {
      FirstIdErrorSpec(options[1..]);
      if forall k :: 0 <= k < |options| ==> IdError(options[k]).None? {
        assert forall k :: 0 <= k < |options| - 1 ==> IdError(options[1..][k]).None?;
      }
      if IdError(options[0]).None? && forall k :: 0 <= k < |options| - 1 ==> IdError(options[1..][k]).None? {
        forall k | 0 <= k < |options| ensures IdError(options[k]).None? {
          if k > 0 {
            assert options[k] == options[1..][k - 1];
          }
        }
      }
    }
  }

  /** The kept contracts are exactly those with a requested id. */
  lemma {:induction false} KeepLimitedMembers(options: seq<Options>, limit: seq<string>)
    ensures forall o :: o in KeepLimited(options, limit) <==> o in options && IdIn(o, limit)
  {
    if options != [] {
      KeepLimitedMembers(options[1..], limit);
      assert options == [options[0]] + options[1..];
    }
  }

  /** Filtering a concatenation filters each part in turn: the kept contracts stay in their order. */
  lemma {:induction false} KeepLimitedAppend(a: seq<Options>, b: seq<Options>, limit: seq<string>)
    ensures KeepLimited(a + b, limit) == KeepLimited(a, limit) + KeepLimited(b, limit)
  {
    if a == [] {
      assert a + b == b;
    } else {
      var head := if IdIn(a[0], limit) then [a[0]] else [];
      assert (a + b)[0] == a[0] && (a + b)[1..] == a[1..] + b;
      assert KeepLimited(a + b, limit) == head + KeepLimited(a[1..] + b, limit);
      KeepLimitedAppend(a[1..], b, limit);
      assert head + (KeepLimited(a[1..], limit) + KeepLimited(b, limit))
          == (head + KeepLimited(a[1..], limit)) + KeepLimited(b, limit);
    }
  }

  /** When every contract has a requested id, filtering keeps all of them. */
  lemma {:induction false} KeepLimitedAll(options: seq<Options>, limit: seq<string>)
    requires forall k :: 0 <= k < |options| ==> IdIn(options[k], limit)
    ensures KeepLimited(options, limit) == options
  {
    if options != [] {
      var rest := options[1..];
      forall k | 0 <= k < |rest| ensures IdIn(rest[k], limit) {
        assert rest[k] == options[k + 1];
      }
      KeepLimitedAll(rest, limit);
      assert IdIn(options[0], limit);
      assert KeepLimited(options, limit) == [options[0]] + rest;
      assert [options[0]] + rest == options;
    }
  }

  /**
   * Filtering fails exactly when there is a limit and some contract has no usable id or some
   * requested id is missing; when it succeeds, every requested id has a contract, and the result
   * holds exactly the contracts with a requested id.
   */
  lemma {:induction false} FilterContractOptionsSpec(options: seq<Options>, limit: seq<string>)
    ensures limit == [] ==> FilterContractOptions(options, limit) == Ok(options)
    ensures FilterContractOptions(options, limit).Err? <==>
              limit != [] && ((exists k :: 0 <= k < |options| && IdError(options[k]).Some?)
                              || exists l :: l in limit && l !in RegisteredIds(options))
    ensures limit != [] && FilterContractOptions(options, limit).Ok? ==>
              var kept := FilterContractOptions(options, limit).value;
              && (forall o :: o in kept <==> o in options && IdIn(o, limit))
              && (forall l :: l in limit ==> exists o :: o in kept && o["id"] == Str(l))
  {
    FirstIdErrorSpec(options);
    KeepLimitedMembers(options, limit);
    MissingIdsSpec(options, limit);
    if limit != [] && FilterContractOptions(options, limit).Ok? {
      assert MissingIds(options, limit) == {};
      forall l | l in limit ensures exists o :: o in KeepLimited(options, limit) && o["id"] == Str(l) {
        var o := RegisteredWitness(options, l);
        assert IdIn(o, limit);
      }
    }
  }

  /** No requested id is missing exactly when every requested id is a registered one. */
  lemma {:induction false} MissingIdsSpec(options: seq<Options>, limit: seq<string>)
    ensures MissingIds(options, limit) == {} <==> forall l :: l in limit ==> l in RegisteredIds(options)
  {
    if exists l :: l in limit && l !in RegisteredIds(options) {
      var l :| l in limit && l !in RegisteredIds(options);
      assert l in MissingIds(options, limit);
    }
  }

  /** A registered id is the string id of one of the contracts. */
  lemma {:induction false} RegisteredWitness(options: seq<Options>, l: string) returns (o: Options)
    requires l in RegisteredIds(options)
    ensures o in options && "id" in o && o["id"] == Str(l)
  {
    o :| o in options && "id" in o && o["id"].Str? && o["id"].s == l;
  }

  // Boolean options
  // ---------------

  /** The two spellings `_get_include_external_packages` and `_get_show_timings` accept as true. */
  predicate TrueSpelling(raw: Raw) {
    raw == Str("True") || raw == Str("true")
  }

  /** `_get_include_external_packages`: absent is `None`; otherwise whether the value is a true spelling. */
  function GetIncludeExternalPackages(session: Options): (r: Option<bool>)
    ensures r.None? <==> "include_external_packages" !in session
    ensures r == Some(true) <==> "include_external_packages" in session && TrueSpelling(session["include_external_packages"])
  {
    if "include_external_packages" !in session then None
    else Some(TrueSpelling(session["include_external_packages"]))
  }

  /** `_get_show_timings`: absent is false; otherwise whether the value is a true spelling. */
  function GetShowTimings(session: Options): (r: bool)
    ensures r <==> "show_timings" in session && TrueSpelling(session["show_timings"])
  {
    "show_timings" in session && TrueSpelling(session["show_timings"])
  }

  /** Only the exact strings "True" and "true" count: upper case, other values and lists do not. */
  lemma {:induction false} TrueSpellings()
    ensures GetIncludeExternalPackages(map["include_external_packages" := Str("true")]) == Some(true)
    ensures GetIncludeExternalPackages(map["include_external_packages" := Str("TRUE")]) == Some(false)
    ensures GetIncludeExternalPackages(map["include_external_packages" := Other("True")]) == Some(false)
    ensures !GetShowTimings(map[]) && GetShowTimings(map["show_timings" := Str("True")])
  {
    assert Str("TRUE") != Str("True");
  }

  // Contract type strings
  // ---------------------

  /** The separator between a contract type's name and its class path. */
  const TypeSeparator := ": "

  /** `_parse_contract_type_string`, up to the class lookup: exactly two parts around `": "`. */
  function ParseContractTypeString(s: string): (r: Result<(string, string)>)
  {
    var components := Strings.SplitOn(s, TypeSeparator);
    if |components| != 2 then Err("AssertionError") else Ok((components[0], components[1]))
  }

  /** A parsed type string is its name, the separator and its class path, and neither part holds the separator. */
  lemma {:induction false} ParseContractTypeStringSpec(s: string)
    ensures ParseContractTypeString(s).Ok? ==>
              var (name, path) := ParseContractTypeString(s).value;
              && name + TypeSeparator + path == s
              && !Strings.Contains(name, TypeSeparator) && !Strings.Contains(path, TypeSeparator)
  {
    Strings.JoinSplit(s, TypeSeparator);
    Strings.SplitOnPartsFree(s, TypeSeparator);
    var components := Strings.SplitOn(s, TypeSeparator);
    if |components| == 2 {
      assert components[1..] == [components[1]];
    }
  }

  /** Joining a name and a class path that do not hold the separator parses back to them. */
  lemma {:induction false} ParseContractTypeStringRoundTrip(name: string, path: string)
    requires !Strings.Contains(name, TypeSeparator) && !Strings.Contains(path, TypeSeparator)
    ensures ParseContractTypeString(name + TypeSeparator + path) == Ok((name, path))
  {
    var s := name + TypeSeparator + path;
    assert Strings.OccursAt(s, TypeSeparator, |name|) by {
      assert s[|name|..|name| + 2] == TypeSeparator;
    }
    forall i: nat | i < |name| ensures !Strings.OccursAt(s, TypeSeparator, i) {
      if i + 2 <= |name| {
        assert !Strings.OccursAt(name, TypeSeparator, i);
        assert s[i..i + 2] == name[i..i + 2];
      } else {
        assert s[i + 1] == ':';
      }
    }
    var j := Strings.Find(s, TypeSeparator).value;
    assert s[j + 2..] == path;
    Strings.SplitOnFirst(s, TypeSeparator, j);
    Strings.SplitOnNoSep(path, TypeSeparator);
    assert s[..j] == name;
  }

  // Building the report
  // -------------------

  /** What calling a contract class with its options gives: the contract, its field errors, or another exception. */
  datatype Construction<C> = Built(contract: C) | Rejected(errors: Reporting.InvalidOptions) | Raised(exception: string)

  /**
   * The code the loop calls but that is not part of this model: the contract classes
   * (`contract_class(name=..., session_options=..., contract_options=...)`), `contract.check`,
   * which gives the check or the exception it raises, and the timer, which gives the duration of
   * the `i`th check.
   */
  datatype Env<!K, !C, M> = Env(
    construct: (K, Raw, Options, Options) -> Construction<C>,
    check: (C, Graph) -> Result<Contract.ContractCheck<M>>,
    timer: nat -> int)

  /**
   * `registry.get_contract_class(contract_options["type"])` on the registry's classes by name,
   * with the exceptions the lookups raise.
   */
  function ContractClassOf<K>(classes: map<string, K>, o: Options): (r: Result<K>)
    ensures r.Ok? <==> "type" in o && o["type"].Str? && o["type"].s in classes
    ensures r.Ok? ==> r.value == classes[o["type"].s]
  {
    if "type" !in o then Err("KeyError: 'type'")
    else match o["type"]
      case Str(name) => if name in classes then Ok(classes[name]) else Err("NoSuchContractType: " + name)
      case ListOf(_) => Err("TypeError: unhashable type: 'list'")
      case TupleOf(_, text) => Err("NoSuchContractType: " + text)
      case Other(text) => Err("NoSuchContractType: " + text)
  }

  /** What happens to one contract's options: it is built and checked, its options are invalid, or an exception escapes. */
  datatype StepOutcome<C> = Checked(contract: C) | Misconfigured(name: Raw, errors: Reporting.InvalidOptions) | Failed(exception: string)

  function Step<K, C, M>(classes: map<string, K>, session: Options, o: Options, env: Env<K, C, M>): StepOutcome<C>
  {
    match ContractClassOf(classes, o)
    case Err(e) => Failed(e)
    case Ok(k) =>
      if "name" !in o then Failed("KeyError: 'name'")
      else match env.construct(k, o["name"], session, o)
        case Built(c) => Checked(c)
        case Rejected(errors) => Misconfigured(o["name"], errors)
        case Raised(e) => Failed(e)
  }

  /** The contract of `o` is built and its check on `graph` returns. */
  predicate CheckedOk<K, C, M>(classes: map<string, K>, session: Options, o: Options, env: Env<K, C, M>, graph: Graph) {
    Step(classes, session, o, env).Checked? && env.check(Step(classes, session, o, env).contract, graph).Ok?
  }

  /** Handling `o` raises `e`: looking up or building its contract, or checking it on `graph`. */
  predicate RaisedAt<K, C, M>(classes: map<string, K>, session: Options, o: Options, env: Env<K, C, M>, graph: Graph, e: string) {
    match Step(classes, session, o, env)
    case Failed(exception) => exception == e
    case Misconfigured(_, _) => false
    case Checked(c) => env.check(c, graph) == Err(e)
  }

  /** A checked contract, its check and the duration the timer gave. */
  datatype Entry<C, M> = Entry(contract: C, check: Contract.ContractCheck<M>, duration: int)

  /** The checked contracts in order, and the contract whose options were invalid, if the loop stopped at one. */
  datatype Run<C, M> = Run(checked: seq<Entry<C, M>>, invalid: Option<(Raw, Reporting.InvalidOptions)>)

  /** `entries` checked before a run that went on as `rest`. */
  function Prepend<C, M>(entries: seq<Entry<C, M>>, rest: Result<Run<C, M>>): Result<Run<C, M>> {
    match rest
    case Err(e) => Err(e)
    case Ok(run) => Ok(Run(entries + run.checked, run.invalid))
  }

  /**
   * The loop of `_build_report` from the `i`th contract on: each contract is built and checked on
   * the graph as it was built, the first contract with invalid options ends the run, and any
   * other exception, from the lookup, the construction or the check, ends the whole report.
   */
  function RunFrom<K, C, M>(classes: map<string, K>, session: Options, options: seq<Options>, i: nat,
                            env: Env<K, C, M>, graph: Graph): Result<Run<C, M>>
    requires i <= |options|
    decreases |options| - i
  {
    if i == |options| then Ok(Run([], None))
    else match Step(classes, session, options[i], env)
      case Failed(e) => Err(e)
      case Misconfigured(name, errors) => Ok(Run([], Some((name, errors))))
      case Checked(c) =>
        match env.check(c, graph)
        case Err(e) => Err(e)
        case Ok(check) => Prepend([Entry(c, check, env.timer(i))], RunFrom(classes, session, options, i + 1, env, graph))
  }

  /** The contracts of `entries`, in order. */
  function ContractsOf<C, M>(entries: seq<Entry<C, M>>): seq<C> {
    if entries == [] then [] else ContractsOf(entries[..|entries| - 1]) + [entries[|entries| - 1].contract]
  }

  /** The checks of `entries`, in order. */
  function ChecksOf<C, M>(entries: seq<Entry<C, M>>): seq<Contract.ContractCheck<M>> {
    if entries == [] then [] else ChecksOf(entries[..|entries| - 1]) + [entries[|entries| - 1].check]
  }

  /** The duration recorded for each contract of `entries`: a later entry of the same contract wins. */
  function DurationsOf<C, M>(entries: seq<Entry<C, M>>): map<C, int> {
    if entries == [] then map[]
    else DurationsOf(entries[..|entries| - 1])[entries[|entries| - 1].contract := entries[|entries| - 1].duration]
  }

  /** What a report holds about the contracts: their order, checks, durations and invalid options. */
  datatype Contents<C, M> = Contents(contracts: seq<C>, checks: seq<Contract.ContractCheck<M>>, durations: map<C, int>,
                                     invalidContractOptions: map<Raw, Reporting.InvalidOptions>)

  ghost function ContentsOf<C, M>(report: Reporting.Report<C, M>): Contents<C, M>
    reads report
  {
    Contents(report.contracts, report.checks, report.durations, report.invalidContractOptions)
  }

  /** What a report that went through `run` holds: its entries in order, and the invalid contract if any. */
  function Expected<C, M>(run: Run<C, M>): Contents<C, M> {
    Contents(ContractsOf(run.checked), ChecksOf(run.checked), DurationsOf(run.checked),
             match run.invalid case None => map[] case Some((name, errors)) => map[name := errors])
  }

  /** The report `_build_report` makes, or the exception that escapes it. */
  ghost function PlannedReport<K, C, M>(classes: map<string, K>, userOptions: UserOptions,
                                        limitToContracts: seq<string>, env: Env<K, C, M>, graph: Graph): Result<Run<C, M>>
  {
    match FilterContractOptions(userOptions.contractsOptions, limitToContracts)
    case Err(e) => Err(e)
    case Ok(options) => RunFrom(classes, userOptions.sessionOptions, options, 0, env, graph)
  }

  /** The entries and the checks of a run line up one to one. */
  lemma {:induction false} ChecksOfSpec<C, M>(entries: seq<Entry<C, M>>)
    ensures |ContractsOf(entries)| == |entries| && |ChecksOf(entries)| == |entries|
    ensures forall k :: 0 <= k < |entries| ==> ContractsOf(entries)[k] == entries[k].contract
    ensures forall k :: 0 <= k < |entries| ==> ChecksOf(entries)[k] == entries[k].check
  {
    if entries != [] {
      var n := |entries| - 1;
      var init := entries[..n];
      ChecksOfSpec(init);
      assert ContractsOf(entries) == ContractsOf(init) + [entries[n].contract];
      assert ChecksOf(entries) == ChecksOf(init) + [entries[n].check];
      forall k | 0 <= k < n ensures init[k] == entries[k] {
      }
    }
  }

  /**
   * A run that gets through checks, in order, the contracts that are built before the first one
   * that is not; it stops at a contract with invalid options, or only at the end; and every check
   * is the contract's check of the graph as it was built, whatever the checks before it did.
   */
  lemma {:induction false} RunShape<K, C, M>(classes: map<string, K>, session: Options, options: seq<Options>, i: nat,
                                             env: Env<K, C, M>, graph: Graph)
    requires i <= |options| && RunFrom(classes, session, options, i, env, graph).Ok?
    ensures var run := RunFrom(classes, session, options, i, env, graph).value;
            && i + |run.checked| <= |options|
            && (forall k :: 0 <= k < |run.checked| ==>
                  && Step(classes, session, options[i + k], env) == Checked(run.checked[k].contract)
                  && env.check(run.checked[k].contract, graph) == Ok(run.checked[k].check)
                  && run.checked[k].duration == env.timer(i + k))
            && (run.invalid.None? ==> i + |run.checked| == |options|)
            && (run.invalid.Some? ==> i + |run.checked| < |options|)
            && (run.invalid.Some? ==>
                  Step(classes, session, options[i + |run.checked|], env) == Misconfigured(run.invalid.value.0, run.invalid.value.1))
  {
    RunEnd(classes, session, options, i, env, graph);
    RunEntries(classes, session, options, i, env, graph);
  }

  /** Where a run that succeeds ends: after the last contract, or at the one with invalid options. */
  lemma {:induction false} RunEnd<K, C, M>(classes: map<string, K>, session: Options, options: seq<Options>, i: nat,
                                           env: Env<K, C, M>, graph: Graph)
    requires i <= |options| && RunFrom(classes, session, options, i, env, graph).Ok?
    ensures var run := RunFrom(classes, session, options, i, env, graph).value;
            && i + |run.checked| <= |options|
            && (run.invalid.None? ==> i + |run.checked| == |options|)
            && (run.invalid.Some? ==> i + |run.checked| < |options|)
            && (run.invalid.Some? ==>
                  Step(classes, session, options[i + |run.checked|], env) == Misconfigured(run.invalid.value.0, run.invalid.value.1))
    decreases |options| - i
  {
    if i < |options| && Step(classes, session, options[i], env).Checked? {
      RunEnd(classes, session, options, i + 1, env, graph);
      var c := Step(classes, session, options[i], env).contract;
      var run := RunFrom(classes, session, options, i, env, graph).value;
      var rest := RunFrom(classes, session, options, i + 1, env, graph).value;
      assert run == Run([Entry(c, env.check(c, graph).value, env.timer(i))] + rest.checked, rest.invalid);
      assert i + |run.checked| == i + 1 + |rest.checked|;
    }
  }

  /** The entries of a run that succeeds are the contracts checked in order, with their checks and durations. */
  lemma {:induction false} RunEntries<K, C, M>(classes: map<string, K>, session: Options, options: seq<Options>, i: nat,
                                               env: Env<K, C, M>, graph: Graph)
    requires i <= |options| && RunFrom(classes, session, options, i, env, graph).Ok?
    ensures var run := RunFrom(classes, session, options, i, env, graph).value;
            && i + |run.checked| <= |options|
            && forall k :: 0 <= k < |run.checked| ==>
                 && Step(classes, session, options[i + k], env) == Checked(run.checked[k].contract)
                 && env.check(run.checked[k].contract, graph) == Ok(run.checked[k].check)
                 && run.checked[k].duration == env.timer(i + k)
    decreases |options| - i
  {
    if i < |options| && Step(classes, session, options[i], env).Checked? {
      RunEntries(classes, session, options, i + 1, env, graph);
      var c := Step(classes, session, options[i], env).contract;
      var run := RunFrom(classes, session, options, i, env, graph).value;
      var rest := RunFrom(classes, session, options, i + 1, env, graph).value;
      assert run == Run([Entry(c, env.check(c, graph).value, env.timer(i))] + rest.checked, rest.invalid);
      forall k | 0 <= k < |run.checked|
        ensures Step(classes, session, options[i + k], env) == Checked(run.checked[k].contract)
        ensures env.check(run.checked[k].contract, graph) == Ok(run.checked[k].check)
        ensures run.checked[k].duration == env.timer(i + k)
      {
        if k > 0 {
          assert run.checked[k] == rest.checked[k - 1] && i + k == i + 1 + (k - 1);
        }
      }
    }
  }

  /**
   * A run fails exactly with the exception of the first contract whose lookup, construction or
   * check raised; every contract before it was built and checked.
   */
  lemma {:induction false} RunFails<K, C, M>(classes: map<string, K>, session: Options, options: seq<Options>, i: nat,
                                             env: Env<K, C, M>, graph: Graph)
    requires i <= |options| && RunFrom(classes, session, options, i, env, graph).Err?
    ensures exists j :: i <= j < |options|
                        && RaisedAt(classes, session, options[j], env, graph, RunFrom(classes, session, options, i, env, graph).error)
                        && forall k :: i <= k < j ==> CheckedOk(classes, session, options[k], env, graph)
    decreases |options| - i
  {
    var e := RunFrom(classes, session, options, i, env, graph).error;
    if CheckedOk(classes, session, options[i], env, graph) {
      RunFails(classes, session, options, i + 1, env, graph);
      var j :| i + 1 <= j < |options|
               && RaisedAt(classes, session, options[j], env, graph, e)
               && forall k :: i + 1 <= k < j ==> CheckedOk(classes, session, options[k], env, graph);
      assert forall k :: i <= k < j ==> CheckedOk(classes, session, options[k], env, graph);
    } else {
      assert RaisedAt(classes, session, options[i], env, graph, e);
    }
  }

  /** Nothing checked before a run leaves the run as it is. */
  lemma {:induction false} PrependNothing<C, M>(rest: Result<Run<C, M>>)
    ensures Prepend([], rest) == rest
  {
    if rest.Ok? {
      assert [] + rest.value.checked == rest.value.checked;
    }
  }

  /** A run that checks nothing more ends with the entries checked so far. */
  lemma {:induction false} PrependEnd<C, M>(acc: seq<Entry<C, M>>, invalid: Option<(Raw, Reporting.InvalidOptions)>)
    ensures Prepend(acc, Ok(Run([], invalid))) == Ok(Run(acc, invalid))
  {
    assert acc + [] == acc;
  }

  /** Checking one more contract: the entries so far are followed by its entry. */
  lemma {:induction false} PrependSnoc<C, M>(acc: seq<Entry<C, M>>, e: Entry<C, M>, rest: Result<Run<C, M>>)
    ensures Prepend(acc, Prepend([e], rest)) == Prepend(acc + [e], rest)
    ensures ContractsOf(acc + [e]) == ContractsOf(acc) + [e.contract]
    ensures ChecksOf(acc + [e]) == ChecksOf(acc) + [e.check]
    ensures DurationsOf(acc + [e]) == DurationsOf(acc)[e.contract := e.duration]
  {
    assert (acc + [e])[..|acc|] == acc;
    if rest.Ok? {
      assert acc + ([e] + rest.value.checked) == (acc + [e]) + rest.value.checked;
    }
  }

  /** A contract that is built and checked moves from the rest of the run to the entries checked so far. */
  lemma {:induction false} RunStep<K, C, M>(classes: map<string, K>, session: Options, options: seq<Options>, i: nat,
                         env: Env<K, C, M>, graph: Graph, acc: seq<Entry<C, M>>)
    requires i < |options| && CheckedOk(classes, session, options[i], env, graph)
    ensures var c := Step(classes, session, options[i], env).contract;
            Prepend(acc, RunFrom(classes, session, options, i, env, graph))
            == Prepend(acc + [Entry(c, env.check(c, graph).value, env.timer(i))], RunFrom(classes, session, options, i + 1, env, graph))
  {
    var c := Step(classes, session, options[i], env).contract;
    PrependSnoc(acc, Entry(c, env.check(c, graph).value, env.timer(i)), RunFrom(classes, session, options, i + 1, env, graph));
  }

  /** A contract with invalid options ends the run with the entries checked so far. */
  lemma {:induction false} RunStops<K, C, M>(classes: map<string, K>, session: Options, options: seq<Options>, i: nat,
                          env: Env<K, C, M>, graph: Graph, acc: seq<Entry<C, M>>)
    requires i < |options| && Step(classes, session, options[i], env).Misconfigured?
    ensures var step := Step(classes, session, options[i], env);
            Prepend(acc, RunFrom(classes, session, options, i, env, graph)) == Ok(Run(acc, Some((step.name, step.errors))))
  {
    var step := Step(classes, session, options[i], env);
    PrependEnd(acc, Some((step.name, step.errors)));
  }

  /** A contract whose lookup, construction or check raises ends the run with that exception. */
  lemma {:induction false} RunRaises<K, C, M>(classes: map<string, K>, session: Options, options: seq<Options>, i: nat,
                          env: Env<K, C, M>, graph: Graph, acc: seq<Entry<C, M>>, e: string)
    requires i < |options| && RaisedAt(classes, session, options[i], env, graph, e)
    ensures Prepend(acc, RunFrom(classes, session, options, i, env, graph)) == Err(e)
  {
  }

  /** Recording a checked contract: the report now records one more entry. */
  method RecordCheck<C(==), M>(report: Reporting.Report<C, M>, e: Entry<C, M>, ghost acc: seq<Entry<C, M>>)
    requires report.Valid() && ContentsOf(report) == Expected(Run(acc, None))
    modifies report
    ensures report.Valid() && ContentsOf(report) == Expected(Run(acc + [e], None))
  {
    report.AddContractCheck(e.contract, e.check, e.duration);
    PrependSnoc(acc, e, Err(""));
  }

  /** Recording a contract with invalid options: the report records the entries so far and those errors. */
  method RecordInvalid<C(==), M>(report: Reporting.Report<C, M>, name: Raw, errors: Reporting.InvalidOptions,
                                 ghost acc: seq<Entry<C, M>>)
    requires report.Valid() && ContentsOf(report) == Expected(Run(acc, None))
    modifies report
    ensures report.Valid() && ContentsOf(report) == Expected(Run(acc, Some((name, errors))))
  {
    report.AddInvalidContractOptions(name, errors);
  }

  /**
   * One turn of the loop of `_build_report`, on the `i`th contract: either the run ends here (with
   * the exception raised, or with the report holding the whole run), or the report records one
   * more entry and the run goes on from the next contract.
   */
  method CheckNext<K, C(==), M>(report: Reporting.Report<C, M>, classes: map<string, K>, session: Options,
                                options: seq<Options>, i: nat, env: Env<K, C, M>, ghost acc: seq<Entry<C, M>>)
    returns (done: bool, error: Option<string>, ghost next: seq<Entry<C, M>>)
    requires i < |options| && report.Valid() && ContentsOf(report) == Expected(Run(acc, None))
    modifies report
    ensures var rest := Prepend(acc, RunFrom(classes, session, options, i, env, report.graph));
            if done then
              && (error.Some? <==> rest.Err?)
              && (error.Some? ==> error.value == rest.error)
              && (rest.Ok? ==> report.Valid() && ContentsOf(report) == Expected(rest.value))
            else
              && rest == Prepend(next, RunFrom(classes, session, options, i + 1, env, report.graph))
              && report.Valid() && ContentsOf(report) == Expected(Run(next, None))
  {
    var graph := report.graph;
    var step := Step(classes, session, options[i], env);
    match step
    case Failed(e) =>
      RunRaises(classes, session, options, i, env, graph, acc, e);
      return true, Some(e), acc;
    case Misconfigured(name, errors) =>
      RecordInvalid(report, name, errors, acc);
      RunStops(classes, session, options, i, env, graph, acc);
      return true, None, acc;
    case Checked(contract) =>
      var check := env.check(contract, graph);
      if check.Err? {
        RunRaises(classes, session, options, i, env, graph, acc, check.error);
        return true, Some(check.error), acc;
      }
      var entry := Entry(contract, check.value, env.timer(i));
      RecordCheck(report, entry, acc);
      RunStep(classes, session, options, i, env, graph, acc);
      return false, None, acc + [entry];
  }

  /**
   * The loop of `_build_report` over the selected contracts: on success the report records the
   * run `RunFrom` describes, and otherwise the exception is the one that ends the run.
   */
  method CheckContracts<K, C(==), M>(report: Reporting.Report<C, M>, classes: map<string, K>, session: Options,
                                     options: seq<Options>, env: Env<K, C, M>)
    returns (error: Option<string>)
    requires report.Valid() && ContentsOf(report) == Expected(Run([], None))
    modifies report
    ensures var run := RunFrom(classes, session, options, 0, env, report.graph);
            && (error.Some? <==> run.Err?)
            && (error.Some? ==> error.value == run.error)
            && (run.Ok? ==> report.Valid()
                            && ContentsOf(report) == Expected(run.value))
  {
    var graph := report.graph;
    ghost var acc: seq<Entry<C, M>> := [];
    var i := 0;
    PrependNothing(RunFrom(classes, session, options, 0, env, graph));
    while i < |options|
      invariant 0 <= i <= |options|
      invariant report.Valid()
      invariant RunFrom(classes, session, options, 0, env, graph) == Prepend(acc, RunFrom(classes, session, options, i, env, graph))
      invariant ContentsOf(report) == Expected(Run(acc, None))
    {
      var done;
      done, error, acc := CheckNext(report, classes, session, options, i, env, acc);
      if done {
        return;
      }
      i := i + 1;
    }
    PrependEnd(acc, None);
    return None;
  }

  /**
   * `_build_report`: the report records, in order, every contract checked before the first one
   * with invalid options (and that one's errors), or the exception that stops the run.
   */
  method BuildReport<K, C(==), M>(registry: Contract.ContractRegistry<K>, graph: Graph, graphBuildingDuration: int,
                                  userOptions: UserOptions, limitToContracts: seq<string>, showTimings: bool,
                                  env: Env<K, C, M>)
    returns (r: Result<Reporting.Report<C, M>>)
    ensures var planned := PlannedReport(registry.classesByName, userOptions, limitToContracts, env, graph);
            && (r.Err? <==> planned.Err?)
            && (r.Err? ==> r.error == planned.error)
            && (r.Ok? ==> fresh(r.value) && r.value.Valid() && ContentsOf(r.value) == Expected(planned.value))
    ensures r.Ok? ==> r.value.graph == graph && r.value.showTimings == showTimings
                      && r.value.graphBuildingDuration == graphBuildingDuration
  {
    var report := new Reporting.Report(graph, showTimings, graphBuildingDuration);
    var filtered := FilterContractOptions(userOptions.contractsOptions, limitToContracts);
    if filtered.Err? {
      return Err(filtered.error);
    }
    var error := CheckContracts(report, registry.classesByName, userOptions.sessionOptions, filtered.value, env);
    if error.Some? {
      return Err(error.value);
    }
    return Ok(report);
  }

  // The lint run
  // ------------

  /** A report records a failure: a contract with invalid options, or a broken contract. */
  predicate RunHasFailures<C, M>(run: Run<C, M>) {
    run.invalid.Some? || exists k :: 0 <= k < |run.checked| && !run.checked[k].check.kept
  }

  /**
   * What `read_user_options` and `create_report` give: whether the report has failures, or the
   * exception raised on the way. Reading the configuration is `readOptions`; building the graph
   * is `buildGraph`, given the root packages and the `include_external_packages` option.
   */
  ghost function ReportOutcome<K, C, M>(readOptions: Result<UserOptions>, classes: map<string, K>,
                                        buildGraph: (Raw, Option<bool>) -> Result<Graph>,
                                        limitToContracts: seq<string>, env: Env<K, C, M>): Result<bool>
  {
    match readOptions
    case Err(e) => Err(e)
    case Ok(raw) =>
      match NormalizeUserOptions(raw)
      case Err(e) => Err(e)
      case Ok(userOptions) =>
        match buildGraph(userOptions.sessionOptions["root_packages"], GetIncludeExternalPackages(userOptions.sessionOptions))
        case Err(e) => Err(e)
        case Ok(graph) =>
          match PlannedReport(classes, userOptions, limitToContracts, env, graph)
          case Err(e) => Err(e)
          case Ok(run) => Ok(RunHasFailures(run))
  }

  /**
   * The answer of `lint_imports` from that outcome: an exception propagates in debug mode and is
   * otherwise `FAILURE`; a report passes exactly when it has no failures.
   */
  function LintResult(outcome: Result<bool>, isDebugMode: bool): (r: Result<bool>)
    ensures r.Err? <==> outcome.Err? && isDebugMode
    ensures r.Err? ==> r.error == outcome.error
    ensures r == Ok(Success) <==> outcome == Ok(false)
  {
    match outcome
    case Err(e) => if isDebugMode then Err(e) else Ok(Failure)
    case Ok(containsFailures) => Ok(if containsFailures then Failure else Success)
  }

  /** A report's failure flag is the run's: it has failures exactly when the run records one. */
  lemma {:induction false} ReportFailures<C, M>(report: Reporting.Report<C, M>, run: Run<C, M>)
    requires report.Valid() && ContentsOf(report) == Expected(run)
    ensures report.containsFailures <==> RunHasFailures(run)
  {
    Reporting.ContainsFailuresIff(report);
    ChecksOfSpec(run.checked);
    if run.invalid.Some? {
      assert run.invalid.value.0 in report.invalidContractOptions;
    }
  }

  /** `lint_imports`: read and normalise the options, build the graph, build the report, and answer. */
  method LintImports<K, C(==), M>(readOptions: Result<UserOptions>, registry: Contract.ContractRegistry<K>,
                                  buildGraph: (Raw, Option<bool>) -> Result<Graph>, graphBuildingDuration: int,
                                  limitToContracts: seq<string>, isDebugMode: bool, showTimings: bool,
                                  env: Env<K, C, M>)
    returns (r: Result<bool>)
    ensures r == LintResult(ReportOutcome(readOptions, registry.classesByName, buildGraph, limitToContracts, env), isDebugMode)
  {
    var outcome: Result<bool>;
    if readOptions.Err? {
      outcome := Err(readOptions.error);
    } else {
      var normalized := NormalizeUserOptions(readOptions.value);
      if normalized.Err? {
        outcome := Err(normalized.error);
      } else {
        var userOptions := normalized.value;
        var includeExternalPackages := GetIncludeExternalPackages(userOptions.sessionOptions);
        var graph := buildGraph(userOptions.sessionOptions["root_packages"], includeExternalPackages);
        if graph.Err? {
          outcome := Err(graph.error);
        } else {
          var report := BuildReport(registry, graph.value, graphBuildingDuration, userOptions, limitToContracts,
                                    showTimings, env);
          if report.Err? {
            outcome := Err(report.error);
          } else {
            ReportFailures(report.value, PlannedReport(registry.classesByName, userOptions, limitToContracts, env, graph.value).value);
            outcome := Ok(report.value.containsFailures);
          }
        }
      }
    }
    r := LintResult(outcome, isDebugMode);
  }
}
