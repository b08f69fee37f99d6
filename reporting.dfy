/**
 * The report a lint run fills in (`Report` in src/importlinter/application/ports/reporting.py):
 * the checks of the contracts in the order they ran, the contract whose options were invalid,
 * and the counters the summary prints.
 */
module Reporting {
  import opened Graphs
  import Fields
  import Contract

  /** The errors an `InvalidContractOptions` carries, by field name. */
  type InvalidOptions = map<string, string>

  /** The number of kept checks among `checks`. */
  function KeptCount<M>(checks: seq<Contract.ContractCheck<M>>): nat {
    if checks == [] then 0
    else KeptCount(checks[..|checks| - 1]) + (if checks[|checks| - 1].kept then 1 else 0)
  }

  /** The number of warnings of all `checks` together. */
  function WarningsCount<M>(checks: seq<Contract.ContractCheck<M>>): nat {
    if checks == [] then 0
    else WarningsCount(checks[..|checks| - 1]) + |checks[|checks| - 1].warnings|
  }

  /** The check stored for each contract: a later check of the same contract replaces the earlier one. */
  function CheckMap<C, M>(contracts: seq<C>, checks: seq<Contract.ContractCheck<M>>): map<C, Contract.ContractCheck<M>>
    requires |contracts| == |checks|
  {
    if contracts == [] then map[]
    else CheckMap(contracts[..|contracts| - 1], checks[..|checks| - 1])[contracts[|contracts| - 1] := checks[|checks| - 1]]
  }

  /** The stored checks belong to exactly the added contracts; with no contract added twice, each is its own. */
  lemma {:induction false} CheckMapSpec<C, M>(contracts: seq<C>, checks: seq<Contract.ContractCheck<M>>)
    requires |contracts| == |checks|
    ensures forall c :: c in CheckMap(contracts, checks) <==> c in contracts
    ensures (forall i, j :: 0 <= i < j < |contracts| ==> contracts[i] != contracts[j]) ==>
              forall k :: 0 <= k < |contracts| ==> CheckMap(contracts, checks)[contracts[k]] == checks[k]
    decreases |contracts|
  {
    if contracts != [] {
      var n := |contracts| - 1;
      CheckMapSpec(contracts[..n], checks[..n]);
      assert contracts == contracts[..n] + [contracts[n]];
      if forall i, j :: 0 <= i < j < |contracts| ==> contracts[i] != contracts[j] {
        forall k | 0 <= k < |contracts| ensures CheckMap(contracts, checks)[contracts[k]] == checks[k] {
          if k < n {
            assert contracts[k] == contracts[..n][k] && checks[k] == checks[..n][k];
          }
        }
      }
    }
  }

  /** Adding one more contract and its check: the counts and the stored checks grow by that check. */
  lemma {:induction false} Added<C, M>(contracts: seq<C>, checks: seq<Contract.ContractCheck<M>>, c: C, check: Contract.ContractCheck<M>)
    requires |contracts| == |checks|
    ensures KeptCount(checks + [check]) == KeptCount(checks) + (if check.kept then 1 else 0)
    ensures WarningsCount(checks + [check]) == WarningsCount(checks) + |check.warnings|
    ensures CheckMap(contracts + [c], checks + [check]) == CheckMap(contracts, checks)[c := check]
  {
    assert (checks + [check])[..|checks|] == checks;
    assert (contracts + [c])[..|contracts|] == contracts;
  }

  /** The counts and the stored checks agree with the added checks, and failures are flagged. */
  ghost predicate Agree<C, M>(contracts: seq<C>, checks: seq<Contract.ContractCheck<M>>,
                              checkMap: map<C, Contract.ContractCheck<M>>, keptCount: nat, brokenCount: nat,
                              warningsCount: nat, containsFailures: bool, couldNotRun: bool)
  {
    && |checks| == |contracts|
    && checkMap == CheckMap(contracts, checks)
    && keptCount == KeptCount(checks)
    && keptCount + brokenCount == |contracts|
    && warningsCount == WarningsCount(checks)
    && (containsFailures <==> brokenCount > 0 || couldNotRun)
  }

  /** Adding a check as `add_contract_check` does keeps the bookkeeping in agreement. */
  lemma {:induction false} AgreeAdd<C, M>(contracts: seq<C>, checks: seq<Contract.ContractCheck<M>>,
                       checkMap: map<C, Contract.ContractCheck<M>>, keptCount: nat, brokenCount: nat,
                       warningsCount: nat, containsFailures: bool, couldNotRun: bool,
                       c: C, check: Contract.ContractCheck<M>)
    requires Agree(contracts, checks, checkMap, keptCount, brokenCount, warningsCount, containsFailures, couldNotRun)
    ensures Agree(contracts + [c], checks + [check], checkMap[c := check],
                  keptCount + (if check.kept then 1 else 0), brokenCount + (if check.kept then 0 else 1),
                  warningsCount + |check.warnings|, containsFailures || !check.kept, couldNotRun)
  {
    Added(contracts, checks, c, check);
  }

  class Report<C(==), M> {
    const graph: Graph
    const showTimings: bool
    const graphBuildingDuration: int
    var couldNotRun: bool
    var invalidContractOptions: map<Fields.Raw, InvalidOptions>
    var containsFailures: bool
    var contracts: seq<C>
    var checkMap: map<C, Contract.ContractCheck<M>>
    var durations: map<C, int>
    var warningsCount: nat
    var brokenCount: nat
    var keptCount: nat
    const moduleCount: nat
    const importCount: nat
    /** The checks in the order they were added, one per entry of `contracts`. */
    ghost var checks: seq<Contract.ContractCheck<M>>

    /**
     * The counters agree with the added checks, failures are flagged, every added contract has
     * its check and duration, and the graph counts are those of the graph.
     */
    ghost predicate Valid()
      reads this
    {
      && Agree(contracts, checks, checkMap, keptCount, brokenCount, warningsCount, containsFailures, couldNotRun)
      && (forall c :: c in contracts ==> c in durations)
      && (couldNotRun <==> invalidContractOptions != map[])
      && moduleCount == |graph.modules|
      && importCount == |graph.edges|
    }

    /** A new report: nothing added, no failure, and (by `Valid`) the sizes of the graph. */
    constructor (graph: Graph, showTimings: bool, graphBuildingDuration: int)
      ensures Valid()
      ensures this.graph == graph && this.showTimings == showTimings
      ensures this.graphBuildingDuration == graphBuildingDuration
      ensures !couldNotRun && !containsFailures && invalidContractOptions == map[]
      ensures contracts == [] && checks == [] && durations == map[]
      ensures warningsCount == 0 && brokenCount == 0 && keptCount == 0
    {
      this.graph := graph;
      this.showTimings := showTimings;
      this.graphBuildingDuration := graphBuildingDuration;
      couldNotRun := false;
      invalidContractOptions := map[];
      containsFailures := false;
      contracts := [];
      checkMap := map[];
      durations := map[];
      warningsCount := 0;
      brokenCount := 0;
      keptCount := 0;
      moduleCount := |graph.modules|;
      importCount := |graph.edges|;
      checks := [];
    }

    /** `add_contract_check`: the contract, its check and duration are recorded and counted. */
    method AddContractCheck(contract: C, contractCheck: Contract.ContractCheck<M>, duration: int)
      requires Valid()
      modifies this
      ensures Valid()
      ensures contracts == old(contracts) + [contract] && checks == old(checks) + [contractCheck]
      ensures checkMap == old(checkMap)[contract := contractCheck]
      ensures durations == old(durations)[contract := duration]
      ensures warningsCount == old(warningsCount) + |contractCheck.warnings|
      ensures keptCount == old(keptCount) + (if contractCheck.kept then 1 else 0)
      ensures brokenCount == old(brokenCount) + (if contractCheck.kept then 0 else 1)
      ensures containsFailures == (old(containsFailures) || !contractCheck.kept)
      ensures couldNotRun == old(couldNotRun) && invalidContractOptions == old(invalidContractOptions)
    {
      AgreeAdd(contracts, checks, checkMap, keptCount, brokenCount, warningsCount, containsFailures, couldNotRun,
               contract, contractCheck);
      contracts, checks, checkMap, durations := contracts + [contract], checks + [contractCheck],
        checkMap[contract := contractCheck], durations[contract := duration];
      warningsCount, keptCount, brokenCount, containsFailures :=
        warningsCount + |contractCheck.warnings|, keptCount + (if contractCheck.kept then 1 else 0),
        brokenCount + (if contractCheck.kept then 0 else 1), containsFailures || !contractCheck.kept;
    }

    /** `add_invalid_contract_options`: the errors are stored under the contract's name and the run fails. */
    method AddInvalidContractOptions(contractName: Fields.Raw, exception: InvalidOptions)
      requires Valid()
      modifies this
      ensures Valid()
      ensures invalidContractOptions == old(invalidContractOptions)[contractName := exception]
      ensures couldNotRun && containsFailures
      ensures contracts == old(contracts) && checks == old(checks) && checkMap == old(checkMap)
      ensures durations == old(durations)
      ensures warningsCount == old(warningsCount) && keptCount == old(keptCount) && brokenCount == old(brokenCount)
    {
      invalidContractOptions := invalidContractOptions[contractName := exception];
      assert contractName in invalidContractOptions;
      couldNotRun := true;
      containsFailures := true;
    }

    /** `get_contracts_and_checks`: each added contract, in order, with the check stored for it. */
    function ContractsAndChecks(): (r: seq<(C, Contract.ContractCheck<M>)>)
      requires Valid()
      reads this
      ensures |r| == |contracts|
      ensures forall k :: 0 <= k < |r| ==> r[k].0 == contracts[k]
      ensures (forall i, j :: 0 <= i < j < |contracts| ==> contracts[i] != contracts[j]) ==>
                forall k :: 0 <= k < |r| ==> r[k].1 == checks[k]
    {
      CheckMapSpec(contracts, checks);
      var cs, cm := contracts, checkMap;
      seq(|cs|, k requires 0 <= k < |cs| => (cs[k], cm[cs[k]]))
    }

    /** `get_duration`. */
    function GetDuration(contract: C): int
      requires Valid() && contract in contracts
      reads this
    {
      durations[contract]
    }
  }

  /** A check counts as kept or broken, never both: the counts add up to the number of checks. */
  lemma {:induction false} CountsAddUp<M>(checks: seq<Contract.ContractCheck<M>>)
    ensures KeptCount(checks) <= |checks|
    ensures KeptCount(checks) == |checks| <==> forall k :: 0 <= k < |checks| ==> checks[k].kept
    decreases |checks|
  {
    if checks != [] {
      var n := |checks| - 1;
      CountsAddUp(checks[..n]);
      if forall k :: 0 <= k < n ==> checks[..n][k].kept {
        assert forall k :: 0 <= k < n ==> checks[k].kept;
      }
      if forall k :: 0 <= k < |checks| ==> checks[k].kept {
        assert forall k :: 0 <= k < n ==> checks[..n][k].kept;
      }
    }
  }

  /** A valid report has failures exactly when some added check is broken or some contract could not run. */
  lemma {:induction false} ContainsFailuresIff<C, M>(report: Report<C, M>)
    requires report.Valid()
    ensures report.containsFailures <==>
              report.couldNotRun || exists k :: 0 <= k < |report.checks| && !report.checks[k].kept
  {
    CountsAddUp(report.checks);
  }
}
