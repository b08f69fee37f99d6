/**
 * The legacy layer-ordering check (src/importlinter/domain/checking.py): a contract is valid
 * unless, in some container, a lower layer reaches a higher layer through a chain of imports.
 */
module Checking {
  /** The two fields of a layers contract the legacy check reads; `layers` runs from highest to lowest. */
  datatype LayersContract = LayersContract(layers: seq<string>, containers: seq<string>)

  /** The graph's `chain_exists(importer, imported, as_packages)`, whose algorithm is not part of this model. */
  type ChainExists = (string, string, bool) -> bool

  /** `'.'.join([container, layer])`. */
  function LayerPackage(container: string, layer: string): string {
    container + "." + layer
  }

  /** In container `c`, layer `j` (lower) reaches layer `i` (higher), asked with `as_packages=True`. */
  predicate UpwardChain(contract: LayersContract, chainExists: ChainExists, i: int, j: int, c: int) {
    && 0 <= i < j < |contract.layers|
    && 0 <= c < |contract.containers|
    && chainExists(LayerPackage(contract.containers[c], contract.layers[j]),
                   LayerPackage(contract.containers[c], contract.layers[i]), true)
  }

  /** Some lower layer reaches some higher layer in some container. */
  ghost predicate LayersBroken(contract: LayersContract, chainExists: ChainExists) {
    exists i, j, c :: UpwardChain(contract, chainExists, i, j, c)
  }

  /** An upward chain visited before the loops reach `(i, j, c)`. */
  ghost predicate FoundBefore(contract: LayersContract, chainExists: ChainExists, i: int, j: int, c: int) {
    exists a, b, k :: UpwardChain(contract, chainExists, a, b, k)
                      && (a < i || (a == i && b < j) || (a == i && b == j && k < c))
  }

  /** `check_contract`: `is_valid` stays true exactly when no lower layer reaches a higher one. */
  method CheckContract(contract: LayersContract, chainExists: ChainExists) returns (isValid: bool)
    ensures isValid <==> !LayersBroken(contract, chainExists)
  {
    var layers, containers := contract.layers, contract.containers;
    isValid := true;
    var index := 0;
    while index < |layers|
      invariant 0 <= index <= |layers|
      invariant isValid <==> !FoundBefore(contract, chainExists, index, 0, 0)
    {
      var higherLayer := layers[index];
      var lower := index + 1;
      assert FoundBefore(contract, chainExists, index, lower, 0) ==> FoundBefore(contract, chainExists, index, 0, 0);
      while lower < |layers|
        invariant index < lower <= |layers|
        invariant isValid <==> !FoundBefore(contract, chainExists, index, lower, 0)
      {
        var lowerLayer := layers[lower];
        var c := 0;
        while c < |containers|
          invariant 0 <= c <= |containers|
          invariant isValid <==> !FoundBefore(contract, chainExists, index, lower, c)
        {
          var container := containers[c];
          var higherLayerPackage := LayerPackage(container, higherLayer);
          var lowerLayerPackage := LayerPackage(container, lowerLayer);
          if chainExists(lowerLayerPackage, higherLayerPackage, true) {
            assert UpwardChain(contract, chainExists, index, lower, c);
            isValid := false;
          }
          c := c + 1;
        }
        assert FoundBefore(contract, chainExists, index, lower, c) ==> FoundBefore(contract, chainExists, index, lower + 1, 0);
        lower := lower + 1;
      }
      assert FoundBefore(contract, chainExists, index, lower, 0) ==> FoundBefore(contract, chainExists, index + 1, 0, 0);
      index := index + 1;
    }
    assert LayersBroken(contract, chainExists) ==> FoundBefore(contract, chainExists, index, 0, 0);
  }

  /**
   * Only chains from a lower layer up to a higher one, asked for as packages, can decide the
   * result: two graphs that agree on those queries give the same verdict, whatever chains run
   * downwards or between modules.
   */
  lemma {:induction false} OnlyUpwardChainsMatter(contract: LayersContract, g1: ChainExists, g2: ChainExists)
    requires forall i, j, c :: 0 <= i < j < |contract.layers| && 0 <= c < |contract.containers| ==>
               g1(LayerPackage(contract.containers[c], contract.layers[j]), LayerPackage(contract.containers[c], contract.layers[i]), true)
               == g2(LayerPackage(contract.containers[c], contract.layers[j]), LayerPackage(contract.containers[c], contract.layers[i]), true)
    ensures LayersBroken(contract, g1) <==> LayersBroken(contract, g2)
  {
    if LayersBroken(contract, g1) {
      var i, j, c :| UpwardChain(contract, g1, i, j, c);
      assert UpwardChain(contract, g2, i, j, c);
    }
    if LayersBroken(contract, g2) {
      var i, j, c :| UpwardChain(contract, g2, i, j, c);
      assert UpwardChain(contract, g1, i, j, c);
    }
  }

  /** A contract with fewer than two layers, or no containers, is always valid. */
  lemma {:induction false} TrivialContractsValid(contract: LayersContract, chainExists: ChainExists)
    requires |contract.layers| < 2 || |contract.containers| == 0
    ensures !LayersBroken(contract, chainExists)
  {
  }
}
