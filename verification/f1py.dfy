/** The test function `f1.py` (`apply_block`): the Python twin of `f1.js`. */
module F1Py {
  import opened Wrappers
  import opened Tasks
  import opened Counting
  import F1Js

  /** Python truthiness of the prior state: `None` and `{}` are both falsy, so `state or {}` is `{}`. */
  function OrEmpty(prior: Option<Counts>): Counts {
    if prior.None? || prior.value == map[] then map[] else prior.value
  }

  /**
    `apply_block(stateWithChains, blockWithMeta)`: a present chain's count
    goes up by one, an absent chain starts at 1, nothing else changes.
   */
  function ApplyBlock<B>(stateWithChains: StateWithChains<Counts>, blockWithMeta: BlockWithChain<B>): (r: Counts)
    ensures var chain := blockWithMeta.meta.chain;
      var prior := OrEmpty(stateWithChains.state);
      && r.Keys == prior.Keys + {chain}
      && (chain in prior ==> r[chain] == prior[chain] + 1)
      && (chain !in prior ==> r[chain] == 1)
      && (forall k :: k in prior && k != chain ==> r[k] == prior[k])
  {
    var state := OrEmpty(stateWithChains.state);
    var chain := blockWithMeta.meta.chain;
    if chain in state then state[chain := state[chain] + 1]
    else state[chain := 1]
  }

  /** For the same inputs `apply_block` returns the same mapping as `f1.js`. */
  lemma SameAsF1Js<B>(stateWithChains: StateWithChains<Counts>, blockWithMeta: BlockWithChain<B>)
    ensures ApplyBlock(stateWithChains, blockWithMeta) == F1Js.F1(stateWithChains, blockWithMeta)
  {
    assert OrEmpty(stateWithChains.state) == Spread(stateWithChains.state, map[]);
  }
}
