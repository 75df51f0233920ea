/** The temporary test function `f1.js`: counts blocks, grouped by chain. */
module F1Js {
  import opened Wrappers
  import opened Tasks
  import opened Counting

  /**
    `(functionState, blockWithMeta) => state`: a copy of the previous state
    (empty when null) with the block's chain counted once more.
   */
  function F1<B>(functionState: StateWithChains<Counts>, blockWithMeta: BlockWithChain<B>): (r: Counts)
    ensures r.Keys == Spread(functionState.state, map[]).Keys + {blockWithMeta.meta.chain}
    ensures Get(r, blockWithMeta.meta.chain) == Get(Spread(functionState.state, map[]), blockWithMeta.meta.chain) + 1
    ensures forall k :: k in Spread(functionState.state, map[]) && k != blockWithMeta.meta.chain ==>
              r[k] == Spread(functionState.state, map[])[k]
  {
    Bump(Spread(functionState.state, map[]), blockWithMeta.meta.chain)
  }

  /** The states a runner threads through `F1` over `blocks`, starting from `prior`. */
  function Fold<B>(prior: Option<Counts>, blocks: seq<BlockWithChain<B>>): Counts
    decreases |blocks|
  {
    if |blocks| == 0 then Spread(prior, map[])
    else Fold(Some(F1(StateWithChains(prior, map[]), blocks[0])), blocks[1..])
  }

  /** Threading `F1` is counting the blocks' chains (the chain states passed along play no part). */
  lemma {:induction false} FoldIsCountAll<B>(prior: Option<Counts>, blocks: seq<BlockWithChain<B>>)
    ensures Fold(prior, blocks) == CountAll(Spread(prior, map[]), Chains(blocks))
    decreases |blocks|
  {
    if |blocks| > 0 {
      FoldIsCountAll(Some(F1(StateWithChains(prior, map[]), blocks[0])), blocks[1..]);
      assert Chains(blocks)[1..] == Chains(blocks[1..]);
    }
  }

  /**
    From a null state, after folding `F1` over `blocks` every chain's count
    is the number of blocks on that chain.
   */
  lemma FoldFromNullCounts<B>(blocks: seq<BlockWithChain<B>>, c: string)
    ensures Get(Fold(None, blocks), c) == multiset(Chains(blocks))[c]
  {
    FoldIsCountAll(None, blocks);
    CountAllCounts(map[], Chains(blocks), c);
  }

  /** From a null state, the keys after the fold are exactly the chains of `blocks`. */
  lemma FoldFromNullKeys<B>(blocks: seq<BlockWithChain<B>>)
    ensures forall c :: c in Fold(None, blocks) <==> exists i :: 0 <= i < |blocks| && blocks[i].meta.chain == c
  {
    FoldIsCountAll(None, blocks);
    CountAllKeys(map[], Chains(blocks));
    var cs := Chains(blocks);
    assert |cs| == |blocks|;
    forall c ensures c in cs <==> exists i :: 0 <= i < |blocks| && blocks[i].meta.chain == c {
      if c in cs {
        var i :| 0 <= i < |cs| && cs[i] == c;
        assert blocks[i].meta.chain == c;
      }
      if exists i :: 0 <= i < |blocks| && blocks[i].meta.chain == c {
        var i :| 0 <= i < |blocks| && blocks[i].meta.chain == c;
        assert cs[i] == c;
      }
    }
  }
}
