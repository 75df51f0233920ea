/**
  The per-chain block count kept by the block-counter functions: a map from
  chain name to the number of blocks seen on that chain.
 */
module Counting {
  type Counts = map<string, int>

  /** The count for `chain`, an absent key read as 0 (`state[chain] ?? 0`). */
  function Get(m: Counts, chain: string): int {
    if chain in m then m[chain] else 0
  }

  /** One more block on `chain`; every other entry is kept as it was. */
  function Bump(m: Counts, chain: string): (r: Counts)
    ensures r.Keys == m.Keys + {chain}
    ensures Get(r, chain) == Get(m, chain) + 1
    ensures forall k :: k in m && k != chain ==> k in r && r[k] == m[k]
  {
    m[chain := Get(m, chain) + 1]
  }

  /** Counting every chain of `chains` in turn, starting from `m`. */
  function CountAll(m: Counts, chains: seq<string>): Counts
    decreases |chains|
  {
    if |chains| == 0 then m else CountAll(Bump(m, chains[0]), chains[1..])
  }

  /** Counting a sequence adds, for each chain, the number of times it occurs. */
  lemma {:induction false} CountAllCounts(m: Counts, chains: seq<string>, c: string)
    ensures Get(CountAll(m, chains), c) == Get(m, c) + multiset(chains)[c]
    decreases |chains|
  {
    if |chains| > 0 {
      CountAllCounts(Bump(m, chains[0]), chains[1..], c);
      assert chains == [chains[0]] + chains[1..];
      assert multiset(chains) == multiset([chains[0]]) + multiset(chains[1..]);
    }
  }

  /** Counting a sequence adds exactly its chains as keys and removes none. */
  lemma {:induction false} CountAllKeys(m: Counts, chains: seq<string>)
    ensures CountAll(m, chains).Keys == m.Keys + set c | c in chains
    decreases |chains|
  {
    if |chains| > 0 {
      CountAllKeys(Bump(m, chains[0]), chains[1..]);
      assert chains == [chains[0]] + chains[1..];
      assert (set c | c in chains) == {chains[0]} + set c | c in chains[1..];
    }
  }
}
