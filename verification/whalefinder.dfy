/**
  The persistent example function `bitcoin-whale-finder-js`: counts bitcoin
  blocks and keeps a record of ever larger transaction outputs, the running
  maximum over every output of every bitcoin block it is given.
 */
module WhaleFinder {
  import opened Wrappers
  import opened Tasks
  import Polling

  /** A transaction output; `value` in satoshis. */
  datatype Vout = Vout(value: int, n: int)

  datatype Tx = Tx(txid: string, vout: seq<Vout>)

  /** The chain-specific payload of a block; only bitcoin blocks are read. */
  datatype Block = Block(tx: seq<Tx>)

  /** A record-breaking output: its value, transaction and index in that transaction. */
  datatype Output = Output(value: int, txId: string, txOutputIndex: int)

  /** The reported state: `{}` (`Blank`), or the two fields `init` sets up. */
  datatype WhaleState = Blank | Whale(blocksProcessed: int, largestOutputs: seq<Output>)

  /** The current record: the value of the last entry, or 0 when there is none. */
  function Largest(outs: seq<Output>): int {
    if |outs| > 0 then outs[|outs| - 1].value else 0
  }

  /** The records are positive and strictly increasing. */
  ghost predicate Increasing(outs: seq<Output>) {
    && (forall i :: 0 <= i < |outs| ==> outs[i].value > 0)
    && (forall i, j :: 0 <= i < j < |outs| ==> outs[i].value < outs[j].value)
  }

  /** `o` records output `v` of transaction `tx`. */
  ghost predicate Records(o: Output, tx: Tx, v: Vout) {
    o == Output(v.value, tx.txid, v.n)
  }

  /** Reference definition of the scan over one transaction: an output is recorded when it beats the current record. */
  function ScanVouts(outs: seq<Output>, tx: Tx, vs: seq<Vout>): seq<Output>
    decreases |vs|
  {
    if |vs| == 0 then outs
    else
      var next := if vs[0].value > Largest(outs) then outs + [Output(vs[0].value, tx.txid, vs[0].n)] else outs;
      ScanVouts(next, tx, vs[1..])
  }

  /** Reference definition of the scan over the transactions of a block, in order. */
  function ScanTxs(outs: seq<Output>, txs: seq<Tx>): seq<Output>
    decreases |txs|
  {
    if |txs| == 0 then outs else ScanTxs(ScanVouts(outs, txs[0], txs[0].vout), txs[1..])
  }

  /**
    The scan of one transaction only appends; the record never drops and ends
    at least every scanned value, and equal to one of them unless unchanged;
    each appended entry records a scanned output.
   */
  lemma {:induction false} ScanVoutsProps(outs: seq<Output>, tx: Tx, vs: seq<Vout>)
    ensures var r := ScanVouts(outs, tx, vs);
      && outs <= r
      && Largest(outs) <= Largest(r)
      && (forall v :: v in vs ==> v.value <= Largest(r))
      && (Largest(r) == Largest(outs) || exists v :: v in vs && v.value == Largest(r))
      && (forall k :: |outs| <= k < |r| ==> exists v :: v in vs && Records(r[k], tx, v))
    decreases |vs|
  {
    if |vs| > 0 {
      var v0 := vs[0];
      var next := if v0.value > Largest(outs) then outs + [Output(v0.value, tx.txid, v0.n)] else outs;
      var r := ScanVouts(next, tx, vs[1..]);
      assert r == ScanVouts(outs, tx, vs);
      ScanVoutsProps(next, tx, vs[1..]);
      assert vs == [v0] + vs[1..];
      assert Largest(outs) <= Largest(next) && v0.value <= Largest(next);
      forall k | |outs| <= k < |r|
        ensures exists v :: v in vs && Records(r[k], tx, v)
      {
        if k < |next| {
          assert r[k] == next[k] && Records(r[k], tx, v0);
        } else {
          var v :| v in vs[1..] && Records(r[k], tx, v);
        }
      }
    }
  }

  /** The scan of one transaction keeps positive, strictly increasing records so. */
  lemma {:induction false} ScanVoutsIncreasing(outs: seq<Output>, tx: Tx, vs: seq<Vout>)
    requires Increasing(outs)
    ensures Increasing(ScanVouts(outs, tx, vs))
    decreases |vs|
  {
    if |vs| > 0 {
      var v0 := vs[0];
      var next := if v0.value > Largest(outs) then outs + [Output(v0.value, tx.txid, v0.n)] else outs;
      IncreasingBelowLargest(outs);
      assert Increasing(next);
      ScanVoutsIncreasing(next, tx, vs[1..]);
    }
  }

  /**
    No record-breaker is skipped: an output above the current record and
    above every output before it in the transaction is recorded.
   */
  lemma {:induction false} ScanVoutsRecordsBreakers(outs: seq<Output>, tx: Tx, vs: seq<Vout>, j: int)
    requires 0 <= j < |vs|
    requires vs[j].value > Largest(outs)
    requires forall j' :: 0 <= j' < j ==> vs[j'].value < vs[j].value
    ensures var r := ScanVouts(outs, tx, vs);
      exists k :: |outs| <= k < |r| && Records(r[k], tx, vs[j])
    decreases |vs|
  {
    var v0 := vs[0];
    var next := if v0.value > Largest(outs) then outs + [Output(v0.value, tx.txid, v0.n)] else outs;
    var r := ScanVouts(next, tx, vs[1..]);
    assert r == ScanVouts(outs, tx, vs);
    ScanVoutsProps(next, tx, vs[1..]);
    if j == 0 {
      assert r[|outs|] == next[|outs|] && Records(r[|outs|], tx, vs[j]);
    } else {
      assert vs[1..][j - 1] == vs[j];
      ScanVoutsRecordsBreakers(next, tx, vs[1..], j - 1);
    }
  }

  /** Helper: in increasing records every entry is at most the last, and the last is non-negative. */
  lemma IncreasingBelowLargest(outs: seq<Output>)
    requires Increasing(outs)
    ensures Largest(outs) >= 0
    ensures forall i :: 0 <= i < |outs| ==> outs[i].value <= Largest(outs)
  {
  }

  /** The scan of a block has the properties of the scan of each of its transactions. */
  lemma {:induction false} ScanTxsProps(outs: seq<Output>, txs: seq<Tx>)
    ensures var r := ScanTxs(outs, txs);
      && outs <= r
      && Largest(outs) <= Largest(r)
      && (forall tx, v :: tx in txs && v in tx.vout ==> v.value <= Largest(r))
      && (Largest(r) == Largest(outs) || exists tx, v :: tx in txs && v in tx.vout && v.value == Largest(r))
      && (forall k :: |outs| <= k < |r| ==> exists tx, v :: tx in txs && v in tx.vout && Records(r[k], tx, v))
    decreases |txs|
  {
    if |txs| > 0 {
      var t0 := txs[0];
      var next := ScanVouts(outs, t0, t0.vout);
      var r := ScanTxs(next, txs[1..]);
      ScanVoutsProps(outs, t0, t0.vout);
      ScanTxsProps(next, txs[1..]);
      assert txs == [t0] + txs[1..];
      forall k | |outs| <= k < |r|
        ensures exists tx, v :: tx in txs && v in tx.vout && Records(r[k], tx, v)
      {
        if k < |next| {
          assert r[k] == next[k];
          var v :| v in t0.vout && Records(next[k], t0, v);
        } else {
          var tx, v :| tx in txs[1..] && v in tx.vout && Records(r[k], tx, v);
        }
      }
      if Largest(r) != Largest(outs) {
        if Largest(r) == Largest(next) {
          var v :| v in t0.vout && v.value == Largest(next);
          assert t0 in txs;
        } else {
          var tx, v :| tx in txs[1..] && v in tx.vout && v.value == Largest(r);
          assert tx in txs;
        }
      }
    }
  }

  /** The scan of a block keeps positive, strictly increasing records so. */
  lemma {:induction false} ScanTxsIncreasing(outs: seq<Output>, txs: seq<Tx>)
    ensures Increasing(outs) ==> Increasing(ScanTxs(outs, txs))
    decreases |txs|
  {
    if |txs| > 0 && Increasing(outs) {
      ScanVoutsIncreasing(outs, txs[0], txs[0].vout);
      ScanTxsIncreasing(ScanVouts(outs, txs[0], txs[0].vout), txs[1..]);
    }
  }

  /** Output `j` of transaction `i` beats every output scanned before it in the block. */
  ghost predicate BeatsEarlier(txs: seq<Tx>, i: int, j: int)
    requires 0 <= i < |txs| && 0 <= j < |txs[i].vout|
  {
    && (forall i', j' :: 0 <= i' < i && 0 <= j' < |txs[i'].vout| ==> txs[i'].vout[j'].value < txs[i].vout[j].value)
    && (forall j' :: 0 <= j' < j ==> txs[i].vout[j'].value < txs[i].vout[j].value)
  }

  /** Helper: the scan of a transaction only appends. */
  lemma ScanVoutsExtends(outs: seq<Output>, tx: Tx, vs: seq<Vout>)
    ensures outs <= ScanVouts(outs, tx, vs)
  {
    ScanVoutsProps(outs, tx, vs);
  }

  /** Helper: the scan of a block only appends. */
  lemma ScanTxsExtends(outs: seq<Output>, txs: seq<Tx>)
    ensures outs <= ScanTxs(outs, txs)
  {
    ScanTxsProps(outs, txs);
  }

  /** Helper: an output beating every output of the first transaction beats the record after it. */
  lemma FirstTxBelow(outs: seq<Output>, txs: seq<Tx>, i: int, j: int)
    requires 0 < i < |txs| && 0 <= j < |txs[i].vout|
    requires txs[i].vout[j].value > Largest(outs)
    requires BeatsEarlier(txs, i, j)
    ensures Largest(ScanVouts(outs, txs[0], txs[0].vout)) < txs[i].vout[j].value
  {
    var t0 := txs[0];
    var next := ScanVouts(outs, t0, t0.vout);
    ScanVoutsProps(outs, t0, t0.vout);
    if Largest(next) != Largest(outs) {
      var w :| w in t0.vout && w.value == Largest(next);
      var j' :| 0 <= j' < |t0.vout| && t0.vout[j'] == w;
      assert txs[0].vout[j'].value < txs[i].vout[j].value;
    }
  }

  /** Helper: beating every earlier output survives dropping the first transaction. */
  lemma BeatsEarlierInRest(txs: seq<Tx>, i: int, j: int)
    requires 0 < i < |txs| && 0 <= j < |txs[i].vout|
    requires BeatsEarlier(txs, i, j)
    ensures txs[1..][i - 1] == txs[i]
    ensures BeatsEarlier(txs[1..], i - 1, j)
  {
  }

  /**
    No record-breaker of a block is skipped: an output above the current
    record and above every output scanned before it is recorded.
   */
  lemma {:induction false} ScanTxsRecordsBreakers(outs: seq<Output>, txs: seq<Tx>, i: int, j: int)
    requires 0 <= i < |txs| && 0 <= j < |txs[i].vout|
    requires txs[i].vout[j].value > Largest(outs)
    requires BeatsEarlier(txs, i, j)
    ensures var r := ScanTxs(outs, txs);
      exists k :: |outs| <= k < |r| && Records(r[k], txs[i], txs[i].vout[j])
    decreases |txs|
  {
    var t0 := txs[0];
    var next := ScanVouts(outs, t0, t0.vout);
    var r := ScanTxs(next, txs[1..]);
    ScanVoutsExtends(outs, t0, t0.vout);
    ScanTxsExtends(next, txs[1..]);
    assert r == ScanTxs(outs, txs);
    if i == 0 {
      ScanVoutsRecordsBreakers(outs, t0, t0.vout, j);
      var k :| |outs| <= k < |next| && Records(next[k], t0, txs[i].vout[j]);
      assert r[k] == next[k] && Records(r[k], txs[i], txs[i].vout[j]);
    } else {
      FirstTxBelow(outs, txs, i, j);
      BeatsEarlierInRest(txs, i, j);
      ScanTxsRecordsBreakers(next, txs[1..], i - 1, j);
      var k :| |next| <= k < |r| && Records(r[k], txs[1..][i - 1], txs[1..][i - 1].vout[j]);
      assert |outs| <= |next| <= k;
      assert Records(r[k], txs[i], txs[i].vout[j]);
      assert |outs| <= k < |ScanTxs(outs, txs)| && Records(ScanTxs(outs, txs)[k], txs[i], txs[i].vout[j]);
    }
  }

  /** Output `j` of `vs` beats the record `outs` ends with and every output before it. */
  ghost predicate BreaksRecord(outs: seq<Output>, vs: seq<Vout>, j: int)
    requires 0 <= j < |vs|
  {
    && vs[j].value > Largest(outs)
    && (forall j' :: 0 <= j' < j ==> vs[j'].value < vs[j].value)
  }

  /**
    Nothing but record-breakers is recorded: each entry the scan of one
    transaction appends records an output that beats the old record and
    every output before it in the transaction.
   */
  lemma {:induction false} ScanVoutsOnlyBreakers(outs: seq<Output>, tx: Tx, vs: seq<Vout>)
    ensures var r := ScanVouts(outs, tx, vs);
      forall k :: |outs| <= k < |r| ==>
        exists j :: 0 <= j < |vs| && Records(r[k], tx, vs[j]) && BreaksRecord(outs, vs, j)
    decreases |vs|
  {
    if |vs| > 0 {
      var v0 := vs[0];
      var next := if v0.value > Largest(outs) then outs + [Output(v0.value, tx.txid, v0.n)] else outs;
      var r := ScanVouts(next, tx, vs[1..]);
      assert r == ScanVouts(outs, tx, vs);
      ScanVoutsExtends(next, tx, vs[1..]);
      ScanVoutsOnlyBreakers(next, tx, vs[1..]);
      assert Largest(outs) <= Largest(next) && v0.value <= Largest(next);
      forall k | |outs| <= k < |r|
        ensures exists j :: 0 <= j < |vs| && Records(r[k], tx, vs[j]) && BreaksRecord(outs, vs, j)
      {
        if k < |next| {
          assert r[k] == next[k] && Records(r[k], tx, vs[0]) && BreaksRecord(outs, vs, 0);
        } else {
          var j1 :| 0 <= j1 < |vs[1..]| && Records(r[k], tx, vs[1..][j1]) && BreaksRecord(next, vs[1..], j1);
          assert vs[1..][j1] == vs[j1 + 1];
          BreaksRecordFromRest(outs, next, vs, j1 + 1);
          assert Records(r[k], tx, vs[j1 + 1]) && BreaksRecord(outs, vs, j1 + 1);
        }
      }
    }
  }

  /** Helper: a breaker of the rest, after a first output at most the new record, breaks the old one. */
  lemma BreaksRecordFromRest(outs: seq<Output>, next: seq<Output>, vs: seq<Vout>, j: int)
    requires 0 < j < |vs|
    requires Largest(outs) <= Largest(next) && vs[0].value <= Largest(next)
    requires BreaksRecord(next, vs[1..], j - 1)
    ensures BreaksRecord(outs, vs, j)
  {
  }

  /**
    Nothing but record-breakers is recorded in a block: each appended entry
    records an output that beats the old record and every output scanned
    before it.
   */
  lemma {:induction false} ScanTxsOnlyBreakers(outs: seq<Output>, txs: seq<Tx>)
    ensures var r := ScanTxs(outs, txs);
      forall k :: |outs| <= k < |r| ==>
        exists i, j :: 0 <= i < |txs| && 0 <= j < |txs[i].vout| && Records(r[k], txs[i], txs[i].vout[j])
                       && txs[i].vout[j].value > Largest(outs) && BeatsEarlier(txs, i, j)
    decreases |txs|
  {
    if |txs| > 0 {
      var t0 := txs[0];
      var next := ScanVouts(outs, t0, t0.vout);
      var r := ScanTxs(next, txs[1..]);
      assert r == ScanTxs(outs, txs);
      ScanVoutsProps(outs, t0, t0.vout);
      ScanVoutsOnlyBreakers(outs, t0, t0.vout);
      ScanTxsExtends(next, txs[1..]);
      ScanTxsOnlyBreakers(next, txs[1..]);
      forall k | |outs| <= k < |ScanTxs(outs, txs)|
        ensures exists i, j :: 0 <= i < |txs| && 0 <= j < |txs[i].vout|
                               && Records(ScanTxs(outs, txs)[k], txs[i], txs[i].vout[j])
                               && txs[i].vout[j].value > Largest(outs) && BeatsEarlier(txs, i, j)
      {
        if k < |next| {
          var j :| 0 <= j < |t0.vout| && Records(next[k], t0, t0.vout[j]) && BreaksRecord(outs, t0.vout, j);
          assert r[k] == next[k];
          assert Records(r[k], txs[0], txs[0].vout[j]) && BeatsEarlier(txs, 0, j);
        } else {
          var i1, j :| 0 <= i1 < |txs[1..]| && 0 <= j < |txs[1..][i1].vout|
                       && Records(r[k], txs[1..][i1], txs[1..][i1].vout[j])
                       && txs[1..][i1].vout[j].value > Largest(next) && BeatsEarlier(txs[1..], i1, j);
          BeatsEarlierFromRest(txs, i1 + 1, j, Largest(next));
          assert Records(r[k], txs[i1 + 1], txs[i1 + 1].vout[j]);
        }
      }
      assert forall k :: |outs| <= k < |ScanTxs(outs, txs)| ==>
        exists i, j :: 0 <= i < |txs| && 0 <= j < |txs[i].vout| && Records(ScanTxs(outs, txs)[k], txs[i], txs[i].vout[j])
                       && txs[i].vout[j].value > Largest(outs) && BeatsEarlier(txs, i, j);
    }
  }

  /** Helper: a breaker of the later transactions, above every output of the first, beats all earlier outputs. */
  lemma BeatsEarlierFromRest(txs: seq<Tx>, i: int, j: int, bound: int)
    requires 0 < i < |txs| && 0 <= j < |txs[i].vout|
    requires forall v :: v in txs[0].vout ==> v.value <= bound
    requires txs[i].vout[j].value > bound
    requires BeatsEarlier(txs[1..], i - 1, j)
    ensures BeatsEarlier(txs, i, j)
  {
  }

  /**
    The nested loop over `block.tx[].vout[]` as written: it computes the
    reference scan, keeping `currentLargest` equal to the last record.
   */
  method ScanBlock(outs: seq<Output>, block: Block) returns (largestOutputs: seq<Output>, currentLargest: int)
    ensures largestOutputs == ScanTxs(outs, block.tx)
    ensures currentLargest == Largest(largestOutputs)
    ensures outs <= largestOutputs
    ensures forall tx, v :: tx in block.tx && v in tx.vout ==> v.value <= currentLargest
    ensures Increasing(outs) ==> Increasing(largestOutputs)
  {
    largestOutputs := outs;
    currentLargest := 0;
    if |largestOutputs| > 0 {
      currentLargest := largestOutputs[|largestOutputs| - 1].value;
    }
    var i := 0;
    while i < |block.tx|
      invariant 0 <= i <= |block.tx|
      invariant currentLargest == Largest(largestOutputs)
      invariant ScanTxs(largestOutputs, block.tx[i..]) == ScanTxs(outs, block.tx)
    {
      var tx := block.tx[i];
      assert block.tx[i..][0] == tx && block.tx[i..][1..] == block.tx[i + 1..];
      var j := 0;
      while j < |tx.vout|
        invariant 0 <= j <= |tx.vout|
        invariant currentLargest == Largest(largestOutputs)
        invariant ScanTxs(ScanVouts(largestOutputs, tx, tx.vout[j..]), block.tx[i + 1..]) == ScanTxs(outs, block.tx)
      {
        var vout := tx.vout[j];
        assert tx.vout[j..][0] == vout && tx.vout[j..][1..] == tx.vout[j + 1..];
        if vout.value > currentLargest {
          largestOutputs := largestOutputs + [Output(vout.value, tx.txid, vout.n)];
          currentLargest := vout.value;
        }
        j := j + 1;
      }
      assert tx.vout[j..] == [];
      i := i + 1;
    }
    assert block.tx[i..] == [];
    ScanTxsProps(outs, block.tx);
    ScanTxsIncreasing(outs, block.tx);
  }

  /**
    The state a task yields, posted to `/success` (or the exception posted
    to `/error`). `init` sets up zero blocks and no records whatever the
    configuration; `apply` on a bitcoin block counts it and extends the
    records, on any other chain it passes the previous state through; any
    other task type, `"applyBlock"` included, yields `{}`.
   */
  function HandleTask(task: Task<Block, WhaleState>): (r: Result<WhaleState, Fault>)
    ensures task.taskType == Some("init") ==> r == Success(Whale(0, []))
    ensures task.taskType != Some("init") && task.taskType != Some("apply") ==> r == Success(Blank)
    ensures task.taskType == Some("apply") ==>
      (r.Success? <==> && task.stateWithChains.Some? && task.blockWithChain.Some?
                       && (task.blockWithChain.value.meta.chain == "bitcoin" ==>
                             Spread(task.stateWithChains.value.state, Blank).Whale?))
    ensures task.taskType == Some("apply") && r.Success? && task.blockWithChain.value.meta.chain != "bitcoin" ==>
      r.value == Spread(task.stateWithChains.value.state, Blank)
    ensures task.taskType == Some("apply") && r.Success? && task.blockWithChain.value.meta.chain == "bitcoin" ==>
      var prior := Spread(task.stateWithChains.value.state, Blank);
      var txs := task.blockWithChain.value.block.tx;
      && r.value.Whale?
      && r.value.blocksProcessed == prior.blocksProcessed + 1
      && r.value.largestOutputs == ScanTxs(prior.largestOutputs, txs)
      && prior.largestOutputs <= r.value.largestOutputs
      && (forall tx, v :: tx in txs && v in tx.vout ==> v.value <= Largest(r.value.largestOutputs))
      && (forall k :: |prior.largestOutputs| <= k < |r.value.largestOutputs| ==>
            exists tx, v :: tx in txs && v in tx.vout && Records(r.value.largestOutputs[k], tx, v))
      && (Increasing(prior.largestOutputs) ==> Increasing(r.value.largestOutputs))
  {
    if task.taskType == Some("init") then Success(Whale(0, []))
    else if task.taskType == Some("apply") then
      match task.stateWithChains
      case None => Failure(MissingField("stateWithChains"))
      case Some(stateWithChains) =>
        var state := Spread(stateWithChains.state, Blank);
        match task.blockWithChain
        case None => Failure(MissingField("blockWithChain"))
        case Some(blockWithChain) =>
          if blockWithChain.meta.chain == "bitcoin" then
            match state
            case Blank => Failure(MissingField("largestOutputs"))
            case Whale(blocksProcessed, largestOutputs) =>
              ScanTxsProps(largestOutputs, blockWithChain.block.tx);
              ScanTxsIncreasing(largestOutputs, blockWithChain.block.tx);
              Success(Whale(blocksProcessed + 1, ScanTxs(largestOutputs, blockWithChain.block.tx)))
          else Success(state)
    else Success(Blank)
  }

  /** The state invariant: a `Whale` state's records are increasing. */
  ghost predicate Valid(s: WhaleState) {
    s.Whale? ==> Increasing(s.largestOutputs)
  }

  /** An `apply` task carrying `prior` as its previous state. */
  function ApplyTask(prior: WhaleState, block: BlockWithChain<Block>): Task<Block, WhaleState> {
    Task(Some("apply"), JNull, Some(block), Some(StateWithChains(Some(prior), map[])))
  }

  /** The number of bitcoin blocks in `blocks`. */
  function BitcoinBlocks(blocks: seq<BlockWithChain<Block>>): nat
    decreases |blocks|
  {
    if |blocks| == 0 then 0
    else (if blocks[0].meta.chain == "bitcoin" then 1 else 0) + BitcoinBlocks(blocks[1..])
  }

  /** Feeding each `apply` the state reported for the task before it, starting from `state`. */
  function Replay(state: WhaleState, blocks: seq<BlockWithChain<Block>>): Result<WhaleState, Fault>
    decreases |blocks|
  {
    if |blocks| == 0 then Success(state)
    else match HandleTask(ApplyTask(state, blocks[0]))
      case Failure(f) => Failure(f)
      case Success(next) => Replay(next, blocks[1..])
  }

  /**
    From any state with strictly increasing positive records, replaying any blocks never throws, counts exactly
    the bitcoin blocks, keeps the records increasing and only ever appends to them.
   */
  lemma {:induction false} ReplayFromWhale(bp: int, outs: seq<Output>, blocks: seq<BlockWithChain<Block>>)
    requires Increasing(outs)
    ensures Replay(Whale(bp, outs), blocks).Success?
    ensures var s := Replay(Whale(bp, outs), blocks).value;
      && s.Whale?
      && s.blocksProcessed == bp + BitcoinBlocks(blocks)
      && outs <= s.largestOutputs
      && Valid(s)
    decreases |blocks|
  {
    if |blocks| > 0 {
      var next := HandleTask(ApplyTask(Whale(bp, outs), blocks[0])).value;
      ReplayFromWhale(next.blocksProcessed, next.largestOutputs, blocks[1..]);
    }
  }

  /** Starting from the state `init` reports, every replay has counted its bitcoin blocks and has increasing records. */
  lemma ReplayFromInit(config: Json, blocks: seq<BlockWithChain<Block>>)
    ensures HandleTask(Task(Some("init"), config, None, None)) == Success(Whale(0, []))
    ensures Replay(Whale(0, []), blocks).Success?
    ensures Replay(Whale(0, []), blocks).value.Whale?
    ensures Replay(Whale(0, []), blocks).value.blocksProcessed == BitcoinBlocks(blocks)
    ensures Valid(Replay(Whale(0, []), blocks).value)
  {
    ReplayFromWhale(0, [], blocks);
  }

  /** A JSON `null` body means done; the reply's status is not looked at. */
  const Protocol := Polling.Protocol(Polling.BodyIsNull, false)

  /** `run`: the calls the function makes against a script of replies. */
  function Run(script: seq<Response<Block, WhaleState>>): Polling.Trace<WhaleState> {
    Polling.Run(Protocol, HandleTask, script)
  }

  /**
    The fetch sentinel of this script: a JSON `null` body ends the loop with
    no report whatever the status, while the empty body and a task with a
    type other than `init` or `apply` (a null one included) are answered
    with a `{}` success.
   */
  lemma SentinelIsNullBody(script: seq<Response<Block, WhaleState>>)
    ensures var t := Run(script);
      forall i :: 0 <= i < |t.calls| && i < |script| && t.calls[i] == Polling.GetNext
                  && script[i].Reply? && script[i].body.Null? ==>
        i == |t.calls| - 1 && t.end == Polling.Finished
    ensures var t := Run(script);
      forall i :: 0 <= i < |t.calls| && i < |script| && t.calls[i] == Polling.GetNext
                  && script[i].Reply?
                  && (script[i].body.EmptyText?
                      || (script[i].body.Object?
                          && script[i].body.task.taskType != Some("init")
                          && script[i].body.task.taskType != Some("apply"))) ==>
        i + 1 < |t.calls| && t.calls[i + 1] == Polling.PostSuccess(Blank)
  {
    var t := Run(script);
    Polling.DoneStops(Protocol, HandleTask, script);
    Polling.OneReportPerTask(Protocol, HandleTask, script);
    forall i | 0 <= i < |t.calls| && i < |script| && t.calls[i] == Polling.GetNext
               && script[i].Reply?
               && (script[i].body.EmptyText?
                   || (script[i].body.Object?
                       && script[i].body.task.taskType != Some("init")
                       && script[i].body.task.taskType != Some("apply")))
      ensures i + 1 < |t.calls| && t.calls[i + 1] == Polling.PostSuccess(Blank)
    {
      if script[i].body.EmptyText? {
        assert Polling.Classify(Protocol, script[i]) == Polling.Work(FieldlessTask());
      } else {
        assert Polling.Classify(Protocol, script[i]) == Polling.Work(script[i].body.task);
      }
    }
  }

  /**
    The documented "no more tasks" reply, an empty body, does not stop this
    loop: it posts `{}` and fetches again, for as long as the server keeps
    answering that way.
   */
  lemma {:induction false} EmptyBodyKeepsPolling(n: nat)
    ensures Run(EmptyReplies(n)) == Polling.Trace(Posts(n) + [Polling.GetNext], Polling.Waiting)
  {
    if n > 0 {
      EmptyBodyKeepsPolling(n - 1);
      assert EmptyReplies(n)[2..] == EmptyReplies(n - 1);
    }
  }

  /** `n` rounds of an empty `/next` reply, each followed by an acknowledged `/success`. */
  function EmptyReplies(n: nat): seq<Response<Block, WhaleState>> {
    if n == 0 then [] else [Reply(200, EmptyText), Reply(200, Null)] + EmptyReplies(n - 1)
  }

  /** `n` rounds of a fetch followed by a `{}` success. */
  function Posts(n: nat): seq<Polling.Call<WhaleState>> {
    if n == 0 then [] else [Polling.GetNext, Polling.PostSuccess(Blank)] + Posts(n - 1)
  }

  /**
    An acknowledgement of `/success` is not checked: any reply leads to the
    next fetch, and only a rejected post is reported to `/error`.
   */
  lemma AckStatusIgnored(script: seq<Response<Block, WhaleState>>)
    ensures var t := Run(script);
      forall i :: 0 <= i < |t.calls| - 1 && t.calls[i].PostSuccess? ==>
        t.calls[i + 1] == (if script[i].Reply? then Polling.GetNext else Polling.PostError(AckRejected))
  {
    var t := Run(script);
    Polling.RunConforms(Protocol, HandleTask, script);
    forall i | 0 <= i < |t.calls| - 1 && t.calls[i].PostSuccess?
      ensures t.calls[i + 1] == (if script[i].Reply? then Polling.GetNext else Polling.PostError(AckRejected))
    {
      assert Polling.Steps(Protocol, HandleTask, script, t, i);
    }
  }

  /** An exception while handling a task is reported once to `/error` and the loop stops there. */
  lemma HandlerFaultIsTerminal(script: seq<Response<Block, WhaleState>>)
    ensures var t := Run(script);
      forall i :: 0 <= i < |t.calls| && i < |script| && t.calls[i] == Polling.GetNext
                  && script[i].Reply? && script[i].body.Object?
                  && HandleTask(script[i].body.task).Failure? ==>
        i + 2 == |t.calls| && t.calls[i + 1] == Polling.PostError(HandleTask(script[i].body.task).error)
        && t.end == Polling.Failed
  {
    var t := Run(script);
    Polling.OneReportPerTask(Protocol, HandleTask, script);
    Polling.ErrorIsTerminal(Protocol, HandleTask, script);
    forall i | 0 <= i < |t.calls| && i < |script| && t.calls[i] == Polling.GetNext
               && script[i].Reply? && script[i].body.Object?
               && HandleTask(script[i].body.task).Failure?
      ensures i + 2 == |t.calls| && t.calls[i + 1] == Polling.PostError(HandleTask(script[i].body.task).error)
      ensures t.end == Polling.Failed
    {
      assert Polling.Classify(Protocol, script[i]) == Polling.Work(script[i].body.task);
      assert t.calls[i + 1].PostError?;
    }
  }
}
