# Chainless example functions, modelled in Dafny

Chainless runs user "functions" over blockchain blocks. A function gets a
task (`init`, or `apply` with a block and the previous state) and returns a
new state. This project models the code in the repository that has real
logic:

- the temporary test functions `f1.js` and `f1.py`. Both count blocks per
  chain.
- the persistent example `block-counter-js`. Its `handleTask` also counts
  blocks per chain, and its `run`/`nextTask` loop fetches tasks from `/next`,
  posts each result to `/success`, and posts any exception to `/error`.
- the persistent example `bitcoin-whale-finder-js`. It counts bitcoin blocks
  and keeps an append-only list of record-breaking transaction outputs.

Modules:

- `Wrappers`: `Option` (a null/undefined/None value) and `Result` (a value,
  or an exception).
- `Tasks`: the task, block and state records, the HTTP replies as the
  function reads them, and the exceptions (`Fault`).
- `Counting`: the per-chain count map. An absent key reads as 0.
- `F1Js`, `F1Py`: the two test functions, and the proof that they agree.
- `Polling`: the request/compute/report loop, generic over the handler and
  the protocol. `Run` is the loop. `After` is a one-step state machine, and
  `Conforms` says that a call sequence is a run of that machine. `Run` is
  proved to be the only sequence that conforms.
- `BlockCounter`, `WhaleFinder`: each example's handler and its
  instantiation of the loop.

The network is a scripted list of replies. The i-th call of the loop is
either a GET of `/next` or a POST of `/success`, and it is answered by
`script[i]`. The POST of `/error` is always the last call, and its answer
is never read. When the script runs out, the loop is left `Waiting`.

Where the documented task contract and the code disagree, the model follows the code:

- The documented "no more tasks" reply is an empty body. The HTTP client
  hands the scripts an empty body as the empty string `""`, which is not the
  JSON value `null`. The replies are modelled with three body shapes:
  `Null` (a JSON `null`), `EmptyText` (the empty string) and `Object`.
- In `block-counter-js`, `nextTask` checks the status first (`index.js:31`):
  any status other than 200 throws, whatever the body, so an empty body
  sent with, say, 204 No Content is reported to `/error`. With status 200
  (`index.js:32`), `"".taskType` is undefined, so an empty body ends the
  loop cleanly, as does an object whose `taskType` is null. A status-200
  JSON `null` body makes the read of `.taskType` throw, so that error is
  reported to `/error`.
- In `bitcoin-whale-finder-js` (`index.js:10`), only a JSON `null` body ends
  the loop. The empty body, and any task whose `taskType` is neither
  `"init"` nor `"apply"` (null and `"applyBlock"` included), get `{}`
  posted as a success, and the loop fetches again. Against a server that
  keeps answering with an empty body, this script never stops
  (`WhaleFinder.EmptyBodyKeepsPolling`). That script never looks at a
  status code.
- `f1.js:6-7` reads a null prior state as `{}`, and so do `f1.py` and
  `block-counter-js`. In the whale finder, a bitcoin `apply` on a state
  without `largestOutputs` throws (`index.js:20-26`), and the model reports
  that on `/error`.

## Model

| member | source | states |
|---|---|---|
| Counting.Bump | example/block-counter-js/index.js:44-46 | the chain's count becomes the previous count plus 1, with an absent key read as 0; the key set grows by the chain only; every other key keeps its value |
| Counting.CountAllCounts | backend/core/src/test/resources/functions/f1.js:12-15 | counting a sequence of chains adds, for each chain, its number of occurrences (multiset count) to the starting count |
| Counting.CountAllKeys | backend/core/src/test/resources/functions/f1.js:7-15 | counting a sequence of chains adds exactly the chains seen as keys and removes none |
| F1Js.F1 | backend/core/src/test/resources/functions/f1.js:3-19 | a null previous state counts as `{}`; the result's keys are the previous keys plus the block's chain; that chain's count is the previous one plus 1 (1 if absent); every other key is unchanged |
| F1Js.FoldIsCountAll | backend/core/src/test/resources/functions/f1.js:1-18 | threading `f1.js` over a block sequence, each result fed back as the next previous state, is counting the blocks' chains |
| F1Js.FoldFromNullCounts | backend/core/src/test/resources/functions/f1.js:1-18 | from a null state, folding `f1.js` over a block sequence gives each chain the number of blocks on that chain (0 for a chain never seen) |
| F1Js.FoldFromNullKeys | backend/core/src/test/resources/functions/f1.js:7-15 | from a null state, a chain is a key of the folded state iff some block of the sequence is on that chain |
| F1Py.ApplyBlock | backend/core/src/test/resources/functions/f1.py:3-10 | `None` and `{}` are both read as `{}`; a present chain is incremented; an absent chain is set to 1; all other keys are unchanged |
| F1Py.SameAsF1Js | backend/core/src/test/resources/functions/f1.py:3-10 | for every modelled input, `apply_block` returns the same mapping as `f1.js` |
| BlockCounter.HandleTask | example/block-counter-js/index.js:36-50 | `init`, and any type other than `apply`, yield `{}`; `apply` succeeds iff the task has both a state and a block; it then counts the block's chain once more on a copy of the previous state (null read as `{}`), adds no key but the chain, and keeps every other count |
| BlockCounter.ReplayIsCountAll | example/block-counter-js/index.js:40-46 | feeding each `apply` the state reported for the previous task never throws and is counting the blocks' chains in order |
| BlockCounter.ReplayFromInitCounts | example/block-counter-js/index.js:36-49 | `init` yields `{}` whatever the configuration; starting there and feeding back each reported state, a chain's count is the number of applied blocks on that chain |
| BlockCounter.SentinelIsNullTaskType | example/block-counter-js/index.js:28-33 | a status-200 empty body, or one whose task has a null `taskType`, is the last call, with no report; a status-200 JSON `null` body is followed by exactly one `/error` post and the run ends Failed |
| BlockCounter.NextOnlyAfter200 | example/block-counter-js/index.js:9-16 | every fetch after the first follows a `/success` post that was acknowledged with status 200; any other acknowledgement status is followed by exactly one `/error` post, for the throw labelled with that status, and the run ends Failed |
| BlockCounter.HandlerFaultIsTerminal | example/block-counter-js/index.js:9-24 | an `apply` task whose handling throws is followed by exactly one `/error` post for that exception, and nothing after |
| BlockCounter.Scenarios | example/block-counter-js/index.js:36-49 | `{"bitcoin": 2}` plus a bitcoin block gives `{"bitcoin": 3}`; plus an ethereum block it gives `{"bitcoin": 2, "ethereum": 1}`; an apply then a reply with no task type gives exactly fetch, success, fetch, whatever replies follow |
| Polling.Classify | example/block-counter-js/index.js:28-34 | a fetch is "done" iff the reply was answered (status 200 where checked) and its body meets the sentinel: a JSON `null` body for one script; for the other, the empty body or an object whose task type is null; a rejected fetch throws; a non-200 status throws where it is checked, the throw labelled with the status; a JSON `null` body throws where the task type is read; an empty body that is not the sentinel is a task with no fields; any other object is the work, unchanged |
| Polling.AckFault | example/block-counter-js/index.js:10-15 | acknowledging `/success` raises no fault iff the post was answered, with status 200 where the script checks it; a rejected post is the rejection's throw; an answered but refused post is a throw labelled with its status |
| Polling.Run | example/block-counter-js/index.js:5-26 | the loop makes at least one and at most one call per reply plus the final error post; it starts with a fetch; when it is left waiting it has used every reply |
| Polling.RunConforms | example/block-counter-js/index.js:6-25 | every call of the loop is what the step machine issues after the previous call and its reply, and the loop ends exactly where the machine stops or the replies run out |
| Polling.ConformsUnique | example/block-counter-js/index.js:7-17 | the step machine admits exactly one call sequence per script, so it is a complete specification of the loop |
| Polling.ErrorIsTerminal | example/block-counter-js/index.js:18-25 | an `/error` post is always the last call, and the run ends Failed exactly when its last call is an `/error` post |
| Polling.DoneStops | example/bitcoin-whale-finder-js/index.js:7-10 | a fetch whose reply meets the sentinel is the last call and the run ends Finished; a Finished run's last call is such a fetch |
| Polling.OneReportPerTask | example/block-counter-js/index.js:8-16 | each fetched task is immediately followed by its one report: `/success` with the handler's state, or `/error` with its exception; each `/success` post follows the fetch of the task it reports |
| Polling.NextOnlyAfterAck | example/block-counter-js/index.js:10-16 | every fetch after the first follows an acknowledged `/success` post, with status 200 where the script checks it |
| Polling.FailureReportedOnce | example/block-counter-js/index.js:15-24 | a failed fetch or a failed acknowledgement is followed by exactly one `/error` post for that throw, and the run ends Failed |
| Polling.EndedRunIgnoresLaterReplies | example/bitcoin-whale-finder-js/index.js:53-59 | once a run has finished or failed, appending more replies to the script changes nothing: no call is made after termination |
| WhaleFinder.ScanVoutsProps | example/bitcoin-whale-finder-js/index.js:29-40 | scanning one transaction's outputs only appends; the record never drops; every scanned value is at most the final record, which is the old record or one of the scanned values; each new entry records a scanned output |
| WhaleFinder.ScanVoutsIncreasing | example/bitcoin-whale-finder-js/index.js:30-39 | positive, strictly increasing records stay positive and strictly increasing after the scan of a transaction |
| WhaleFinder.ScanVoutsRecordsBreakers | example/bitcoin-whale-finder-js/index.js:29-40 | completeness: an output whose value beats the old record and every earlier output of the transaction is recorded among the new entries |
| WhaleFinder.ScanVoutsOnlyBreakers | example/bitcoin-whale-finder-js/index.js:29-40 | soundness: every entry the scan of a transaction appends records one of its outputs whose value beats the old record and every earlier output of the transaction; with completeness, the new entries are exactly the record-breakers |
| WhaleFinder.ScanTxsProps | example/bitcoin-whale-finder-js/index.js:24-42 | the same properties for the scan over all transactions of a block, with each new entry recording an output of some transaction of the block |
| WhaleFinder.ScanTxsIncreasing | example/bitcoin-whale-finder-js/index.js:28-42 | scanning a whole block keeps strictly increasing positive records so |
| WhaleFinder.ScanTxsRecordsBreakers | example/bitcoin-whale-finder-js/index.js:24-42 | completeness: an output of the block whose value beats the old record and every output scanned before it, in earlier transactions or earlier in its own, is recorded among the new entries |
| WhaleFinder.ScanTxsOnlyBreakers | example/bitcoin-whale-finder-js/index.js:24-42 | soundness: every entry the scan of a block appends records an output of the block whose value beats the old record and every output scanned before it |
| WhaleFinder.ScanBlock | example/bitcoin-whale-finder-js/index.js:24-42 | the nested loop computes the reference scan and keeps `currentLargest` equal to the last record; the old list is a prefix of the new one; every output value in the block is at most the final record; increasing records stay increasing |
| WhaleFinder.HandleTask | example/bitcoin-whale-finder-js/index.js:11-46 | `init` yields zero blocks and no records whatever the configuration; types other than `init`/`apply`, `"applyBlock"` included, yield `{}`; `apply` succeeds iff the state and block are present and, for a bitcoin block, the previous state has the counter fields; a bitcoin apply adds exactly 1 to `blocksProcessed`, only appends records, and its records are the reference scan of the block; each new record is an output of one of the block's transactions, with its value, txid and index; every output of the block is at most the final record; the records stay increasing; any other chain passes the previous state through unchanged |
| WhaleFinder.ReplayFromWhale | example/bitcoin-whale-finder-js/index.js:18-45 | from a state with increasing records, feeding back each reported state never throws; `blocksProcessed` grows by exactly the number of bitcoin blocks; the old records are a prefix of the new ones; the records stay increasing |
| WhaleFinder.ReplayFromInit | example/bitcoin-whale-finder-js/index.js:12-16 | `init` yields `{blocksProcessed: 0, largestOutputs: []}` whatever the configuration; starting there, the replayed `blocksProcessed` is the number of bitcoin blocks, and the records stay increasing |
| WhaleFinder.SentinelIsNullBody | example/bitcoin-whale-finder-js/index.js:9-17 | a JSON `null` body is the last call whatever its status; the empty body, and a task whose type is neither `init` nor `apply` (a null one included), are answered with a `{}` success |
| WhaleFinder.EmptyBodyKeepsPolling | example/bitcoin-whale-finder-js/index.js:7-51 | a server that answers every fetch with an empty body gets a `{}` success per fetch and the loop never ends while replies last |
| WhaleFinder.AckStatusIgnored | example/bitcoin-whale-finder-js/index.js:47-51 | after a `/success` post, any answer leads to the next fetch, and only a rejected post leads to `/error` |
| WhaleFinder.HandlerFaultIsTerminal | example/bitcoin-whale-finder-js/index.js:53-59 | an exception while handling a task is followed by exactly one `/error` post for it, and nothing after |

## Left out

- HTTP itself (axios, `CALLBACK_BASE_URL`) is replaced by the scripted
  replies and the emitted call trace. Whether a given status makes axios
  reject is folded into the script: `Rejected` stands for any rejected request.
- `console.log` output is not modelled.
- The answer to the `/error` post, and a failure of that post, are not
  modelled. The loop ends either way.
- The `Exception(...)` calls in `block-counter-js` refer to an undefined
  name, so they throw a ReferenceError, not the intended message. The model
  only records that a throw happens and where.
- The body of the `/error` post is the thrown JavaScript error itself
  (`data: e`): a ReferenceError from the undefined `Exception`, or a
  TypeError from a property read on `null` or `undefined`. The status in
  `FetchStatus` and `AckStatus` and the name in `MissingField` label the
  throw for the proofs. They are not claimed to be part of the posted data.
- Numbers are unbounded integers, and output values are integers such as
  satoshis. JavaScript doubles, NaN, and precision loss above 2^53 are not
  modelled.
- States are immutable values. Two source effects are therefore not
  modelled. In the whale finder, the shallow copy at line 20 shares the
  `largestOutputs` array, so `push` also changes the previous state. In
  `f1.py`, a non-empty prior state dict is updated in place.
- Values whose shape does not match the records are not modelled. This
  covers a count that is not a number, and a whale-finder state holding
  only one of its two fields. The whale finder's previous state is either
  `{}` (`Blank`) or has both fields. A block present in a task always has
  `meta` and, for the whale finder, `tx`.
- F1Js.F1: that the input state is not modified needs no contract here.
  Every state is an immutable value, so it holds by construction.
- F1Js.F1, BlockCounter.HandleTask, F1Py.SameAsF1Js: the count map is a
  Dafny `map`, which has no inherited keys. A JavaScript object does: a
  chain named like an `Object.prototype` property (`constructor`,
  `toString`, `__proto__`, ...) reads a function or prototype instead of
  `undefined`, so `f1.js` and `handleTask` would not start that count at 0,
  and an assignment to `__proto__` adds no key. These contracts therefore
  hold only for chain names that are not such properties, and the
  agreement with `f1.py`, whose dict has no inherited keys, holds only for
  them too.
- `chainStates` is carried along but read by no function.
- The `@polyglot.export_value` host binding in `f1.py` is not modelled.
- The documentation site (bundled `assets/js`, the docusaurus
  configuration, the React homepage component) is not part of this model.
