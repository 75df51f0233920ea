/**
  The persistent example function `block-counter-js`: counts blocks per
  chain, fetching tasks from `/next` until one arrives without a task type.
 */
module BlockCounter {
  import opened Wrappers
  import opened Tasks
  import opened Counting
  import Polling

  /**
    `handleTask`: `init` yields `{}`; `apply` yields a copy of the previous
    state with the block's chain counted once more; any other task type
    yields `{}`. Reading the payload of an `apply` task that lacks it throws.
   */
  function HandleTask<B>(task: Task<B, Counts>): (r: Result<Counts, Fault>)
    ensures task.taskType != Some("apply") ==> r == Success(map[])
    ensures task.taskType == Some("apply") ==>
      (r.Success? <==> task.stateWithChains.Some? && task.blockWithChain.Some?)
    ensures task.taskType == Some("apply") && r.Success? ==>
      var prior := Spread(task.stateWithChains.value.state, map[]);
      var chain := task.blockWithChain.value.meta.chain;
      && r.value.Keys == prior.Keys + {chain}
      && Get(r.value, chain) == Get(prior, chain) + 1
      && (forall k :: k in prior && k != chain ==> r.value[k] == prior[k])
  {
    if task.taskType == Some("init") then Success(map[])
    else if task.taskType == Some("apply") then
      match (task.stateWithChains, task.blockWithChain)
      case (None, _) => Failure(MissingField("stateWithChains"))
      case (Some(stateWithChains), None) => Failure(MissingField("blockWithChain"))
      case (Some(stateWithChains), Some(blockWithChain)) =>
        Success(Bump(Spread(stateWithChains.state, map[]), blockWithChain.meta.chain))
    else Success(map[])
  }

  /** `nextTask` throws on a status other than 200, and a task with a null `taskType` means done. */
  const Protocol := Polling.Protocol(Polling.TaskTypeIsNull, true)

  /** `handleTask` as the handler the loop calls. */
  function Handler<B>(): Task<B, Counts> -> Result<Counts, Fault> {
    t => HandleTask(t)
  }

  /** `run`: the calls the function makes against a script of replies. */
  function Run<B>(script: seq<Response<B, Counts>>): Polling.Trace<Counts> {
    Polling.Run(Protocol, Handler(), script)
  }

  /** An `apply` task carrying `prior` as its previous state and `block`. */
  function ApplyTask<B>(prior: Counts, block: BlockWithChain<B>): Task<B, Counts> {
    Task(Some("apply"), JNull, Some(block), Some(StateWithChains(Some(prior), map[])))
  }

  /** Feeding each `apply` the state reported for the task before it, starting from `state`. */
  function Replay<B>(state: Counts, blocks: seq<BlockWithChain<B>>): Result<Counts, Fault>
    decreases |blocks|
  {
    if |blocks| == 0 then Success(state)
    else match HandleTask(ApplyTask(state, blocks[0]))
      case Failure(f) => Failure(f)
      case Success(next) => Replay(next, blocks[1..])
  }

  /**
    Starting from `init` and feeding each `apply` the previously reported
    state, every chain's count is the number of applied blocks on it.
   */
  lemma {:induction false} ReplayFromInitCounts<B>(config: Json, blocks: seq<BlockWithChain<B>>, c: string)
    ensures HandleTask<B>(Task(Some("init"), config, None, None)) == Success(map[])
    ensures Replay(map[], blocks).Success?
    ensures Get(Replay(map[], blocks).value, c) == multiset(Chains(blocks))[c]
  {
    ReplayIsCountAll(map[], blocks);
    CountAllCounts(map[], Chains(blocks), c);
  }

  /** Replaying applies is counting the blocks' chains in order. */
  lemma {:induction false} ReplayIsCountAll<B>(state: Counts, blocks: seq<BlockWithChain<B>>)
    ensures Replay(state, blocks) == Success(CountAll(state, Chains(blocks)))
    decreases |blocks|
  {
    if |blocks| > 0 {
      assert Chains(blocks)[1..] == Chains(blocks[1..]);
      ReplayIsCountAll(Bump(state, blocks[0].meta.chain), blocks[1..]);
    }
  }

  /**
    The fetch sentinel of this script: a reply whose task has a null
    `taskType`, or an empty body, ends the loop with no report, while a JSON
    `null` body makes the `.taskType` read throw and is reported to `/error`.
   */
  lemma SentinelIsNullTaskType<B>(script: seq<Response<B, Counts>>)
    ensures var t := Run(script);
      forall i :: 0 <= i < |t.calls| && i < |script| && t.calls[i] == Polling.GetNext
                  && script[i].Reply? && script[i].status == 200
                  && (script[i].body.EmptyText? || (script[i].body.Object? && script[i].body.task.taskType.None?)) ==>
        i == |t.calls| - 1 && t.end == Polling.Finished
    ensures var t := Run(script);
      forall i :: 0 <= i < |t.calls| && i < |script| && t.calls[i] == Polling.GetNext
                  && script[i] == Reply(200, Null) ==>
        i + 2 == |t.calls| && t.calls[i + 1] == Polling.PostError(NullBody) && t.end == Polling.Failed
  {
    Polling.DoneStops(Protocol, Handler(), script);
    Polling.FailureReportedOnce(Protocol, Handler(), script);
  }

  /**
    Every fetch after the first follows a `/success` post acknowledged with
    status 200; any other acknowledgement is reported to `/error` and ends the loop.
   */
  lemma NextOnlyAfter200<B>(script: seq<Response<B, Counts>>)
    ensures var t := Run(script);
      forall i :: 0 < i < |t.calls| && t.calls[i] == Polling.GetNext ==>
        t.calls[i - 1].PostSuccess? && script[i - 1].Reply? && script[i - 1].status == 200
    ensures var t := Run(script);
      forall i :: 0 <= i < |t.calls| && i < |script| && t.calls[i].PostSuccess? && script[i].Reply?
                  && script[i].status != 200 ==>
        i + 2 == |t.calls| && t.calls[i + 1] == Polling.PostError(AckStatus(script[i].status)) && t.end == Polling.Failed
  {
    Polling.NextOnlyAfterAck(Protocol, Handler(), script);
    Polling.FailureReportedOnce(Protocol, Handler(), script);
  }

  /**
    An `apply` task that throws in `handleTask` is reported once to `/error`
    and the loop stops there.
   */
  lemma HandlerFaultIsTerminal<B>(script: seq<Response<B, Counts>>)
    ensures var t := Run(script);
      forall i :: 0 <= i < |t.calls| && i < |script| && t.calls[i] == Polling.GetNext
                  && script[i].Reply? && script[i].status == 200 && script[i].body.Object?
                  && script[i].body.task.taskType == Some("apply")
                  && HandleTask(script[i].body.task).Failure? ==>
        i + 2 == |t.calls| && t.calls[i + 1] == Polling.PostError(HandleTask(script[i].body.task).error)
        && t.end == Polling.Failed
  {
    var h := Handler<B>();
    var t := Run(script);
    Polling.OneReportPerTask(Protocol, h, script);
    Polling.ErrorIsTerminal(Protocol, h, script);
    forall i | 0 <= i < |t.calls| && i < |script| && t.calls[i] == Polling.GetNext
               && script[i].Reply? && script[i].status == 200 && script[i].body.Object?
               && script[i].body.task.taskType == Some("apply")
               && HandleTask(script[i].body.task).Failure?
      ensures i + 2 == |t.calls| && t.calls[i + 1] == Polling.PostError(HandleTask(script[i].body.task).error)
      ensures t.end == Polling.Failed
    {
      assert Polling.Classify(Protocol, script[i]) == Polling.Work(script[i].body.task);
      assert h(script[i].body.task) == HandleTask(script[i].body.task);
      assert t.calls[i + 1].PostError?;
    }
  }

  /** A block on `chain` with no payload. */
  function OnChain(chain: string): BlockWithChain<()> {
    BlockWithChain(Meta("", chain, 0), ())
  }

  /**
    Scenarios: with previous state `{"bitcoin": 2}`, a bitcoin block gives
    `{"bitcoin": 3}` and an ethereum block gives `{"bitcoin": 2, "ethereum": 1}`;
    an `apply` followed by a reply without a task type is one `/success`
    post and no further fetch.
   */
  lemma Scenarios(later: seq<Response<(), Counts>>)
    ensures var prior := map["bitcoin" := 2];
      && HandleTask(ApplyTask(prior, OnChain("bitcoin"))) == Success(map["bitcoin" := 3])
      && HandleTask(ApplyTask(prior, OnChain("ethereum"))) == Success(map["bitcoin" := 2, "ethereum" := 1])
    ensures var apply := ApplyTask(map["bitcoin" := 2], OnChain("bitcoin"));
      var done := Task(None, JNull, None, None);
      Run([Reply(200, Object(apply)), Reply(200, Null), Reply(200, Object(done))] + later)
        == Polling.Trace([Polling.GetNext, Polling.PostSuccess(map["bitcoin" := 3]), Polling.GetNext], Polling.Finished)
  {
    var apply := ApplyTask(map["bitcoin" := 2], OnChain("bitcoin"));
    var done := Task(None, JNull, None, None);
    var script := [Reply(200, Object(apply)), Reply(200, Null), Reply(200, Object(done))];
    assert map["bitcoin" := 2]["bitcoin" := 3] == map["bitcoin" := 3];
    assert script[2..] == [Reply(200, Object(done))];
    Polling.EndedRunIgnoresLaterReplies(Protocol, Handler(), script, later);
  }
}
