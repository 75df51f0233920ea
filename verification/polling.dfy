/**
  The request/compute/report loop of a persistent Chainless function.

  The network is a script of replies: the i-th call the loop makes (a GET of
  `/next` or a POST of `/success`) is answered by `script[i]`. The POST of
  `/error` is the loop's last act and its answer is never read, so it
  consumes no reply. When the script runs out the loop is left waiting.
 */
module Polling {
  import opened Wrappers
  import opened Tasks

  /** How a fetch says "no more work". */
  datatype Sentinel =
    | BodyIsNull      // `taskResponse.data == null`
    | TaskTypeIsNull  // `taskResponse.data.taskType == null` (a JSON `null` body then throws)

  /** The per-script choices: the done sentinel and whether a status other than 200 throws. */
  datatype Protocol = Protocol(sentinel: Sentinel, checksStatus: bool)

  /** What one fetch yields. */
  datatype Fetched<B, St> = Done | Work(task: Task<B, St>) | Throw(fault: Fault)

  datatype Call<S> = GetNext | PostSuccess(state: S) | PostError(fault: Fault)

  /** Why the call sequence ends: clean exit, after an `/error` post, or still awaiting a reply. */
  datatype End = Finished | Failed | Waiting

  datatype Trace<S> = Trace(calls: seq<Call<S>>, end: End)

  /** The reply was answered with a status the script accepts. */
  predicate Accepted<B, St>(p: Protocol, r: Response<B, St>) {
    r.Reply? && (p.checksStatus ==> r.status == 200)
  }

  /**
    The body says "no more work": JSON `null` for `data == null`; for
    `data.taskType == null`, the empty body or a task without a type.
   */
  predicate MeetsSentinel<B, St>(p: Protocol, body: Body<B, St>) {
    match p.sentinel
    case BodyIsNull => body.Null?
    case TaskTypeIsNull => body.EmptyText? || (body.Object? && body.task.taskType.None?)
  }

  /** Reading the reply of a GET of `/next`: done, a task to handle, or the exception it raises. */
  function Classify<B, St>(p: Protocol, r: Response<B, St>): (f: Fetched<B, St>)
    ensures f.Done? <==> Accepted(p, r) && MeetsSentinel(p, r.body)
    ensures r.Rejected? ==> f == Throw(FetchRejected)
    ensures r.Reply? && p.checksStatus && r.status != 200 ==> f == Throw(FetchStatus(r.status))
    ensures Accepted(p, r) && p.sentinel == TaskTypeIsNull && r.body.Null? ==> f == Throw(NullBody)
    ensures Accepted(p, r) && p.sentinel == BodyIsNull && r.body.EmptyText? ==> f == Work(FieldlessTask())
    ensures Accepted(p, r) && r.body.Object? && !MeetsSentinel(p, r.body) ==> f == Work(r.body.task)
  {
    match r
    case Rejected => Throw(FetchRejected)
    case Reply(status, body) =>
      if p.checksStatus && status != 200 then Throw(FetchStatus(status))
      else match p.sentinel
        case BodyIsNull =>
          (match body
           case Null => Done
           case EmptyText => Work(FieldlessTask())
           case Object(task) => Work(task))
        case TaskTypeIsNull =>
          (match body
           case Null => Throw(NullBody)
           case EmptyText => Done
           case Object(task) => if task.taskType.None? then Done else Work(task))
  }

  /** Reading the reply of a POST of `/success`: the fault it raises, if any. */
  function AckFault<B, St>(p: Protocol, r: Response<B, St>): (f: Option<Fault>)
    ensures f.None? <==> Accepted(p, r)
    ensures r.Rejected? ==> f == Some(AckRejected)
    ensures r.Reply? && !Accepted(p, r) ==> f == Some(AckStatus(r.status))
  {
    match r
    case Rejected => Some(AckRejected)
    case Reply(status, _) =>
      if p.checksStatus && status != 200 then Some(AckStatus(status)) else None
  }

  /** The report the loop posts for a handled task. */
  function Report<S>(outcome: Result<S, Fault>): Call<S> {
    match outcome
    case Success(s) => PostSuccess(s)
    case Failure(f) => PostError(f)
  }

  /**
    One step of the loop as a state machine: the call issued after `call`
    was answered by `reply`, or None when the loop stops there.
   */
  function After<B, St, S>(p: Protocol, handle: Task<B, St> -> Result<S, Fault>,
                           call: Call<S>, reply: Response<B, St>): Option<Call<S>>
  {
    match call
    case GetNext =>
      (match Classify(p, reply)
       case Done => None
       case Throw(f) => Some(PostError(f))
       case Work(task) => Some(Report(handle(task))))
    case PostSuccess(_) =>
      (match AckFault(p, reply)
       case Some(f) => Some(PostError(f))
       case None => Some(GetNext))
    case PostError(_) => None
  }

  /** Call `i + 1` of `t` is what the machine issues after call `i` got `script[i]`. */
  ghost predicate Steps<B, St, S>(p: Protocol, handle: Task<B, St> -> Result<S, Fault>,
                                  script: seq<Response<B, St>>, t: Trace<S>, i: int)
  {
    0 <= i < |t.calls| - 1 && i < |script| && After(p, handle, t.calls[i], script[i]) == Some(t.calls[i + 1])
  }

  /**
    `t` is the call sequence of the loop on `script`: it starts with a fetch,
    each call follows from the previous call and its reply, and it ends
    exactly where the machine stops or the replies run out.
   */
  ghost predicate Conforms<B, St, S>(p: Protocol, handle: Task<B, St> -> Result<S, Fault>,
                                     script: seq<Response<B, St>>, t: Trace<S>)
  {
    && |t.calls| >= 1
    && t.calls[0] == GetNext
    && (forall i :: 0 <= i < |t.calls| - 1 ==> Steps(p, handle, script, t, i))
    && var last := |t.calls| - 1;
       match t.end
       case Failed => t.calls[last].PostError?
       case Finished => t.calls[last] == GetNext && last < |script| && Classify(p, script[last]).Done?
       case Waiting => !t.calls[last].PostError? && last == |script|
  }

  /** The loop of both example functions, `run` in their `index.js`. */
  function Run<B, St, S>(p: Protocol, handle: Task<B, St> -> Result<S, Fault>,
                         script: seq<Response<B, St>>): (t: Trace<S>)
    ensures 1 <= |t.calls| <= |script| + 1
    ensures t.calls[0] == GetNext
    ensures t.end == Waiting ==> |t.calls| == |script| + 1
    decreases |script|
  {
    if |script| == 0 then Trace([GetNext], Waiting)
    else match Classify(p, script[0])
      case Done => Trace([GetNext], Finished)
      case Throw(f) => Trace([GetNext, PostError(f)], Failed)
      case Work(task) =>
        match handle(task)
        case Failure(f) => Trace([GetNext, PostError(f)], Failed)
        case Success(s) =>
          if |script| == 1 then Trace([GetNext, PostSuccess(s)], Waiting)
          else match AckFault(p, script[1])
            case Some(f) => Trace([GetNext, PostSuccess(s), PostError(f)], Failed)
            case None =>
              var rest := Run(p, handle, script[2..]);
              Trace([GetNext, PostSuccess(s)] + rest.calls, rest.end)
  }

  /** `Run` is the machine `After` driven by the script. */
  lemma {:induction false} RunConforms<B, St, S>(p: Protocol, handle: Task<B, St> -> Result<S, Fault>,
                                                 script: seq<Response<B, St>>)
    ensures Conforms(p, handle, script, Run(p, handle, script))
    decreases |script|
  {
    var t := Run(p, handle, script);
    if |script| >= 2 && Classify(p, script[0]).Work? && handle(Classify(p, script[0]).task).Success?
       && AckFault(p, script[1]).None? {
      var rest := Run(p, handle, script[2..]);
      RunConforms(p, handle, script[2..]);
      assert t.calls == [GetNext, PostSuccess(handle(Classify(p, script[0]).task).value)] + rest.calls;
      forall i | 2 <= i < |t.calls| - 1
        ensures Steps(p, handle, script, t, i)
      {
        assert Steps(p, handle, script[2..], rest, i - 2);
        assert t.calls[i] == rest.calls[i - 2] && t.calls[i + 1] == rest.calls[i - 1];
        assert script[i] == script[2..][i - 2];
      }
      var last := |t.calls| - 1;
      assert t.calls[last] == rest.calls[|rest.calls| - 1];
      if t.end == Finished {
        assert script[last] == script[2..][last - 2];
      }
    }
  }

  /** The machine admits one call sequence per script, so `Conforms` pins `Run` down. */
  lemma {:induction false} ConformsUnique<B, St, S>(p: Protocol, handle: Task<B, St> -> Result<S, Fault>,
                                                    script: seq<Response<B, St>>, t1: Trace<S>, t2: Trace<S>)
    requires Conforms(p, handle, script, t1)
    requires Conforms(p, handle, script, t2)
    ensures t1 == t2
  {
    var n := if |t1.calls| < |t2.calls| then |t1.calls| else |t2.calls|;
    var k := 0;
    while k < n
      invariant 0 <= k <= n
      invariant t1.calls[..k] == t2.calls[..k]
      invariant k < n ==> t1.calls[k] == t2.calls[k]
    {
      if k + 1 < n {
        assert Steps(p, handle, script, t1, k) && Steps(p, handle, script, t2, k);
      }
      assert t1.calls[..k + 1] == t1.calls[..k] + [t1.calls[k]];
      assert t2.calls[..k + 1] == t2.calls[..k] + [t2.calls[k]];
      k := k + 1;
    }
    // Neither sequence outlasts the other: where the shorter one ends the machine stops.
    var last1, last2 := |t1.calls| - 1, |t2.calls| - 1;
    assert last1 < last2 ==> Steps(p, handle, script, t2, last1);
    assert last2 < last1 ==> Steps(p, handle, script, t1, last2);
    assert t1.calls == t1.calls[..n] && t2.calls == t2.calls[..n];
  }

  /** Error is terminal: an `/error` post is the last call, and the loop ends Failed exactly when it made one. */
  lemma {:induction false} ErrorIsTerminal<B, St, S>(p: Protocol, handle: Task<B, St> -> Result<S, Fault>,
                                  script: seq<Response<B, St>>)
    ensures var t := Run(p, handle, script);
      forall i :: 0 <= i < |t.calls| && t.calls[i].PostError? ==> i == |t.calls| - 1
    ensures var t := Run(p, handle, script);
      t.end == Failed <==> t.calls[|t.calls| - 1].PostError?
  {
    var t := Run(p, handle, script);
    RunConforms(p, handle, script);
    forall i | 0 <= i < |t.calls| && t.calls[i].PostError?
      ensures i == |t.calls| - 1
    {
      assert !Steps(p, handle, script, t, i);
    }
  }

  /** Done means no further calls: a fetch that meets the sentinel is the last call and the loop ends Finished. */
  lemma {:induction false} DoneStops<B, St, S>(p: Protocol, handle: Task<B, St> -> Result<S, Fault>,
                            script: seq<Response<B, St>>)
    ensures var t := Run(p, handle, script);
      forall i :: 0 <= i < |t.calls| && i < |script| && t.calls[i] == GetNext && Classify(p, script[i]).Done? ==>
        i == |t.calls| - 1 && t.end == Finished
    ensures var t := Run(p, handle, script);
      t.end == Finished ==>
        |t.calls| - 1 < |script| && t.calls[|t.calls| - 1] == GetNext && Classify(p, script[|t.calls| - 1]).Done?
  {
    var t := Run(p, handle, script);
    RunConforms(p, handle, script);
    forall i | 0 <= i < |t.calls| && i < |script| && t.calls[i] == GetNext && Classify(p, script[i]).Done?
      ensures i == |t.calls| - 1 && t.end == Finished
    {
      assert !Steps(p, handle, script, t, i);
    }
  }

  /**
    One report per task: a fetched task is followed by exactly the report of
    its handling, and every `/success` post reports a fetched task's result.
   */
  lemma {:induction false} OneReportPerTask<B, St, S>(p: Protocol, handle: Task<B, St> -> Result<S, Fault>,
                                   script: seq<Response<B, St>>)
    ensures var t := Run(p, handle, script);
      forall i :: 0 <= i < |t.calls| && i < |script| && t.calls[i] == GetNext && Classify(p, script[i]).Work? ==>
        i + 1 < |t.calls| && t.calls[i + 1] == Report(handle(Classify(p, script[i]).task))
    ensures var t := Run(p, handle, script);
      forall i :: 0 <= i < |t.calls| && t.calls[i].PostSuccess? ==>
        && 0 < i
        && t.calls[i - 1] == GetNext
        && Classify(p, script[i - 1]).Work?
        && handle(Classify(p, script[i - 1]).task) == Success(t.calls[i].state)
  {
    var t := Run(p, handle, script);
    RunConforms(p, handle, script);
    forall i | 0 <= i < |t.calls| && i < |script| && t.calls[i] == GetNext && Classify(p, script[i]).Work?
      ensures i + 1 < |t.calls| && t.calls[i + 1] == Report(handle(Classify(p, script[i]).task))
    {
      if i == |t.calls| - 1 {
        match t.end
        case Finished =>
        case Failed =>
        case Waiting =>
      } else {
        assert Steps(p, handle, script, t, i);
      }
    }
    forall i | 0 <= i < |t.calls| && t.calls[i].PostSuccess?
      ensures 0 < i && t.calls[i - 1] == GetNext && Classify(p, script[i - 1]).Work?
      ensures handle(Classify(p, script[i - 1]).task) == Success(t.calls[i].state)
    {
      assert Steps(p, handle, script, t, i - 1);
    }
  }

  /** A fetch other than the first is made only after a `/success` post was acknowledged (status 200 where checked). */
  lemma {:induction false} NextOnlyAfterAck<B, St, S>(p: Protocol, handle: Task<B, St> -> Result<S, Fault>,
                                   script: seq<Response<B, St>>)
    ensures var t := Run(p, handle, script);
      forall i :: 0 < i < |t.calls| && t.calls[i] == GetNext ==>
        && t.calls[i - 1].PostSuccess?
        && script[i - 1].Reply?
        && (p.checksStatus ==> script[i - 1].status == 200)
  {
    var t := Run(p, handle, script);
    RunConforms(p, handle, script);
    forall i | 0 < i < |t.calls| && t.calls[i] == GetNext
      ensures t.calls[i - 1].PostSuccess? && script[i - 1].Reply?
      ensures p.checksStatus ==> script[i - 1].status == 200
    {
      assert Steps(p, handle, script, t, i - 1);
    }
  }

  /**
    Each failure, a failed fetch or a failed acknowledgement, is followed by
    exactly one `/error` post carrying it, and nothing after.
   */
  lemma {:induction false} FailureReportedOnce<B, St, S>(p: Protocol, handle: Task<B, St> -> Result<S, Fault>,
                                      script: seq<Response<B, St>>)
    ensures var t := Run(p, handle, script);
      forall i :: 0 <= i < |t.calls| && i < |script| && t.calls[i] == GetNext && Classify(p, script[i]).Throw? ==>
        && i + 2 == |t.calls|
        && t.calls[i + 1] == PostError(Classify(p, script[i]).fault)
        && t.end == Failed
    ensures var t := Run(p, handle, script);
      forall i :: 0 <= i < |t.calls| && i < |script| && t.calls[i].PostSuccess? && AckFault(p, script[i]).Some? ==>
        && i + 2 == |t.calls|
        && t.calls[i + 1] == PostError(AckFault(p, script[i]).value)
        && t.end == Failed
  {
    var t := Run(p, handle, script);
    RunConforms(p, handle, script);
    ErrorIsTerminal(p, handle, script);
    forall i | 0 <= i < |t.calls| && i < |script| && t.calls[i] == GetNext && Classify(p, script[i]).Throw?
      ensures i + 2 == |t.calls| && t.calls[i + 1] == PostError(Classify(p, script[i]).fault) && t.end == Failed
    {
      if i == |t.calls| - 1 {
        match t.end
        case Finished =>
        case Failed =>
        case Waiting =>
      } else {
        assert Steps(p, handle, script, t, i);
      }
    }
    forall i | 0 <= i < |t.calls| && i < |script| && t.calls[i].PostSuccess? && AckFault(p, script[i]).Some?
      ensures i + 2 == |t.calls| && t.calls[i + 1] == PostError(AckFault(p, script[i]).value) && t.end == Failed
    {
      if i == |t.calls| - 1 {
        match t.end
        case Finished =>
        case Failed =>
        case Waiting =>
      } else {
        assert Steps(p, handle, script, t, i);
      }
    }
  }

  /** Once the loop has finished or failed it reads no more replies: later ones change nothing. */
  lemma {:induction false} EndedRunIgnoresLaterReplies<B, St, S>(p: Protocol, handle: Task<B, St> -> Result<S, Fault>,
                                                                 script: seq<Response<B, St>>, later: seq<Response<B, St>>)
    requires Run(p, handle, script).end != Waiting
    ensures Run(p, handle, script + later) == Run(p, handle, script)
    decreases |script|
  {
    var all := script + later;
    assert all[0] == script[0];
    if |script| >= 2 {
      assert all[1] == script[1];
      assert all[2..] == script[2..] + later;
      if Classify(p, script[0]).Work? && handle(Classify(p, script[0]).task).Success? && AckFault(p, script[1]).None? {
        EndedRunIgnoresLaterReplies(p, handle, script[2..], later);
      }
    }
  }
}
