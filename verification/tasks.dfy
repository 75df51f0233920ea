/**
  The records exchanged between a Chainless function and the task server:
  the task a function receives, the HTTP replies it reads, and the
  exceptions it can raise while handling them.
 */
module Tasks {
  import opened Wrappers

  /** An arbitrary JSON value; the `configuration` of an `init` task. */
  datatype Json =
    | JNull
    | JBool(b: bool)
    | JNum(n: int)
    | JStr(s: string)
    | JArr(items: seq<Json>)
    | JObj(fields: map<string, Json>)

  /** The commonly indexed fields of a block. */
  datatype Meta = Meta(blockId: string, chain: string, height: int)

  /** A block of chain-specific shape `B` together with its metadata. */
  datatype BlockWithChain<B> = BlockWithChain(meta: Meta, block: B)

  /** The previous function state (possibly null) and the last block id seen per chain. */
  datatype StateWithChains<St> = StateWithChains(state: Option<St>, chainStates: map<string, string>)

  /**
    A task as fetched from `/next`. Every field is optional in the wire
    format; a handler that reads a missing one throws.
   */
  datatype Task<B, St> = Task(
    taskType: Option<string>,
    configuration: Json,
    blockWithChain: Option<BlockWithChain<B>>,
    stateWithChains: Option<StateWithChains<St>>)

  /**
    Where and why a function throws. The `/error` post carries the thrown
    JavaScript error itself; the status and field name kept here label the
    throw for the proofs and are not part of the posted data.
   */
  datatype Fault =
    | FetchRejected              // the GET of `/next` itself failed
    | FetchStatus(status: int)   // `/next` answered with a status other than 200
    | NullBody                   // `.taskType` read on a null response body
    | MissingField(name: string) // a property read on an undefined field of the task or state
    | AckRejected                // the POST of `/success` itself failed
    | AckStatus(status: int)     // `/success` answered with a status other than 200

  /**
    A response body as the script reads it: JSON `null`, the empty body
    (the empty string, whose properties all read as undefined), or a task object.
   */
  datatype Body<B, St> = Null | EmptyText | Object(task: Task<B, St>)

  /** An HTTP exchange as the function sees it: a rejected promise, or a status and a body. */
  datatype Response<B, St> = Rejected | Reply(status: int, body: Body<B, St>)

  /** The task a handler sees when it reads the fields of a body that has none, such as the empty string. */
  function FieldlessTask<B, St>(): Task<B, St> {
    Task(None, JNull, None, None)
  }

  /** The copy `{ ...prior }` of a possibly null state: a null one copies to the empty value `empty`. */
  function Spread<T>(prior: Option<T>, empty: T): T {
    match prior
    case None => empty
    case Some(s) => s
  }

  /** The chain names of `blocks`, in order. */
  function Chains<B>(blocks: seq<BlockWithChain<B>>): seq<string> {
    seq(|blocks|, i requires 0 <= i < |blocks| => blocks[i].meta.chain)
  }
}
