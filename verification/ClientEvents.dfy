/** What one native event means: the dispatch in `Client::poll_event` (src/client.rs) and the handlers
    that the base consumer and the base producer add to it. */
module ClientEvents {
  import opened Wrappers

  type Message = int
  type ErrorCode = int
  const NO_ERROR: ErrorCode := 0
  const PARTITION_EOF: ErrorCode := -191

  /** A native event. A fetch event carries at most one message, since only the first is read. */
  datatype Event =
    | Fetch(message: Option<Message>)
    | Error(code: ErrorCode, fatal: bool, partition: int)
    | Rebalance(assignOrRevoke: bool)
    | OffsetCommit(code: ErrorCode)
    | Log(readable: bool)
    | Stats
    | OauthRefresh
    | Unknown

  /** Calls made on the client context, in order. */
  datatype Call =
    | ErrorCall(code: ErrorCode)
    | RebalanceCall
    | CommitCall(code: ErrorCode)
    | LogCall
    | StatsCall
    | TokenCall

  datatype ConsumerError =
    | PartitionEof(partition: int)
    | ConsumptionFatal(code: ErrorCode)
    | Consumption(code: ErrorCode)

  /** An item handed to the user of a consumer. */
  datatype Item = Ok(message: Message) | Err(error: ConsumerError)

  datatype EventPollResult<T> = NoEvent | EventConsumed | Ready(value: T)

  /** `poll_event`: does the event go on to the caller, or was it used up here? */
  predicate Forwarded(e: Event) {
    !e.Log? && !e.Stats? && !e.OauthRefresh?
  }

  /** The context calls made inside `poll_event`. */
  function ClientCalls(e: Event, refreshTokens: bool): seq<Call> {
    match e
    case Log(readable) => if readable then [LogCall] else []
    case Stats => [StatsCall]
    case Error(code, _, _) => [ErrorCall(code)]
    case OauthRefresh => if refreshTokens then [TokenCall] else []
    case _ => []
  }

  /** The item that a consumer returns for the event, if any: `handle_fetch_event`, `handle_error_event`. */
  function ConsumerItem(e: Event): Option<Item> {
    match e
    case Fetch(Some(m)) => Some(Ok(m))
    case Error(code, fatal, partition) =>
      if code == NO_ERROR then None
      else if code == PARTITION_EOF then Some(Err(PartitionEof(partition)))
      else if fatal then Some(Err(ConsumptionFatal(code)))
      else Some(Err(Consumption(code)))
    case _ => None
  }

  /** The context calls made by the consumer's own handlers. */
  function ConsumerCalls(e: Event): seq<Call> {
    match e
    case Rebalance(true) => [RebalanceCall]
    case OffsetCommit(code) => [CommitCall(code)]
    case _ => []
  }

  /** Everything the context sees when a consumer takes the event off its queue. */
  function DispatchCalls(e: Event, refreshTokens: bool): seq<Call> {
    ClientCalls(e, refreshTokens) + ConsumerCalls(e)
  }

  /** Events after which the consumer's poll loop goes round again without refreshing its budget. */
  predicate Skipped(e: Event) {
    Forwarded(e) && ConsumerItem(e).None? && !e.Rebalance? && !e.OffsetCommit?
  }
}
