/**
 * The page side of the logging worker:
 * src/layers/Logging/adapters/WorkerLoggerAdapter.ts. Each call posts a
 * message to the worker; `postMessage` appends to the trace `outbox`.
 */
module WorkerLogging {
  import opened LogTypes

  /** A message posted to the worker. */
  datatype PostedMessage =
    | InitMsg(batchSize: int, idleTime: int) // `{ type: 'init', batchSize, idleTime }`
    | DisposeMsg                             // `{ type: 'dispose' }`
    | LogOne(data: LogMessage)               // `{ type: 'log', data }` for one record
    | LogMany(records: seq<LogMessage>)      // `{ type: 'log', data }` for an array

  /** What `log(data)` posts: the filtered array (even when empty), or an allowed single record. */
  function Posts(logLevels: seq<LogLevel>, data: LogInput): seq<PostedMessage> {
    match data
    case Many(ms) => [LogMany(FilterByLevel(logLevels, ms))]
    case One(m) => if Accepts(logLevels, m.level) then [LogOne(m)] else []
  }

  /** The records a posted `'log'` message carries. */
  function Payload(p: PostedMessage): seq<LogMessage> {
    match p
    case LogOne(m) => [m]
    case LogMany(ms) => ms
    case _ => []
  }

  /**
   * No posted payload carries a record at a level outside the allow-list;
   * an array always yields exactly one post carrying the allowed records in
   * input order; a single record is posted if and only if it is allowed.
   */
  lemma PostsAreFiltered(logLevels: seq<LogLevel>, data: LogInput)
    ensures forall p, m :: p in Posts(logLevels, data) && m in Payload(p) ==> Accepts(logLevels, m.level)
    ensures data.Many? ==> |Posts(logLevels, data)| == 1 && Payload(Posts(logLevels, data)[0]) == FilterByLevel(logLevels, data.msgs)
    ensures data.One? ==> (|Posts(logLevels, data)| == 1 <==> Accepts(logLevels, data.msg.level))
    ensures data.One? && Accepts(logLevels, data.msg.level) ==> Payload(Posts(logLevels, data)[0]) == [data.msg]
  {
  }

  /** An array of records none of which is allowed still produces one post, with an empty payload. */
  lemma {:induction false} DisallowedArrayStillPosts(logLevels: seq<LogLevel>, ms: seq<LogMessage>)
    requires forall m :: m in ms ==> !Accepts(logLevels, m.level)
    ensures Posts(logLevels, Many(ms)) == [LogMany([])]
  {
    if ms != [] {
      DisallowedArrayStillPosts(logLevels, ms[1..]);
      assert ms[0] in ms;
    }
  }

  class WorkerAdapter {
    const logLevels: seq<LogLevel>
    const batchSize: int
    const idleTime: int
    /** Messages posted to the worker, in order. */
    var outbox: seq<PostedMessage>
    /** The listener for batches coming back from the worker is registered. */
    var listening: bool

    constructor (logLevels: seq<LogLevel>, batchSize: int, idleTime: int)
      ensures this.logLevels == logLevels && this.batchSize == batchSize && this.idleTime == idleTime
      ensures outbox == [] && !listening
    {
      this.logLevels := logLevels;
      this.batchSize := batchSize;
      this.idleTime := idleTime;
      outbox := [];
      listening := false;
    }

    /** `initialize()`: posts the batch settings given at construction and starts listening. */
    method Initialize()
      modifies this
      ensures outbox == old(outbox) + [InitMsg(batchSize, idleTime)]
      ensures listening
    {
      outbox := outbox + [InitMsg(batchSize, idleTime)];
      listening := true;
    }

    /** `dispose()`: posts exactly the dispose message. */
    method Dispose()
      modifies this
      ensures outbox == old(outbox) + [DisposeMsg]
      ensures listening == old(listening)
    {
      outbox := outbox + [DisposeMsg];
    }

    /** `log(data)`. */
    method Log(data: LogInput)
      modifies this
      ensures outbox == old(outbox) + Posts(logLevels, data)
      ensures listening == old(listening)
    {
      match data {
        case Many(ms) =>
          var filtered := FilterByLevel(logLevels, ms);
          outbox := outbox + [LogMany(filtered)];
        case One(m) =>
          if m.level !in logLevels {
            return;
          }
          outbox := outbox + [LogOne(m)];
      }
    }
  }
}
