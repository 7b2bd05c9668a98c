/**
 * The batching database adapter of
 * src/layers/Logging/adapters/SupabaseLoggerAdapter.ts.
 *
 * Accepted records wait in `logBuffer`. A flush moves the whole buffer
 * into the batch being sent and inserts it; a failed insert puts that
 * batch back in front of the buffer. The `insert` is awaited, so a flush is
 * split into `BeginFlush` (everything up to the `await`) and
 * `CompleteFlush(outcome)` (everything after it); records may be added in
 * between. The Supabase client, the host name, `Date.now()` and
 * `serializeError` are not part of this model: whether a client exists, the
 * host string, the clock reading and the error serialiser are parameters.
 */
module SupabaseLogging {
  import opened Json
  import opened LogTypes
  import LogMessageGuards

  /** A call `fallbackLogger.error(message, error?)`. */
  datatype FallbackReport = FallbackReport(message: string, error: Option<Value>)

  /** How the awaited `insert(payload)` ended. */
  datatype InsertOutcome =
    | Inserted                  // resolved without an error
    | InsertFailed(error: Value) // resolved with `{ error }`; a falsy `error` is no failure
    | InsertThrew(error: Value)  // rejected

  /** The insert counts as done: `if (error)` lets a falsy `error`, such as `null`, through. */
  predicate Succeeded(outcome: InsertOutcome) {
    outcome.Inserted? || (outcome.InsertFailed? && !Truthy(outcome.error))
  }

  const NotInitialized := FallbackReport("Supabase client is not initialized", None)

  /** `v.info`, or undefined when `v` has none. */
  function InfoOf(v: Value): Value {
    match Get(v, "info")
    case Some(info) => info
    case None => Undefined
  }

  /** A log message passed through with `info: { ...args.info, host }`. */
  function HostStamped(args: Value, host: string): (r: Value)
    requires args.Obj?
    ensures r.Obj?
    ensures forall k :: k != "info" ==> Get(r, k) == Get(args, k)
    ensures Get(InfoOf(r), "host") == Some(Str(host))
    ensures forall k :: k != "host" ==> Get(InfoOf(r), k) == Get(InfoOf(args), k)
  {
    var info := Obj(SetField(Spread(InfoOf(args)), "host", Str(host)));
    Obj(SetField(args.fields, "info", info))
  }

  /** The fresh server record built for args that are not a log message. */
  function ServerRecord(level: LogLevel, message: string, args: Value, now: int, host: string,
                        serializeError: Value -> Value): (r: Value)
    ensures LogMessageGuards.IsServerLogMessage(r)
    ensures Get(r, "level") == Some(Str(LevelName(level)))
    ensures Get(r, "message") == Some(Str(message))
    ensures Get(r, "args") == Some(serializeError(args))
    ensures Get(r, "timestamp") == Some(Num(now as real))
    ensures Get(r, "host") == Some(Str(host))
  {
    var fields := [("source", Str("server")),
                   ("level", Str(LevelName(level))),
                   ("message", Str(message)),
                   ("args", serializeError(args)),
                   ("timestamp", Num(now as real)),
                   ("host", Str(host))];
    ServerFields(fields, LevelName(level), message, serializeError(args), now, host);
    Obj(fields)
  }

  /** What each property of the six-property server record holds. */
  lemma ServerFields(fields: seq<(string, Value)>, levelName: string, message: string, args: Value, now: int, host: string)
    requires |fields| == 6
    requires fields[0] == ("source", Str("server")) && fields[1] == ("level", Str(levelName))
    requires fields[2] == ("message", Str(message)) && fields[3] == ("args", args)
    requires fields[4] == ("timestamp", Num(now as real)) && fields[5] == ("host", Str(host))
    ensures LogMessageGuards.IsServerLogMessage(Obj(fields))
    ensures FieldOf(fields, "level") == Some(Str(levelName))
    ensures FieldOf(fields, "message") == Some(Str(message))
    ensures FieldOf(fields, "args") == Some(args)
    ensures FieldOf(fields, "timestamp") == Some(Num(now as real))
    ensures FieldOf(fields, "host") == Some(Str(host))
  {
    FieldOfAt(fields, 0);
    FieldOfAt(fields, 1);
    FieldOfAt(fields, 2);
    FieldOfAt(fields, 3);
    FieldOfAt(fields, 4);
    FieldOfAt(fields, 5);
  }

  /**
   * `processMessage(level, message, args)`. A log message is passed
   * through with `info.host` set; anything else becomes a fresh server
   * record carrying the serialised `args`, the clock reading and the host.
   */
  function ProcessMessage(level: LogLevel, message: string, args: Value, now: int, host: string,
                          serializeError: Value -> Value): (r: Value)
    ensures LogMessageGuards.IsLogMessage(r)
    ensures LogMessageGuards.IsLogMessage(args) ==>
              (forall k :: k != "info" ==> Get(r, k) == Get(args, k))
              && Get(InfoOf(r), "host") == Some(Str(host))
              && (forall k :: k != "host" ==> Get(InfoOf(r), k) == Get(InfoOf(args), k))
    ensures !LogMessageGuards.IsLogMessage(args) ==>
              LogMessageGuards.IsServerLogMessage(r)
              && Get(r, "level") == Some(Str(LevelName(level)))
              && Get(r, "message") == Some(Str(message))
              && Get(r, "args") == Some(serializeError(args))
              && Get(r, "timestamp") == Some(Num(now as real))
              && Get(r, "host") == Some(Str(host))
  {
    if LogMessageGuards.IsLogMessage(args) then
      var r := HostStamped(args, host);
      assert Get(r, "level") == Get(args, "level") && Get(r, "message") == Get(args, "message");
      assert Get(r, "timestamp") == Get(args, "timestamp");
      r
    else
      ServerRecord(level, message, args, now, host, serializeError)
  }

  /** `kept.map(process)`. */
  function MapRecords(kept: seq<LogMessage>, process: LogMessage -> Value): (r: seq<Value>)
    ensures |r| == |kept|
  {
    if kept == [] then [] else [process(kept[0])] + MapRecords(kept[1..], process)
  }

  /** The i-th result is `process` of the i-th message. */
  lemma {:induction false} MapRecordsPointwise(kept: seq<LogMessage>, process: LogMessage -> Value)
    ensures forall i :: 0 <= i < |kept| ==> MapRecords(kept, process)[i] == process(kept[i])
  {
    if kept != [] {
      MapRecordsPointwise(kept[1..], process);
      var r := MapRecords(kept, process);
      forall i | 1 <= i < |kept| ensures r[i] == process(kept[i]) {
        assert r[i] == MapRecords(kept[1..], process)[i - 1] && kept[i] == kept[1..][i - 1];
      }
    }
  }

  /** Mapping a concatenation maps each part. */
  lemma {:induction false} MapRecordsAppend(xs: seq<LogMessage>, ys: seq<LogMessage>, process: LogMessage -> Value)
    ensures MapRecords(xs + ys, process) == MapRecords(xs, process) + MapRecords(ys, process)
  {
    if xs == [] {
      assert xs + ys == ys;
    } else {
      assert (xs + ys)[0] == xs[0] && (xs + ys)[1..] == xs[1..] + ys;
      MapRecordsAppend(xs[1..], ys, process);
    }
  }

  /** `processMessage` of a record, with the clock reading, host and serialiser fixed. */
  function Processor(now: int, host: string, serializeError: Value -> Value): LogMessage -> Value {
    (msg: LogMessage) => ProcessMessage(msg.level, msg.message, msg.args, now, host, serializeError)
  }

  /**
   * `logMessages.filter(…).map(msg => processMessage(msg.level, msg.message, msg.args))`:
   * the records `bulk` adds.
   */
  function BulkRecords(logLevels: seq<LogLevel>, messages: seq<LogMessage>, now: int, host: string,
                       serializeError: Value -> Value): (r: seq<Value>)
    ensures |r| == |FilterByLevel(logLevels, messages)|
  {
    MapRecords(FilterByLevel(logLevels, messages), Processor(now, host, serializeError))
  }

  /**
   * The records `bulk` adds: one per allowed message, in input order, each
   * the processed message, each a log message.
   */
  lemma BulkRecordsMeaning(logLevels: seq<LogLevel>, messages: seq<LogMessage>, now: int, host: string,
                           serializeError: Value -> Value)
    ensures var r := BulkRecords(logLevels, messages, now, host, serializeError);
            var kept := FilterByLevel(logLevels, messages);
            |r| == |kept|
            && (forall i :: 0 <= i < |r| ==>
                  r[i] == ProcessMessage(kept[i].level, kept[i].message, kept[i].args, now, host, serializeError))
            && (forall i :: 0 <= i < |r| ==> LogMessageGuards.IsLogMessage(r[i]))
  {
    var kept := FilterByLevel(logLevels, messages);
    var r := BulkRecords(logLevels, messages, now, host, serializeError);
    MapRecordsPointwise(kept, Processor(now, host, serializeError));
    forall i | 0 <= i < |r|
      ensures r[i] == ProcessMessage(kept[i].level, kept[i].message, kept[i].args, now, host, serializeError)
      ensures LogMessageGuards.IsLogMessage(r[i])
    {
      assert r[i] == Processor(now, host, serializeError)(kept[i]);
    }
  }

  /** Only messages at allowed levels contribute, each exactly once and in order. */
  lemma BulkRecordsAppend(logLevels: seq<LogLevel>, xs: seq<LogMessage>, ys: seq<LogMessage>,
                          now: int, host: string, serializeError: Value -> Value)
    ensures BulkRecords(logLevels, xs + ys, now, host, serializeError)
         == BulkRecords(logLevels, xs, now, host, serializeError) + BulkRecords(logLevels, ys, now, host, serializeError)
  {
    FilterByLevelAppend(logLevels, xs, ys);
    MapRecordsAppend(FilterByLevel(logLevels, xs), FilterByLevel(logLevels, ys), Processor(now, host, serializeError));
  }

  class SupabaseAdapter {
    /** `logLevels`: the allow-list. */
    const logLevels: seq<LogLevel>
    const batchSize: int
    const idleTimeSec: int
    /** `os.hostname() || CONTAINER_ID`. */
    const host: string
    const serializeError: Value -> Value
    /** `this.client !== null`: `createClient` did not throw. */
    const hasClient: bool

    var logBuffer: seq<Value>
    /** `logsToSend` of the flush awaiting its insert; empty when none is. */
    var inFlight: seq<Value>
    var isSending: bool
    /** An idle timer is pending: it was set and has neither fired nor been cleared. */
    var idleArmed: bool
    /** The delay, in milliseconds, the idle timer was last armed with. */
    var idleDelayMs: int
    /** Calls to `fallbackLogger.error`, in order. */
    var fallback: seq<FallbackReport>
    /** Batches whose insert succeeded, in order. */
    var inserted: seq<seq<Value>>

    /** Every record ever added to the buffer, in order. */
    ghost var accepted: seq<Value>
    /** Records whose batch was inserted or dropped, in order. */
    ghost var settled: seq<Value>

    /**
     * No record is lost or reordered while it is pending: the settled
     * records, then the batch in flight, then the buffer, are exactly the
     * records accepted. A send is in progress exactly while a batch is in
     * flight, and every record is a log message.
     */
    ghost predicate Valid()
      reads this
    {
      settled + inFlight + logBuffer == accepted
      && (isSending <==> inFlight != [])
      && forall i :: 0 <= i < |accepted| ==> LogMessageGuards.IsLogMessage(accepted[i])
    }

    /** Appending log messages to both the buffer and the accepted records keeps `Valid`. */
    lemma AppendKeepsValid(records: seq<Value>)
      requires Valid()
      requires forall i :: 0 <= i < |records| ==> LogMessageGuards.IsLogMessage(records[i])
      ensures settled + inFlight + (logBuffer + records) == accepted + records
      ensures forall i :: 0 <= i < |accepted + records| ==> LogMessageGuards.IsLogMessage((accepted + records)[i])
    {
      assert settled + inFlight + (logBuffer + records) == (settled + inFlight + logBuffer) + records;
      forall i | 0 <= i < |accepted + records| ensures LogMessageGuards.IsLogMessage((accepted + records)[i]) {
        if i >= |accepted| {
          assert (accepted + records)[i] == records[i - |accepted|];
        }
      }
    }

    /**
     * The constructor; `clientError` is what `createClient` threw, if it
     * threw, and is reported to the fallback logger.
     */
    constructor (logLevels: seq<LogLevel>, batchSize: int, idleTimeSec: int, host: string,
                 serializeError: Value -> Value, clientError: Option<Value>)
      ensures Valid()
      ensures this.logLevels == logLevels && this.batchSize == batchSize && this.idleTimeSec == idleTimeSec
      ensures this.host == host && this.serializeError == serializeError
      ensures hasClient <==> clientError.None?
      ensures fallback == if clientError.Some? then [FallbackReport("Failed to create Supabase client:", clientError)] else []
      ensures logBuffer == [] && inFlight == [] && !isSending && !idleArmed && inserted == [] && accepted == []
    {
      this.logLevels := logLevels;
      this.batchSize := batchSize;
      this.idleTimeSec := idleTimeSec;
      this.host := host;
      this.serializeError := serializeError;
      hasClient := clientError.None?;
      logBuffer := [];
      inFlight := [];
      isSending := false;
      idleArmed := false;
      idleDelayMs := 0;
      fallback := if clientError.Some? then [FallbackReport("Failed to create Supabase client:", clientError)] else [];
      inserted := [];
      accepted := [];
      settled := [];
    }

    /** Nothing a flush touches has changed since the buffer was `buf`. */
    ghost predicate Kept(buf: seq<Value>, inFlight0: seq<Value>, sending0: bool, fallback0: seq<FallbackReport>)
      reads this
    {
      logBuffer == buf && inFlight == inFlight0 && isSending == sending0 && fallback == fallback0
    }

    /**
     * The state `flushLogs()` leaves at its await, started on the buffer
     * `buf` with `sending0`, `inFlight0` and `fallback0` as they were.
     * With a send in progress or nothing buffered nothing changes. With a
     * client the whole buffer is in flight. Without one it is dropped and
     * the failure is reported.
     */
    ghost predicate BeganFlush(buf: seq<Value>, inFlight0: seq<Value>, sending0: bool, fallback0: seq<FallbackReport>)
      reads this
    {
      if sending0 || buf == [] then Kept(buf, inFlight0, sending0, fallback0)
      else if hasClient then isSending && inFlight == buf && logBuffer == [] && fallback == fallback0
      else !isSending && inFlight == [] && logBuffer == [] && fallback == fallback0 + [NotInitialized]
    }

    /**
     * `flushLogs()` up to the awaited insert. With a send in progress or an
     * empty buffer it does nothing. Otherwise the whole buffer becomes the
     * batch in flight; without a client that batch is dropped at once, the
     * failure is reported and the send ends.
     */
    method BeginFlush()
      requires Valid()
      modifies this
      ensures Valid()
      ensures BeganFlush(old(logBuffer), old(inFlight), old(isSending), old(fallback))
      ensures !old(isSending) && old(logBuffer) != [] && !hasClient ==> settled == old(settled) + old(logBuffer)
      ensures old(isSending) || old(logBuffer) == [] ==> settled == old(settled)
      ensures accepted == old(accepted) && inserted == old(inserted)
      ensures idleArmed == old(idleArmed) && idleDelayMs == old(idleDelayMs)
    {
      if isSending || |logBuffer| == 0 {
        return;
      }
      isSending := true;
      inFlight := logBuffer;
      logBuffer := [];
      if !hasClient {
        fallback := fallback + [NotInitialized];
        settled := settled + inFlight;
        inFlight := [];
        isSending := false;
      }
    }

    /**
     * `flushLogs()` after the insert settles. A failed or rejected insert
     * puts the batch back in front of the buffer, ahead of records added
     * meanwhile, and reports the error. In every case the send ends.
     */
    method CompleteFlush(outcome: InsertOutcome)
      requires Valid() && isSending
      modifies this
      ensures Valid()
      ensures !isSending && inFlight == []
      ensures Succeeded(outcome) ==>
                inserted == old(inserted) + [old(inFlight)] && logBuffer == old(logBuffer) && fallback == old(fallback)
      ensures !Succeeded(outcome) ==>
                logBuffer == old(inFlight) + old(logBuffer) && inserted == old(inserted)
                && fallback == old(fallback) + [FallbackReport("Failed to send logs to Supabase:", Some(outcome.error))]
      ensures accepted == old(accepted) && idleArmed == old(idleArmed) && idleDelayMs == old(idleDelayMs)
    {
      match outcome {
        case Inserted =>
          inserted := inserted + [inFlight];
          settled := settled + inFlight;
        case InsertFailed(error) =>
          if Truthy(error) {
            logBuffer := inFlight + logBuffer;
            fallback := fallback + [FallbackReport("Failed to send logs to Supabase:", Some(error))];
          } else {
            inserted := inserted + [inFlight];
            settled := settled + inFlight;
          }
        case InsertThrew(error) =>
          logBuffer := inFlight + logBuffer;
          fallback := fallback + [FallbackReport("Failed to send logs to Supabase:", Some(error))];
      }
      isSending := false;
      inFlight := [];
    }

    /** `checkAndFlush()`: a flush starts only at the batch size and with no send in progress. */
    method CheckAndFlush()
      requires Valid()
      modifies this
      ensures Valid()
      ensures |old(logBuffer)| >= batchSize ==> BeganFlush(old(logBuffer), old(inFlight), old(isSending), old(fallback))
      ensures |old(logBuffer)| < batchSize ==> Kept(old(logBuffer), old(inFlight), old(isSending), old(fallback))
      ensures accepted == old(accepted) && inserted == old(inserted)
      ensures idleArmed == old(idleArmed) && idleDelayMs == old(idleDelayMs)
    {
      if |logBuffer| >= batchSize && !isSending {
        BeginFlush();
      }
    }

    /** `resetIdleTimer()`: the timer is (re)armed with the configured delay. */
    method ResetIdleTimer()
      modifies this
      ensures idleArmed && idleDelayMs == idleTimeSec * 1000
      ensures logBuffer == old(logBuffer) && inFlight == old(inFlight) && isSending == old(isSending)
      ensures fallback == old(fallback) && inserted == old(inserted)
      ensures accepted == old(accepted) && settled == old(settled)
    {
      idleArmed := true;
      idleDelayMs := idleTimeSec * 1000;
    }

    /**
     * The idle timer expires: it flushes only a non-empty buffer with no
     * send in progress, which is exactly when `flushLogs()` does anything.
     */
    method FireIdle()
      requires Valid() && idleArmed
      modifies this
      ensures Valid()
      ensures !idleArmed && idleDelayMs == old(idleDelayMs)
      ensures BeganFlush(old(logBuffer), old(inFlight), old(isSending), old(fallback))
      ensures accepted == old(accepted) && inserted == old(inserted)
    {
      idleArmed := false;
      if |logBuffer| > 0 && !isSending {
        BeginFlush();
      }
    }

    /** `addToBuffer(message)`: append, re-arm the idle timer, then check the size trigger. */
    method AddToBuffer(record: Value)
      requires Valid() && LogMessageGuards.IsLogMessage(record)
      modifies this
      ensures Valid()
      ensures accepted == old(accepted) + [record] && inserted == old(inserted)
      ensures idleArmed && idleDelayMs == idleTimeSec * 1000
      ensures |old(logBuffer)| + 1 >= batchSize ==>
                BeganFlush(old(logBuffer) + [record], old(inFlight), old(isSending), old(fallback))
      ensures |old(logBuffer)| + 1 < batchSize ==>
                Kept(old(logBuffer) + [record], old(inFlight), old(isSending), old(fallback))
    {
      logBuffer := logBuffer + [record];
      accepted := accepted + [record];
      ResetIdleTimer();
      CheckAndFlush();
    }

    /**
     * The severity methods `log`, `info`, `warn`, `error`, `debug` and
     * `trace`: each adds the processed record when its level is allowed
     * and otherwise changes nothing.
     */
    method Record(level: LogLevel, message: string, args: Value, now: int)
      requires Valid()
      modifies this
      ensures Valid()
      ensures var record := ProcessMessage(level, message, args, now, host, serializeError);
              Accepts(logLevels, level) ==>
                accepted == old(accepted) + [record] && inserted == old(inserted)
                && idleArmed && idleDelayMs == idleTimeSec * 1000
                && (|old(logBuffer)| + 1 >= batchSize ==>
                      BeganFlush(old(logBuffer) + [record], old(inFlight), old(isSending), old(fallback)))
                && (|old(logBuffer)| + 1 < batchSize ==>
                      Kept(old(logBuffer) + [record], old(inFlight), old(isSending), old(fallback)))
      ensures !Accepts(logLevels, level) ==>
                Kept(old(logBuffer), old(inFlight), old(isSending), old(fallback))
                && accepted == old(accepted) && inserted == old(inserted)
                && idleArmed == old(idleArmed) && idleDelayMs == old(idleDelayMs)
    {
      if level in logLevels {
        AddToBuffer(ProcessMessage(level, message, args, now, host, serializeError));
      }
    }

    /**
     * `bulk(logMessages)`: appends the processed records of the allowed
     * messages, in input order, then checks the size trigger. It does not
     * touch the idle timer.
     */
    method Bulk(messages: seq<LogMessage>, now: int)
      requires Valid()
      modifies this
      ensures Valid()
      ensures var records := BulkRecords(logLevels, messages, now, host, serializeError);
              accepted == old(accepted) + records && inserted == old(inserted)
              && idleArmed == old(idleArmed) && idleDelayMs == old(idleDelayMs)
              && (|old(logBuffer)| + |records| >= batchSize ==>
                    BeganFlush(old(logBuffer) + records, old(inFlight), old(isSending), old(fallback)))
              && (|old(logBuffer)| + |records| < batchSize ==>
                    Kept(old(logBuffer) + records, old(inFlight), old(isSending), old(fallback)))
    {
      var records := BulkRecords(logLevels, messages, now, host, serializeError);
      BulkRecordsMeaning(logLevels, messages, now, host, serializeError);
      AppendKeepsValid(records);
      logBuffer := logBuffer + records;
      accepted := accepted + records;
      CheckAndFlush();
    }

    /**
     * `dispose()`: flushes a non-empty buffer and clears the idle timer.
     * An empty buffer, or a send in progress, leaves the buffer as it is.
     */
    method Dispose()
      requires Valid()
      modifies this
      ensures Valid()
      ensures !idleArmed && idleDelayMs == old(idleDelayMs)
      ensures BeganFlush(old(logBuffer), old(inFlight), old(isSending), old(fallback))
      ensures accepted == old(accepted) && inserted == old(inserted)
    {
      if |logBuffer| > 0 {
        BeginFlush();
      }
      if idleArmed {
        idleArmed := false;
      }
    }
  }
}
