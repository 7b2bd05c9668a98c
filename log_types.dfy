/**
 * Log levels, log records and the allow-list filter shared by every
 * adapter (`logLevels.includes(level)`).
 */
module LogTypes {
  import opened Json

  datatype LogLevel = Trace | Debug | Log | Info | Warn | Error

  datatype Source = Client | Server

  /** The level as its string literal, e.g. `'warn'`. */
  function LevelName(level: LogLevel): string {
    match level
    case Trace => "trace"
    case Debug => "debug"
    case Log => "log"
    case Info => "info"
    case Warn => "warn"
    case Error => "error"
  }

  function SourceName(source: Source): string {
    match source
    case Client => "client"
    case Server => "server"
  }

  /** A typed log record, as the console and worker adapters receive it. */
  datatype LogMessage = LogMessage(
    source: Source,
    level: LogLevel,
    message: string,
    args: Value,
    timestamp: int)

  /** What an adapter's `log` receives: one record or an array of them. */
  datatype LogInput = One(msg: LogMessage) | Many(msgs: seq<LogMessage>)

  /** `logLevels.includes(level)`. */
  predicate Accepts(logLevels: seq<LogLevel>, level: LogLevel) {
    level in logLevels
  }

  /** `messages.filter(msg => logLevels.includes(msg.level))`. */
  function FilterByLevel(logLevels: seq<LogLevel>, messages: seq<LogMessage>): (r: seq<LogMessage>)
    ensures |r| <= |messages|
    ensures forall m :: m in r <==> m in messages && Accepts(logLevels, m.level)
  {
    if messages == [] then []
    else if Accepts(logLevels, messages[0].level) then [messages[0]] + FilterByLevel(logLevels, messages[1..])
    else FilterByLevel(logLevels, messages[1..])
  }

  /** Filtering a concatenation filters each part and keeps their order. */
  lemma {:induction false} FilterByLevelAppend(logLevels: seq<LogLevel>, xs: seq<LogMessage>, ys: seq<LogMessage>)
    ensures FilterByLevel(logLevels, xs + ys) == FilterByLevel(logLevels, xs) + FilterByLevel(logLevels, ys)
  {
    if xs != [] {
      assert (xs + ys)[1..] == xs[1..] + ys;
      FilterByLevelAppend(logLevels, xs[1..], ys);
    } else {
      assert xs + ys == ys;
    }
  }

  /** A filter over every level keeps the input as it is. */
  lemma {:induction false} FilterByLevelAllLevels(logLevels: seq<LogLevel>, messages: seq<LogMessage>)
    requires forall m :: m in messages ==> Accepts(logLevels, m.level)
    ensures FilterByLevel(logLevels, messages) == messages
  {
    if messages != [] {
      FilterByLevelAllLevels(logLevels, messages[1..]);
    }
  }

  /** An empty allow-list accepts nothing: the adapter is effectively disabled. */
  lemma EmptyAllowListRejectsAll(messages: seq<LogMessage>)
    ensures FilterByLevel([], messages) == []
  {
  }
}
