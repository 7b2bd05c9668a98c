/**
 * The console adapter of src/layers/Logging/adapters/ConsoleLoggerAdapter.ts.
 *
 * The adapter writes each allowed record to the console: with truthy
 * `args` as a collapsed group holding the args, otherwise as one line.
 * The console is a trace of calls, and the message formatter is a function
 * fixed at construction.
 */
module ConsoleLogging {
  import opened Json
  import opened LogTypes

  /** One call on the console object. */
  datatype ConsoleCall =
    | Emit(level: LogLevel, text: string, args: Option<Value>) // `console[level](text)` or `console[level](text, args)`
    | GroupCollapsed(title: string)                            // `console.groupCollapsed(title)`
    | GroupEnd                                                 // `console.groupEnd()`

  /** `groupWrapCollapsed(console[level], message, args)` once the message is formatted. */
  function Wrapped(level: LogLevel, formatted: string, args: Value): seq<ConsoleCall> {
    if Truthy(args) then [GroupCollapsed(formatted), Emit(level, "", Some(args)), GroupEnd]
    else [Emit(level, formatted, None)]
  }

  /** The calls `logSingle` makes for an allowed record. */
  function Rendered(m: LogMessage, formatMessage: (string, Value) -> string): seq<ConsoleCall> {
    Wrapped(m.level, formatMessage(m.message, m.args), m.args)
  }

  /** The calls for several records, one after the other. */
  function RenderedAll(ms: seq<LogMessage>, formatMessage: (string, Value) -> string): seq<ConsoleCall>
    decreases |ms|
  {
    if ms == [] then [] else RenderedAll(ms[..|ms| - 1], formatMessage) + Rendered(ms[|ms| - 1], formatMessage)
  }

  /** What `log(data)` writes: the allowed records of an array, or a single allowed record. */
  function Output(logLevels: seq<LogLevel>, data: LogInput, formatMessage: (string, Value) -> string): seq<ConsoleCall> {
    match data
    case Many(ms) => RenderedAll(FilterByLevel(logLevels, ms), formatMessage)
    case One(m) => if Accepts(logLevels, m.level) then Rendered(m, formatMessage) else []
  }

  /** Groups opened minus groups closed. */
  function GroupDepth(calls: seq<ConsoleCall>): int {
    if calls == [] then 0
    else (match calls[0] case GroupCollapsed(_) => 1 case GroupEnd => -1 case Emit(_, _, _) => 0) + GroupDepth(calls[1..])
  }

  /** No `groupEnd` without an open group, and every group closed at the end. */
  predicate Balanced(calls: seq<ConsoleCall>) {
    GroupDepth(calls) == 0 && forall n :: 0 <= n <= |calls| ==> GroupDepth(calls[..n]) >= 0
  }

  lemma {:induction false} GroupDepthAppend(a: seq<ConsoleCall>, b: seq<ConsoleCall>)
    ensures GroupDepth(a + b) == GroupDepth(a) + GroupDepth(b)
  {
    if a != [] {
      assert (a + b)[1..] == a[1..] + b;
      GroupDepthAppend(a[1..], b);
    } else {
      assert a + b == b;
    }
  }

  /** Writing one balanced sequence after another stays balanced. */
  lemma BalancedAppend(a: seq<ConsoleCall>, b: seq<ConsoleCall>)
    requires Balanced(a) && Balanced(b)
    ensures Balanced(a + b)
  {
    GroupDepthAppend(a, b);
    forall n | 0 <= n <= |a + b| ensures GroupDepth((a + b)[..n]) >= 0 {
      if n <= |a| {
        assert (a + b)[..n] == a[..n];
      } else {
        assert (a + b)[..n] == a + b[..n - |a|];
        GroupDepthAppend(a, b[..n - |a|]);
      }
    }
  }

  /**
   * One record: a collapsed group holding exactly one call at the record's
   * level with its args when `args` is truthy, otherwise one call with the
   * formatted message. Either way the groups are balanced.
   */
  lemma RenderedShape(m: LogMessage, formatMessage: (string, Value) -> string)
    ensures var calls := Rendered(m, formatMessage);
            Balanced(calls)
            && (forall c :: c in calls && c.Emit? ==> c.level == m.level)
            && (Truthy(m.args) ==> |calls| == 3 && calls[0] == GroupCollapsed(formatMessage(m.message, m.args))
                                   && calls[1] == Emit(m.level, "", Some(m.args)) && calls[2] == GroupEnd)
            && (!Truthy(m.args) ==> calls == [Emit(m.level, formatMessage(m.message, m.args), None)])
  {
    var calls := Rendered(m, formatMessage);
    if Truthy(m.args) {
      assert calls[..0] == [] && calls[..1] == [calls[0]] && calls[..2] == [calls[0], calls[1]] && calls[..3] == calls;
      assert GroupDepth(calls[2..]) == -1;
    } else {
      assert calls[..0] == [] && calls[..1] == calls;
    }
  }

  /**
   * Any number of records: the groups stay balanced, and every call is at
   * the level of one of the records, in their order.
   */
  lemma {:induction false} RenderedAllBalanced(ms: seq<LogMessage>, formatMessage: (string, Value) -> string)
    ensures Balanced(RenderedAll(ms, formatMessage))
    ensures forall c :: c in RenderedAll(ms, formatMessage) && c.Emit? ==> exists m :: m in ms && c.level == m.level
    decreases |ms|
  {
    if ms == [] {
      assert RenderedAll(ms, formatMessage)[..0] == [];
    } else {
      var init := ms[..|ms| - 1];
      var last := ms[|ms| - 1];
      RenderedAllBalanced(init, formatMessage);
      RenderedShape(last, formatMessage);
      BalancedAppend(RenderedAll(init, formatMessage), Rendered(last, formatMessage));
      forall c | c in RenderedAll(ms, formatMessage) && c.Emit? ensures exists m :: m in ms && c.level == m.level {
        if c in RenderedAll(init, formatMessage) {
          var m :| m in init && c.level == m.level;
          assert m in ms;
        } else {
          assert c in Rendered(last, formatMessage);
          assert last in ms;
        }
      }
    }
  }

  /**
   * Whatever `log` receives, the console calls it makes are balanced and
   * only at allowed levels; a disallowed single record makes none.
   */
  lemma OutputAllowedAndBalanced(logLevels: seq<LogLevel>, data: LogInput, formatMessage: (string, Value) -> string)
    ensures Balanced(Output(logLevels, data, formatMessage))
    ensures forall c :: c in Output(logLevels, data, formatMessage) && c.Emit? ==> Accepts(logLevels, c.level)
    ensures data.One? && !Accepts(logLevels, data.msg.level) ==> Output(logLevels, data, formatMessage) == []
  {
    match data {
      case Many(ms) =>
        RenderedAllBalanced(FilterByLevel(logLevels, ms), formatMessage);
      case One(m) =>
        if Accepts(logLevels, m.level) {
          RenderedShape(m, formatMessage);
        } else {
          assert Output(logLevels, data, formatMessage)[..0] == [];
        }
    }
  }

  /** Array input writes the allowed records exactly, in input order. */
  lemma {:induction false} ManyIsRecordByRecord(logLevels: seq<LogLevel>, xs: seq<LogMessage>, ys: seq<LogMessage>,
                                                formatMessage: (string, Value) -> string)
    ensures Output(logLevels, Many(xs + ys), formatMessage)
         == Output(logLevels, Many(xs), formatMessage) + Output(logLevels, Many(ys), formatMessage)
  {
    FilterByLevelAppend(logLevels, xs, ys);
    RenderedAllAppend(FilterByLevel(logLevels, xs), FilterByLevel(logLevels, ys), formatMessage);
  }

  lemma {:induction false} RenderedAllAppend(xs: seq<LogMessage>, ys: seq<LogMessage>, formatMessage: (string, Value) -> string)
    ensures RenderedAll(xs + ys, formatMessage) == RenderedAll(xs, formatMessage) + RenderedAll(ys, formatMessage)
    decreases |ys|
  {
    if ys == [] {
      assert xs + ys == xs;
    } else {
      assert (xs + ys)[..|xs + ys| - 1] == xs + ys[..|ys| - 1];
      RenderedAllAppend(xs, ys[..|ys| - 1], formatMessage);
    }
  }

  class ConsoleAdapter {
    const logLevels: seq<LogLevel>
    const formatMessage: (string, Value) -> string
    /** The calls made on the console, in order. */
    var calls: seq<ConsoleCall>

    constructor (logLevels: seq<LogLevel>, formatMessage: (string, Value) -> string)
      ensures this.logLevels == logLevels && this.formatMessage == formatMessage && calls == []
    {
      this.logLevels := logLevels;
      this.formatMessage := formatMessage;
      calls := [];
    }

    /**
     * `groupWrapCollapsed(console[level], message, args)`: formats the
     * message, then writes a collapsed group around `console[level]('', args)`
     * when `args` is truthy, or `console[level](formatted)` otherwise.
     */
    method GroupWrapCollapsed(level: LogLevel, message: string, args: Value)
      modifies this
      ensures calls == old(calls) + Wrapped(level, formatMessage(message, args), args)
    {
      var formatted := formatMessage(message, args);
      if Truthy(args) {
        calls := calls + [GroupCollapsed(formatted)];
        calls := calls + [Emit(level, "", Some(args))];
        calls := calls + [GroupEnd];
      } else {
        calls := calls + [Emit(level, formatted, None)];
      }
    }

    /** `logSingle(data)`: writes the record when its level is allowed. */
    method LogSingle(m: LogMessage)
      modifies this
      ensures calls == old(calls) + (if Accepts(logLevels, m.level) then Rendered(m, formatMessage) else [])
    {
      if m.level in logLevels {
        GroupWrapCollapsed(m.level, m.message, m.args);
      }
    }

    /** `filteredMessages.forEach(logSingle)`, over records the allow-list accepts. */
    method LogEach(ms: seq<LogMessage>)
      requires forall m :: m in ms ==> Accepts(logLevels, m.level)
      modifies this
      ensures calls == old(calls) + RenderedAll(ms, formatMessage)
    {
      var i := 0;
      while i < |ms|
        invariant 0 <= i <= |ms|
        invariant calls == old(calls) + RenderedAll(ms[..i], formatMessage)
      {
        assert ms[i] in ms;
        assert ms[..i + 1][..i] == ms[..i];
        LogSingle(ms[i]);
        i := i + 1;
      }
      assert ms[..i] == ms;
    }

    /** `log(data)`, for one record or an array of them. */
    method Log(data: LogInput)
      modifies this
      ensures calls == old(calls) + Output(logLevels, data, formatMessage)
    {
      match data {
        case Many(ms) =>
          var filtered := FilterByLevel(logLevels, ms);
          LogEach(filtered);
        case One(m) =>
          if m.level !in logLevels {
            return;
          }
          LogSingle(m);
      }
    }
  }
}
