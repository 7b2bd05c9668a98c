/**
 * The console message formatters of
 * src/layers/Logging/utils/serverFormatMessage.ts and
 * src/layers/Logging/utils/clientFormatMessage.ts.
 *
 * The terminal colouring (`chalk`) is the parameter `paint`, and
 * `getDateTimeString` is the parameter `dateTimeString`: it receives the
 * record's timestamp, or `None` where the current time is rendered.
 */
module MessageFormatting {
  import opened Json
  import opened Text

  /** The `chalk` styles the server formatter uses. */
  datatype Colour = White | BgBlue | BgGreen | BgGray | Gray | Green | Yellow | Red

  type Paint = (Colour, string) -> string
  type DateTimeString = Option<real> -> string

  /**
   * `getDateStr(args)`: the timestamp is used when args is an object with a
   * numeric `timestamp`; the current time in every other case, including a
   * `timestamp` that is present but not a number.
   */
  function GetDateStr(args: Value, dateTimeString: DateTimeString): (r: string)
    ensures (args.Obj? && exists n :: FieldOf(args.fields, "timestamp") == Some(Num(n)))
            ==> r == dateTimeString(Some(FieldOf(args.fields, "timestamp").value.n))
    ensures !(args.Obj? && exists n :: FieldOf(args.fields, "timestamp") == Some(Num(n)))
            ==> r == dateTimeString(None)
  {
    dateTimeString(GetNumber(args, "timestamp"))
  }

  /**
   * `getSourceStr(args)`: the `source` of an object whose `source` is a
   * string, `'unknown'` for anything else.
   */
  function GetSourceStr(args: Value): (r: string)
    ensures r == "unknown" || (args.Obj? && FieldOf(args.fields, "source") == Some(Str(r)))
    ensures args.Obj? && FieldOf(args.fields, "source").Some? && FieldOf(args.fields, "source").value.Str?
            ==> r == FieldOf(args.fields, "source").value.s
    ensures !args.Obj? || !HasKey(args, "source") ==> r == "unknown"
  {
    match GetString(args, "source")
    case Some(s) => s
    case None => "unknown"
  }

  /** `getLogLevel(args)`: the same for `level`. */
  function GetLogLevel(args: Value): (r: string)
    ensures r == "unknown" || (args.Obj? && FieldOf(args.fields, "level") == Some(Str(r)))
    ensures args.Obj? && FieldOf(args.fields, "level").Some? && FieldOf(args.fields, "level").value.Str?
            ==> r == FieldOf(args.fields, "level").value.s
    ensures !args.Obj? || !HasKey(args, "level") ==> r == "unknown"
  {
    match GetString(args, "level")
    case Some(s) => s
    case None => "unknown"
  }

  /** The source tag the first `switch` appends. */
  function SourceTag(source: string, paint: Paint): string {
    if source == "client" then " " + paint(BgBlue, Upper(source))
    else if source == "server" then " " + paint(BgGreen, Upper(source)) + ":"
    else " " + paint(BgGray, Upper(source)) + ":"
  }

  /** The colour of a level in the second `switch`. */
  function LevelColour(level: string): Colour {
    if level == "trace" then Gray
    else if level == "debug" then White
    else if level == "info" then Green
    else if level == "warn" then Yellow
    else if level == "error" then Red
    else Gray
  }

  /** The level tag the second `switch` appends. */
  function LevelTag(level: string, paint: Paint): string {
    " " + paint(LevelColour(level), Upper(level)) + ":"
  }

  /**
   * The source tag is a space and the painted upper-cased source; it ends
   * in `':'` for every source except `client`. Client, server and every
   * other source have their own background.
   */
  lemma SourceTagShape(source: string, paint: Paint)
    ensures StartsWith(SourceTag(source, paint), " ")
    ensures source == "client" ==> SourceTag(source, paint) == " " + paint(BgBlue, "CLIENT")
    ensures source == "server" ==> SourceTag(source, paint) == " " + paint(BgGreen, "SERVER") + ":"
    ensures source != "client" && source != "server" ==> SourceTag(source, paint) == " " + paint(BgGray, Upper(source)) + ":"
    ensures source != "client" ==> EndsWith(SourceTag(source, paint), ":")
  {
    if source == "client" {
      assert Upper(source) == "CLIENT";
    } else if source == "server" {
      assert Upper(source) == "SERVER";
    }
  }

  /**
   * Every level tag is a space-led tag ending in `':'`; `trace`, `log` and
   * any level the `switch` does not name fall back to gray.
   */
  lemma LevelTagShape(level: string, paint: Paint)
    ensures StartsWith(LevelTag(level, paint), " ") && EndsWith(LevelTag(level, paint), ":")
    ensures level == "trace" || level == "log" ==> LevelColour(level) == Gray
    ensures level !in {"trace", "debug", "info", "warn", "error"} ==> LevelColour(level) == Gray
  {
  }

  /** `serverFormatMessage(message, args)`, building the text by successive `+=`. */
  method ServerFormatMessage(message: string, args: Value, paint: Paint, dateTimeString: DateTimeString)
    returns (r: string)
    ensures r == "[" + paint(White, GetDateStr(args, dateTimeString)) + "]"
               + SourceTag(GetSourceStr(args), paint) + LevelTag(GetLogLevel(args), paint) + " " + message
  {
    // Each `+=` appends one template string, kept in parentheses.
    r := "";
    ghost var head := "[" + paint(White, GetDateStr(args, dateTimeString)) + "]";
    r := r + ("[" + paint(White, GetDateStr(args, dateTimeString)) + "]");
    assert r == head;
    var source := GetSourceStr(args);
    if source == "client" {
      r := r + (" " + paint(BgBlue, Upper(source)));
    } else if source == "server" {
      r := r + (" " + paint(BgGreen, Upper(source)) + ":");
    } else {
      r := r + (" " + paint(BgGray, Upper(source)) + ":");
    }
    ghost var sourceTag := SourceTag(source, paint);
    assert r == head + sourceTag;
    var level := GetLogLevel(args);
    var colour: Colour;
    if level == "trace" {
      colour := Gray;
    } else if level == "debug" {
      colour := White;
    } else if level == "info" {
      colour := Green;
    } else if level == "warn" {
      colour := Yellow;
    } else if level == "error" {
      colour := Red;
    } else {
      colour := Gray;
    }
    r := r + (" " + paint(colour, Upper(level)) + ":");
    ghost var levelTag := LevelTag(level, paint);
    assert r == head + sourceTag + levelTag;
    r := r + (" " + message);
  }

  /**
   * The server line opens with the bracketed painted date and closes with
   * a space and the message. A record without a source or level object
   * shows `UNKNOWN` for both.
   */
  lemma {:induction false} ServerLineFrame(message: string, args: Value, paint: Paint, dateTimeString: DateTimeString)
    ensures var line := "[" + paint(White, GetDateStr(args, dateTimeString)) + "]"
                        + SourceTag(GetSourceStr(args), paint) + LevelTag(GetLogLevel(args), paint) + " " + message;
            StartsWith(line, "[" + paint(White, GetDateStr(args, dateTimeString)) + "]")
            && EndsWith(line, " " + message)
    ensures !args.Obj? ==> SourceTag(GetSourceStr(args), paint) == " " + paint(BgGray, "UNKNOWN") + ":"
                           && LevelTag(GetLogLevel(args), paint) == " " + paint(Gray, "UNKNOWN") + ":"
  {
    var head := "[" + paint(White, GetDateStr(args, dateTimeString)) + "]";
    var tail := " " + message;
    var mid := SourceTag(GetSourceStr(args), paint) + LevelTag(GetLogLevel(args), paint);
    var line := head + SourceTag(GetSourceStr(args), paint) + LevelTag(GetLogLevel(args), paint) + " " + message;
    assert line == head + mid + tail;
    assert line[..|head|] == head;
    assert line[|line| - |tail|..] == tail;
    if !args.Obj? {
      assert Upper("unknown") == "UNKNOWN";
    }
  }

  /** `clientFormatMessage(message, args)`. */
  function ClientFormatMessage(message: string, args: Value, dateTimeString: DateTimeString): (r: string)
    ensures StartsWith(r, "[" + GetDateStr(args, dateTimeString) + "] ")
    ensures EndsWith(r, message)
    ensures |r| == |GetDateStr(args, dateTimeString)| + 3 + |message|
  {
    var dateStr := GetDateStr(args, dateTimeString);
    var r := "[" + dateStr + "] " + message;
    assert r[..|dateStr| + 3] == "[" + dateStr + "] ";
    assert r[|r| - |message|..] == message;
    r
  }

  /** The client line determines the message: stripping the date prefix gives it back. */
  lemma ClientMessageRecoverable(message: string, args: Value, dateTimeString: DateTimeString)
    ensures ClientFormatMessage(message, args, dateTimeString)[|GetDateStr(args, dateTimeString)| + 3..] == message
  {
    var r := ClientFormatMessage(message, args, dateTimeString);
    assert r[|GetDateStr(args, dateTimeString)| + 3..] == r[|r| - |message|..];
  }
}
