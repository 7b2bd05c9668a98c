/**
 * The formatter pipeline of src/layers/Logging/utils/format.ts and the
 * formatter of src/layers/Logging/formatters/LogSourceFormatter.ts.
 *
 * A formatter takes a message and its args and returns a new message and
 * args. `format` threads a message through a list of formatters in order.
 */
module Formatting {
  import opened Json
  import opened Text

  /** `{ message, args }`. */
  datatype Formatted = Formatted(message: string, args: seq<Value>)

  /** `LoggerFormatter.format(message, ...args)`. */
  type Formatter = Formatted -> Formatted

  /** The formatters applied left to right, each to the previous one's output. */
  function Fold(fs: seq<Formatter>, x: Formatted): Formatted
    decreases |fs|
  {
    if fs == [] then x else Fold(fs[1..], fs[0](x))
  }

  /** Formatting with `fs1 + fs2` is formatting with `fs2` what `fs1` produced. */
  lemma {:induction false} FoldConcat(fs1: seq<Formatter>, fs2: seq<Formatter>, x: Formatted)
    ensures Fold(fs1 + fs2, x) == Fold(fs2, Fold(fs1, x))
    decreases |fs1|
  {
    if fs1 == [] {
      assert fs1 + fs2 == fs2;
    } else {
      assert (fs1 + fs2)[1..] == fs1[1..] + fs2;
      FoldConcat(fs1[1..], fs2, fs1[0](x));
    }
  }

  /**
   * With no formatters the message and args come back unchanged; otherwise
   * the result is what the last formatter returns on the output of the others.
   */
  lemma FoldLast(fs: seq<Formatter>, x: Formatted)
    ensures fs == [] ==> Fold(fs, x) == x
    ensures fs != [] ==> Fold(fs, x) == fs[|fs| - 1](Fold(fs[..|fs| - 1], x))
  {
    if fs != [] {
      var init := fs[..|fs| - 1];
      assert fs == init + [fs[|fs| - 1]];
      FoldConcat(init, [fs[|fs| - 1]], x);
    }
  }

  /** `format(formatters, message, ...args)`: the `forEach` that reassigns the message and args. */
  method Format(formatters: seq<Formatter>, message: string, args: seq<Value>) returns (r: Formatted)
    ensures r == Fold(formatters, Formatted(message, args))
  {
    var messageFormatted := message;
    var paramsFormatted := args;
    var i := 0;
    while i < |formatters|
      invariant 0 <= i <= |formatters|
      invariant Fold(formatters, Formatted(message, args))
             == Fold(formatters[i..], Formatted(messageFormatted, paramsFormatted))
    {
      var formatted := formatters[i](Formatted(messageFormatted, paramsFormatted));
      assert formatters[i..][1..] == formatters[i + 1..];
      messageFormatted := formatted.message;
      paramsFormatted := formatted.args;
      i := i + 1;
    }
    r := Formatted(messageFormatted, paramsFormatted);
  }

  /** The tag `LogSourceFormatter` puts in front, depending on which side runs it. */
  function SourceLabel(isClient: bool): string {
    if isClient then "CLIENT" else "SERVER"
  }

  /**
   * `LogSourceFormatter.format(message, ...args)`; `isClient` is the
   * result of `isClient()`.
   */
  function LogSource(isClient: bool, x: Formatted): (r: Formatted)
    ensures r.args == x.args
    ensures |r.message| == |x.message| + 8
    ensures StartsWith(r.message, if isClient then "CLIENT: " else "SERVER: ")
    ensures EndsWith(r.message, x.message)
  {
    Formatted(SourceLabel(isClient) + ": " + x.message, x.args)
  }

  /** The formatter as an element of a formatter list. */
  function LogSourceFormatter(isClient: bool): Formatter {
    x => LogSource(isClient, x)
  }

  /** The original message can be read back from the formatted one, so distinct messages stay distinct. */
  lemma LogSourceInverse(isClient: bool, x: Formatted, y: Formatted)
    ensures LogSource(isClient, x).message[8..] == x.message
    ensures LogSource(isClient, x) == LogSource(isClient, y) ==> x == y
  {
    var r := LogSource(isClient, x);
    assert r.message[8..] == r.message[|r.message| - |x.message|..];
    if r == LogSource(isClient, y) {
      var s := LogSource(isClient, y);
      assert s.message[8..] == s.message[|s.message| - |y.message|..];
    }
  }

  /**
   * A pipeline ending with `LogSourceFormatter` yields the previous
   * formatters' message behind the source tag, with their args.
   */
  lemma PipelineEndingWithLogSource(fs: seq<Formatter>, isClient: bool, x: Formatted)
    ensures var r := Fold(fs + [LogSourceFormatter(isClient)], x);
            r.args == Fold(fs, x).args
            && r.message == (if isClient then "CLIENT: " else "SERVER: ") + Fold(fs, x).message
  {
    FoldConcat(fs, [LogSourceFormatter(isClient)], x);
    var y := Fold(fs, x);
    assert Fold([LogSourceFormatter(isClient)], y) == Fold([], LogSource(isClient, y));
  }
}
