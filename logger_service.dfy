/**
 * The logger facade of src/layers/Logging/services/DefaultLoggerService.ts:
 * every call is forwarded to each registered adapter in registry order.
 * Adapters are values of a type parameter `A`; the callbacks handed to
 * `group` and `assert` are values of a type parameter `F`. The forwarded
 * calls are recorded in the trace `calls`.
 *
 * The `forEach` has no `try`/`catch`: an adapter whose call throws ends
 * the loop, later adapters never get the call, and the exception reaches
 * the caller. Which adapter calls throw is the parameter `throws`, and
 * each forwarding method returns `raised` for the propagated exception.
 */
module LoggerService {
  import opened Json
  import opened LogTypes

  /** A call made on one adapter. */
  datatype AdapterCall<F> =
    | SeverityCall(level: LogLevel, message: string, args: seq<Value>) // `adapter[level](message, ...args)`
    | GroupCall(name: string, fn: F, collapsed: bool)                  // `adapter.group(name, fn, collapsed)`
    | AssertCall(condition: bool, fn: F)                               // `adapter.assert(condition, fn)`

  /** `adapters.forEach(adapter => adapter.<call>)`: the same call on each adapter, in order. */
  function FanOut<A, F>(adapters: seq<A>, call: AdapterCall<F>): seq<(A, AdapterCall<F>)>
    decreases |adapters|
  {
    if adapters == [] then [] else FanOut(adapters[..|adapters| - 1], call) + [(adapters[|adapters| - 1], call)]
  }

  /** One entry per adapter, the i-th going to the i-th adapter, all carrying the same call. */
  lemma {:induction false} FanOutReachesEachAdapter<A, F>(adapters: seq<A>, call: AdapterCall<F>)
    ensures |FanOut(adapters, call)| == |adapters|
    ensures forall i :: 0 <= i < |adapters| ==> FanOut(adapters, call)[i] == (adapters[i], call)
    decreases |adapters|
  {
    if adapters != [] {
      FanOutReachesEachAdapter(adapters[..|adapters| - 1], call);
    }
  }

  /** The first adapter, at index `i` or later, whose call throws. */
  function FirstThrowerFrom<A>(adapters: seq<A>, throws: A -> bool, i: nat): (r: Option<nat>)
    ensures r.Some? ==> i <= r.value < |adapters| && throws(adapters[r.value])
                        && forall j :: i <= j < r.value ==> !throws(adapters[j])
    ensures r.None? ==> forall j :: i <= j < |adapters| ==> !throws(adapters[j])
    decreases |adapters| - i
  {
    if i >= |adapters| then None
    else if throws(adapters[i]) then Some(i)
    else FirstThrowerFrom(adapters, throws, i + 1)
  }

  /** How many adapters get the call: all of them, or up to and including the first that throws. */
  function Reached<A>(adapters: seq<A>, throws: A -> bool): (n: nat)
    ensures n <= |adapters|
  {
    match FirstThrowerFrom(adapters, throws, 0)
    case Some(k) => k + 1
    case None => |adapters|
  }

  /** When no adapter throws, every adapter gets the call. */
  lemma NoThrowReachesAll<A>(adapters: seq<A>, throws: A -> bool)
    requires forall i :: 0 <= i < |adapters| ==> !throws(adapters[i])
    ensures Reached(adapters, throws) == |adapters|
  {
  }

  /** No adapter after one that throws gets the call: there is no per-adapter isolation. */
  lemma ThrowStopsFanOut<A>(adapters: seq<A>, throws: A -> bool, k: nat)
    requires k < |adapters| && throws(adapters[k])
    ensures Reached(adapters, throws) <= k + 1
    ensures FirstThrowerFrom(adapters, throws, 0).Some?
  {
  }

  /**
   * Three adapters, the second of which throws: the third never gets the
   * call, and the exception propagates.
   */
  lemma FanOutStopsAtThrower<F>(call: AdapterCall<F>)
    ensures var adapters := [1, 2, 3];
            var throws := (a: int) => a == 2;
            FirstThrowerFrom(adapters, throws, 0) == Some(1)
            && Reached(adapters, throws) == 2
            && forall e :: e in FanOut(adapters[..Reached(adapters, throws)], call) ==> e.0 != 3
  {
    var adapters := [1, 2, 3];
    var throws := (a: int) => a == 2;
    assert FirstThrowerFrom(adapters, throws, 1) == Some(1);
    assert adapters[..2] == [1, 2];
    FanOutReachesEachAdapter(adapters[..2], call);
  }

  class DefaultLoggerService<A, F> {
    /** The adapters, fixed at construction. */
    const adapters: seq<A>
    /** Calls forwarded to adapters, in order. */
    var calls: seq<(A, AdapterCall<F>)>

    constructor (adapters: seq<A>)
      ensures this.adapters == adapters && calls == []
    {
      this.adapters := adapters;
      calls := [];
    }

    /**
     * The `forEach` over the adapters: each adapter in order gets the call,
     * until one throws; `raised` tells whether an exception propagated.
     */
    method Broadcast(call: AdapterCall<F>, throws: A -> bool) returns (raised: bool)
      modifies this
      ensures raised == FirstThrowerFrom(adapters, throws, 0).Some?
      ensures calls == old(calls) + FanOut(adapters[..Reached(adapters, throws)], call)
    {
      var i := 0;
      raised := false;
      while i < |adapters| && !raised
        invariant 0 <= i <= |adapters|
        invariant calls == old(calls) + FanOut(adapters[..i], call)
        invariant !raised ==> FirstThrowerFrom(adapters, throws, 0) == FirstThrowerFrom(adapters, throws, i)
        invariant raised ==> i > 0 && FirstThrowerFrom(adapters, throws, 0) == Some(i - 1)
      {
        assert adapters[..i + 1][..i] == adapters[..i];
        calls := calls + [(adapters[i], call)];
        raised := throws(adapters[i]);
        i := i + 1;
      }
    }

    /**
     * The fan-out with each adapter call in its own `try`/`catch`: every
     * adapter gets the call whatever the others do, and nothing propagates.
     */
    method BroadcastIsolated(call: AdapterCall<F>, throws: A -> bool) returns (raised: bool)
      modifies this
      ensures !raised
      ensures calls == old(calls) + FanOut(adapters, call)
    {
      var i := 0;
      raised := false;
      while i < |adapters|
        invariant 0 <= i <= |adapters|
        invariant calls == old(calls) + FanOut(adapters[..i], call)
      {
        assert adapters[..i + 1][..i] == adapters[..i];
        calls := calls + [(adapters[i], call)];
        if throws(adapters[i]) {
          // The exception is caught here and the loop goes on.
        }
        i := i + 1;
      }
      assert adapters[..i] == adapters;
    }

    /** `assert(condition, fn)`. */
    method Assert(condition: bool, fn: F, throws: A -> bool) returns (raised: bool)
      modifies this
      ensures raised == FirstThrowerFrom(adapters, throws, 0).Some?
      ensures calls == old(calls) + FanOut(adapters[..Reached(adapters, throws)], AssertCall(condition, fn))
    {
      raised := Broadcast(AssertCall(condition, fn), throws);
    }

    /** `group(name, fn, collapsed = true)`. */
    method Group(name: string, fn: F, throws: A -> bool, collapsed: bool := true) returns (raised: bool)
      modifies this
      ensures raised == FirstThrowerFrom(adapters, throws, 0).Some?
      ensures calls == old(calls) + FanOut(adapters[..Reached(adapters, throws)], GroupCall(name, fn, collapsed))
    {
      raised := Broadcast(GroupCall(name, fn, collapsed), throws);
    }

    /** `log`, `error`, `warn`, `info`, `debug` and `trace`: the same-named call on every adapter. */
    method Log(level: LogLevel, message: string, args: seq<Value>, throws: A -> bool) returns (raised: bool)
      modifies this
      ensures raised == FirstThrowerFrom(adapters, throws, 0).Some?
      ensures calls == old(calls) + FanOut(adapters[..Reached(adapters, throws)], SeverityCall(level, message, args))
    {
      raised := Broadcast(SeverityCall(level, message, args), throws);
    }

    /** `getAdapters()`: the list given at construction. */
    method GetAdapters() returns (r: seq<A>)
      ensures r == adapters
    {
      r := adapters;
    }
  }
}
