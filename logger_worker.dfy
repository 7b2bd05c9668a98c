/**
 * The browser logging worker of src/workers/LoggerWorker/index.ts.
 *
 * The worker keeps a batch of records and posts it to the page either when
 * it reaches the batch size or when an idle timer fires. The module-level
 * variables become the fields of one `Worker` object. The pending
 * `setTimeout` is the flag `idleArmed` (with the delay it was armed with),
 * and its expiry is the explicit event `FireIdle`. `postMessage` appends
 * to the trace `posted`, and `close()` sets `closed`.
 */
module LoggerWorker {
  import opened Json
  import LogMessageGuards

  /** A message event, told apart by the `type` its data carries. */
  datatype WorkerEvent =
    | Untyped                              // no `type`, or a falsy one
    | Dispose                              // `{ type: 'dispose' }`
    | Init(batchSize: int, idleTime: int)  // `{ type: 'init', batchSize, idleTime }`
    | LogData(data: Value)                 // `{ type: 'log', data }`
    | OtherType(typeName: string)          // `'info'`, `'warn'`, … : not handled

  /** The record a message without a `type` is reported as; `now` is `Date.now()`. */
  function MissingTypeRecord(now: int): (r: Value)
    ensures LogMessageGuards.IsClientLogMessage(r)
    ensures Get(r, "level") == Some(Str("error"))
    ensures Get(r, "message") == Some(Str("Logger worker missing type parameter"))
    ensures GetNumber(r, "timestamp") == Some(now as real)
  {
    var fields := [("source", Str("client")),
                   ("level", Str("error")),
                   ("message", Str("Logger worker missing type parameter")),
                   ("timestamp", Num(now as real))];
    assert fields[1].0 == "level" && fields[2].0 == "message" && fields[3].0 == "timestamp";
    Obj(fields)
  }

  /**
   * The records an event adds to the batch, in the order they are added:
   * the error record for an untyped message, each element of an array
   * `data`, or a non-array `data` itself. Other events add nothing.
   */
  function EventRecords(event: WorkerEvent, now: int): seq<Value> {
    match event
    case Untyped => [MissingTypeRecord(now)]
    case LogData(data) => if data.Arr? then data.items else [data]
    case _ => []
  }

  /** All posted batches, one after the other. */
  function Concat(batches: seq<seq<Value>>): seq<Value> {
    if batches == [] then [] else batches[0] + Concat(batches[1..])
  }

  /** Posting one more batch extends the concatenation by exactly that batch. */
  lemma {:induction false} ConcatSnoc(batches: seq<seq<Value>>, b: seq<Value>)
    ensures Concat(batches + [b]) == Concat(batches) + b
  {
    if batches != [] {
      assert (batches + [b])[1..] == batches[1..] + [b];
      ConcatSnoc(batches[1..], b);
    } else {
      assert [b][1..] == [];
    }
  }

  /**
   * The batches posted and the batch left after adding `items` one by one to
   * the pending `batch`, as `addLogToBatch` does: each record is appended,
   * and a batch that reaches `size` is posted whole.
   */
  function Batched(batch: seq<Value>, items: seq<Value>, size: int): (seq<seq<Value>>, seq<Value>)
    decreases |items|
  {
    if items == [] then ([], batch)
    else
      var prev := Batched(batch, items[..|items| - 1], size);
      var grown := prev.1 + [items[|items| - 1]];
      if |grown| >= size then (prev.0 + [grown], []) else (prev.0, grown)
  }

  /** Adding one more record takes one more `addLogToBatch` step. */
  lemma BatchedSnoc(batch: seq<Value>, items: seq<Value>, x: Value, size: int)
    ensures var prev := Batched(batch, items, size);
            var grown := prev.1 + [x];
            Batched(batch, items + [x], size) ==
              if |grown| >= size then (prev.0 + [grown], []) else (prev.0, grown)
  {
    assert (items + [x])[..|items|] == items;
  }

  /** One record: posted together with the batch at the size, otherwise buffered. */
  lemma BatchedOne(batch: seq<Value>, x: Value, size: int)
    ensures Batched(batch, [x], size) ==
              if |batch| + 1 >= size then ([batch + [x]], []) else ([], batch + [x])
  {
    var none: seq<Value> := [];
    assert Batched(batch, none, size) == ([], batch);
    BatchedSnoc(batch, none, x, size);
    assert none + [x] == [x];
    var grown := batch + [x];
    if |grown| >= size {
      var noPosts: seq<seq<Value>> := [];
      assert noPosts + [grown] == [grown];
    } else {
      assert Batched(batch, [x], size) == ([], grown);
    }
  }

  /**
   * No record is lost, duplicated or reordered: the new posts, then the
   * batch left, are the old batch followed by the added records.
   */
  lemma {:induction false} BatchedFifo(batch: seq<Value>, items: seq<Value>, size: int)
    ensures Concat(Batched(batch, items, size).0) + Batched(batch, items, size).1 == batch + items
    decreases |items|
  {
    if items != [] {
      var front := items[..|items| - 1];
      var x := items[|items| - 1];
      assert items == front + [x];
      var prev := Batched(batch, front, size);
      var grown := prev.1 + [x];
      BatchedFifo(batch, front, size);
      BatchedSnoc(batch, front, x, size);
      if |grown| >= size {
        ConcatSnoc(prev.0, grown);
        assert Concat(prev.0 + [grown]) + [] == Concat(prev.0) + prev.1 + [x];
      } else {
        assert Concat(prev.0) + grown == Concat(prev.0) + prev.1 + [x];
      }
    } else {
      assert Batched(batch, items, size) == ([], batch);
    }
  }

  /**
   * Every new post is non-empty and holds at least `size` records, and one
   * started below the size holds exactly `size`. Once something was added,
   * the batch left is below the size.
   */
  lemma {:induction false} BatchedShape(batch: seq<Value>, items: seq<Value>, size: int)
    ensures var (posts, left) := Batched(batch, items, size);
            (forall p :: p in posts ==> p != [] && |p| >= size)
            && (|batch| < size ==> forall p :: p in posts ==> |p| == size)
            && (items != [] ==> left == [] || |left| < size)
            && (items == [] ==> posts == [] && left == batch)
    decreases |items|
  {
    if items != [] {
      var front := items[..|items| - 1];
      BatchedShape(batch, front, size);
    }
  }

  class Worker {
    /** `logBatch`. */
    var batch: seq<Value>
    /** `idleTimer !== null`. */
    var idleArmed: bool
    /** The delay, in milliseconds, the idle timer was last armed with. */
    var idleDelayMs: int
    /** `logToServerBatchSize`. */
    var batchSize: int
    /** `logToServerIdleTimeSec`. */
    var idleTimeSec: int
    /** Every `postMessage(logBatch)`, in order. */
    var posted: seq<seq<Value>>
    /** `close()` was called. */
    var closed: bool
    /** Every record ever added, in order. */
    ghost var added: seq<Value>

    /** FIFO: the posted batches, then the current one, are exactly the records added. No empty batch is posted. */
    ghost predicate Fifo()
      reads this
    {
      Concat(posted) + batch == added && forall i :: 0 <= i < |posted| ==> posted[i] != []
    }

    /** FIFO, and an idle timer is pending exactly while the batch is non-empty. */
    ghost predicate Valid()
      reads this
    {
      Fifo() && (idleArmed <==> batch != [])
    }

    /** The worker as it starts: empty batch, no timer, batches of 10, 5 idle seconds. */
    constructor ()
      ensures Valid()
      ensures batch == [] && posted == [] && added == [] && !idleArmed && !closed
      ensures batchSize == 10 && idleTimeSec == 5
    {
      batch := [];
      idleArmed := false;
      idleDelayMs := 0;
      batchSize := 10;
      idleTimeSec := 5;
      posted := [];
      closed := false;
      added := [];
    }

    /** `sendBatch()`: posts a non-empty batch and empties it; always clears the timer. */
    method SendBatch()
      requires Fifo()
      modifies this
      ensures Valid()
      ensures posted == old(posted) + (if old(batch) == [] then [] else [old(batch)])
      ensures batch == [] && !idleArmed
      ensures added == old(added) && closed == old(closed)
      ensures batchSize == old(batchSize) && idleTimeSec == old(idleTimeSec) && idleDelayMs == old(idleDelayMs)
    {
      if |batch| > 0 {
        ConcatSnoc(posted, batch);
        posted := posted + [batch];
        batch := [];
      }
      if idleArmed {
        idleArmed := false;
      }
    }

    /**
     * `addLogToBatch(logData)`: appends the record; a batch that reaches the
     * batch size is posted whole, otherwise the idle timer is re-armed.
     */
    method AddLogToBatch(logData: Value)
      requires Valid()
      modifies this
      ensures Valid()
      ensures added == old(added) + [logData]
      ensures |old(batch)| + 1 >= batchSize ==>
                posted == old(posted) + [old(batch) + [logData]] && batch == [] && !idleArmed
      ensures |old(batch)| + 1 < batchSize ==>
                posted == old(posted) && batch == old(batch) + [logData]
                && idleArmed && idleDelayMs == idleTimeSec * 1000
      ensures batch == [] || |batch| < batchSize
      ensures AddedFrom(old(posted), old(batch), [logData])
      ensures batchSize == old(batchSize) && idleTimeSec == old(idleTimeSec) && closed == old(closed)
    {
      BatchedOne(batch, logData, batchSize);
      batch := batch + [logData];
      added := added + [logData];
      if |batch| >= batchSize {
        SendBatch();
        return;
      }
      idleArmed := true;
      idleDelayMs := idleTimeSec * 1000;
    }

    /**
     * The batches already posted are `before`, followed by the posts of
     * adding `done` to the batch `start`; the batch is what that leaves.
     */
    ghost predicate AddedFrom(before: seq<seq<Value>>, start: seq<Value>, done: seq<Value>)
      reads this
    {
      posted == before + Batched(start, done, batchSize).0 && batch == Batched(start, done, batchSize).1
    }

    /**
     * After a record is added, a non-empty batch is below the batch size and
     * its idle timer was armed with the configured delay.
     */
    ghost predicate Settled()
      reads this
    {
      (batch == [] || |batch| < batchSize) && (batch != [] ==> idleDelayMs == idleTimeSec * 1000)
    }

    /**
     * One `addLogToBatch` of the `forEach`: having added `done` to the batch
     * `start` on top of the posts `before`, it adds `x` as well.
     */
    method AddNext(ghost before: seq<seq<Value>>, ghost start: seq<Value>, ghost done: seq<Value>, x: Value)
      requires Valid() && AddedFrom(before, start, done)
      modifies this
      ensures Valid() && AddedFrom(before, start, done + [x]) && Settled()
      ensures added == old(added) + [x]
      ensures batchSize == old(batchSize) && idleTimeSec == old(idleTimeSec) && closed == old(closed)
    {
      BatchedSnoc(start, done, x, batchSize);
      AddLogToBatch(x);
    }

    /**
     * `data.forEach(logMessage => addLogToBatch(logMessage))`: the batches
     * already posted stay, and the new posts and the batch left are those
     * of `Batched`. The timer was last armed by the final record when that
     * record stayed in the batch.
     */
    method AddAll(items: seq<Value>)
      requires Valid()
      modifies this
      ensures Valid()
      ensures added == old(added) + items
      ensures AddedFrom(old(posted), old(batch), items)
      ensures items != [] ==> Settled()
      ensures items == [] ==> idleArmed == old(idleArmed) && idleDelayMs == old(idleDelayMs)
      ensures batchSize == old(batchSize) && idleTimeSec == old(idleTimeSec) && closed == old(closed)
    {
      ghost var before := posted;
      ghost var start := batch;
      assert Batched(start, items[..0], batchSize) == ([], start);
      var i := 0;
      while i < |items|
        invariant 0 <= i <= |items|
        invariant Valid() && AddedFrom(before, start, items[..i])
        invariant added == old(added) + items[..i]
        invariant batchSize == old(batchSize) && idleTimeSec == old(idleTimeSec) && closed == old(closed)
        invariant i > 0 ==> Settled()
        invariant i == 0 ==> idleArmed == old(idleArmed) && idleDelayMs == old(idleDelayMs)
      {
        AddNext(before, start, items[..i], items[i]);
        assert items[..i + 1] == items[..i] + [items[i]];
        assert added == old(added) + items[..i + 1];
        i := i + 1;
      }
      assert items[..i] == items;
    }

    /**
     * The untyped and `log` branches of `onmessage`: the event's records go
     * through `addLogToBatch` one by one.
     */
    method AddEventRecords(event: WorkerEvent, now: int)
      requires Valid() && (event.Untyped? || event.LogData?)
      modifies this
      ensures Valid()
      ensures added == old(added) + EventRecords(event, now)
      ensures AddedFrom(old(posted), old(batch), EventRecords(event, now))
      ensures EventRecords(event, now) != [] ==> Settled() && (batch != [] ==> idleArmed)
      ensures batchSize == old(batchSize) && idleTimeSec == old(idleTimeSec) && closed == old(closed)
    {
      match event {
        case Untyped =>
          AddLogToBatch(MissingTypeRecord(now));
        case LogData(data) =>
          if data.Arr? {
            AddAll(data.items);
          } else {
            AddLogToBatch(data);
          }
      }
    }

    /** The idle timer expires: `sendBatch()` runs. */
    method FireIdle()
      requires Valid() && idleArmed
      modifies this
      ensures Valid()
      ensures posted == old(posted) + [old(batch)] && batch == [] && !idleArmed
      ensures added == old(added) && closed == old(closed)
      ensures batchSize == old(batchSize) && idleTimeSec == old(idleTimeSec)
    {
      SendBatch();
    }

    /**
     * `onmessage(event)`; `now` is the `Date.now()` reading used for the
     * record of an untyped message. A closed worker receives no more events.
     */
    method HandleMessage(event: WorkerEvent, now: int)
      requires Valid() && !closed
      modifies this
      ensures Valid()
      ensures added == old(added) + EventRecords(event, now)
      ensures !event.Dispose? ==> AddedFrom(old(posted), old(batch), EventRecords(event, now))
      ensures EventRecords(event, now) != [] ==> Settled() && (batch != [] ==> idleArmed)
      ensures event.Dispose? ==>
                closed && batch == [] && !idleArmed
                && posted == old(posted) + (if old(batch) == [] then [] else [old(batch)])
      ensures !event.Dispose? ==> !closed
      ensures event.Init? ==>
                batchSize == event.batchSize && idleTimeSec == event.idleTime
                && batch == old(batch) && posted == old(posted) && idleArmed == old(idleArmed)
      ensures !event.Init? ==> batchSize == old(batchSize) && idleTimeSec == old(idleTimeSec)
      ensures event.OtherType? ==> batch == old(batch) && posted == old(posted) && idleArmed == old(idleArmed)
    {
      match event {
        case Untyped =>
          AddEventRecords(event, now);
        case Dispose =>
          assert EventRecords(event, now) == [];
          SendBatch();
          closed := true;
        case Init(size, idle) =>
          assert EventRecords(event, now) == [];
          batchSize := size;
          idleTimeSec := idle;
        case LogData(_) =>
          AddEventRecords(event, now);
        case OtherType(_) =>
          assert EventRecords(event, now) == [];
      }
    }
  }
}
