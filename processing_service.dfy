/**
 * One cycle of the stream processor (processing/internal/service/service.go,
 * ProcessTelemetry): fetch one message, refresh the current-state cache when
 * the record changed, append the record to the history, then commit.
 */
module Processing {
  import opened Wrappers
  import opened Records
  import opened RedisStore
  import opened HistoryTables
  import opened Comparator
  import opened ProcessingConsumer
  import opened ProcessingCache
  import opened ProcessingHistory

  /** hasDataChanged on the processor's records: the car id and the receive time take no part. */
  function TelemetryChanged(previous: Option<CarTelemetry>, current: CarTelemetry): (changed: bool)
    ensures previous.None? ==> changed
    ensures previous == Some(current) ==> !changed
  {
    match previous
    case None => true
    case Some(p) => HasDataChanged(Some(p.snap), current.snap)
  }

  /** The car id and receive time of the cached record do not affect the comparison. */
  lemma ChangeIgnoresIdAndTime(p: CarTelemetry, current: CarTelemetry, carId: string, receivedAt: Int64)
    ensures TelemetryChanged(Some(p.(carId := carId, receivedAt := receivedAt)), current) == TelemetryChanged(Some(p), current)
  {
  }

  /** What a cycle can change besides the consumer: the cache and the history table. */
  datatype ProcWorld = ProcWorld(cache: map<string, RedisValue>, history: seq<HistoryRow>)

  /** Which of a message's three external calls fail. */
  datatype MessageFaults = MessageFaults(readFails: bool, writeFails: bool, insertFails: bool)

  const NoMessageFaults := MessageFaults(false, false, false)

  /** The failing calls of a batch, by message position. */
  datatype BatchFaults = BatchFaults(readFailures: set<nat>, writeFailures: set<nat>, insertFailures: set<nat>) {
    function At(i: nat): MessageFaults
    {
      MessageFaults(i in readFailures, i in writeFailures, i in insertFailures)
    }
  }

  const NoBatchFaults := BatchFaults({}, {}, {})

  /**
   * One message: a failed cache read skips it; a changed record is saved to
   * the cache, and a failed save skips the message; then a row is appended,
   * unless the insert fails or the car id is not a uuid.
   */
  function ProcessMessage(w: ProcWorld, template: string, msg: CarTelemetry, f: MessageFaults): ProcWorld
  {
    if f.readFails then w
    else match Lookup(w.cache, template, msg.carId)
      case Failure(_) => w
      case Success(prev) =>
        if TelemetryChanged(prev, msg) && msg.carId != "" && f.writeFails then w
        else
          var w1 := if TelemetryChanged(prev, msg) then w.(cache := Save(w.cache, template, msg)) else w;
          if f.insertFails || !IsUuid(msg.carId) then w1 else w1.(history := w1.history + [ToRow(msg)])
  }

  /** The messages of a batch, in order. */
  function ProcessBatch(w: ProcWorld, template: string, msgs: seq<CarTelemetry>, faults: BatchFaults): ProcWorld
    decreases |msgs|
  {
    if msgs == [] then w
    else
      var n := |msgs| - 1;
      ProcessMessage(ProcessBatch(w, template, msgs[..n], faults), template, msgs[n], faults.At(n))
  }

  /** The history is append-only: a message adds at most one row and removes none. */
  lemma ProcessMessageAppendsAtMostOne(w: ProcWorld, template: string, msg: CarTelemetry, f: MessageFaults)
    ensures var h := ProcessMessage(w, template, msg, f).history;
      h == w.history || h == w.history + [ToRow(msg)]
  {
  }

  /**
   * A row is appended exactly when the lookup succeeds, the cache save (when
   * the record changed) succeeds, and the insert succeeds, changed or not;
   * the insert succeeds only for a car id that is a uuid.
   */
  lemma ProcessMessageAppendsRow(w: ProcWorld, template: string, msg: CarTelemetry, f: MessageFaults)
    ensures var lookup := Lookup(w.cache, template, msg.carId);
      var appended := !f.readFails && lookup.Success?
        && !(TelemetryChanged(lookup.value, msg) && msg.carId != "" && f.writeFails)
        && !f.insertFails && IsUuid(msg.carId);
      ProcessMessage(w, template, msg, f).history == w.history + (if appended then [ToRow(msg)] else [])
  {
  }

  /** The cache is written exactly when the lookup succeeds and the record changed, and then with that record. */
  lemma ProcessMessageCacheWrite(w: ProcWorld, template: string, msg: CarTelemetry, f: MessageFaults)
    requires !f.readFails && !f.writeFails && Lookup(w.cache, template, msg.carId).Success?
    ensures var c := ProcessMessage(w, template, msg, f).cache;
      c == if TelemetryChanged(Lookup(w.cache, template, msg.carId).value, msg) then Save(w.cache, template, msg) else w.cache
  {
  }

  /** Every value in the cache is a record that decodes. */
  predicate WellFormedCache(cache: map<string, RedisValue>)
  {
    forall k :: k in cache ==> cache[k].StringValue? && !cache[k].payload.Malformed?
  }

  /**
   * A record without a car id, as an undecodable payload yields, never
   * reaches the history: the insert rejects it.
   */
  lemma EmptyIdIsNotStored(w: ProcWorld, template: string, msg: CarTelemetry, f: MessageFaults)
    requires msg.carId == ""
    ensures ProcessMessage(w, template, msg, f).history == w.history
  {
    if IsUuid(msg.carId) {
      UuidLength(msg.carId);
    }
  }

  /** A cycle only ever writes a record that decodes, so the cache stays well-formed. */
  lemma ProcessMessageKeepsCacheWellFormed(w: ProcWorld, template: string, msg: CarTelemetry, f: MessageFaults)
    requires WellFormedCache(w.cache)
    ensures WellFormedCache(ProcessMessage(w, template, msg, f).cache)
  {
    var c := ProcessMessage(w, template, msg, f).cache;
    assert c == w.cache || c == Save(w.cache, template, msg);
  }

  /** Without faults, on a well-formed cache, a message with a uuid car id appends its row. */
  lemma FaultFreeMessageAppendsRow(w: ProcWorld, template: string, msg: CarTelemetry)
    requires WellFormedCache(w.cache) && IsUuid(msg.carId)
    ensures var w' := ProcessMessage(w, template, msg, NoMessageFaults);
      w'.history == w.history + [ToRow(msg)] && WellFormedCache(w'.cache)
  {
    assert Lookup(w.cache, template, msg.carId).Success?;
    ProcessMessageAppendsRow(w, template, msg, NoMessageFaults);
    ProcessMessageKeepsCacheWellFormed(w, template, msg, NoMessageFaults);
  }

  /** The history rows of a sequence of records, in order. */
  function RowsOf(msgs: seq<CarTelemetry>): (rows: seq<HistoryRow>)
    ensures |rows| == |msgs|
    ensures forall i :: 0 <= i < |msgs| ==> rows[i] == ToRow(msgs[i])
  {
    if msgs == [] then [] else RowsOf(msgs[..|msgs| - 1]) + [ToRow(msgs[|msgs| - 1])]
  }

  /** Without faults, on a well-formed cache, every message of a batch whose car id is a uuid appends its row, in order. */
  lemma {:induction false} FaultFreeBatchAppendsEveryRow(w: ProcWorld, template: string, msgs: seq<CarTelemetry>)
    requires WellFormedCache(w.cache)
    requires forall i :: 0 <= i < |msgs| ==> IsUuid(msgs[i].carId)
    ensures var w' := ProcessBatch(w, template, msgs, NoBatchFaults);
      WellFormedCache(w'.cache) && w'.history == w.history + RowsOf(msgs)
    decreases |msgs|
  {
    if msgs != [] {
      var n := |msgs| - 1;
      var prefix := msgs[..n];
      assert forall i :: 0 <= i < |prefix| ==> prefix[i] == msgs[i];
      FaultFreeBatchAppendsEveryRow(w, template, prefix);
      var wp := ProcessBatch(w, template, prefix, NoBatchFaults);
      assert NoBatchFaults.At(n) == NoMessageFaults;
      FaultFreeMessageAppendsRow(wp, template, msgs[n]);
      var w' := ProcessBatch(w, template, msgs, NoBatchFaults);
      assert w' == ProcessMessage(wp, template, msgs[n], NoMessageFaults);
      var row := ToRow(msgs[n]);
      calc {
        w'.history;
        wp.history + [row];
        (w.history + RowsOf(prefix)) + [row];
        w.history + (RowsOf(prefix) + [row]);
      }
    }
  }

  /**
   * The same record processed twice without faults: two history rows when
   * its car id is a uuid (none otherwise), and the second pass leaves the
   * cache as the first left it.
   */
  lemma {:induction false} RedeliveryAppendsTwiceCachesOnce(w: ProcWorld, template: string, msg: CarTelemetry)
    requires Lookup(w.cache, template, msg.carId).Success?
    ensures var w1 := ProcessMessage(w, template, msg, NoMessageFaults);
      var w2 := ProcessMessage(w1, template, msg, NoMessageFaults);
      && w2.history == w.history + (if IsUuid(msg.carId) then [ToRow(msg), ToRow(msg)] else [])
      && w2.cache == w1.cache
  {
    var w1 := ProcessMessage(w, template, msg, NoMessageFaults);
    var prev := Lookup(w.cache, template, msg.carId).value;
    if TelemetryChanged(prev, msg) && msg.carId != "" {
      SaveThenLookup(w.cache, template, msg);
      assert Lookup(w1.cache, template, msg.carId) == Success(Some(msg));
    } else {
      assert w1.cache == w.cache;
    }
  }

  /** How a cycle ends. `Committed(true)` is an empty batch, after which the loop sleeps. */
  datatype CycleOutcome = Stopped | FetchFailed | CommitFailed | Committed(sleeps: bool)

  class ProcessingService {
    const consumer: KafkaConsumer
    const cache: CarStateCache
    const writer: HistoryWriter

    constructor(consumer: KafkaConsumer, cache: CarStateCache, writer: HistoryWriter)
      ensures this.consumer == consumer && this.cache == cache && this.writer == writer
    {
      this.consumer := consumer;
      this.cache := cache;
      this.writer := writer;
    }

    function World(): ProcWorld
      reads cache.redis, writer.db
    {
      ProcWorld(cache.redis.entries, writer.db.history)
    }

    /** The body of the per-message loop. */
    method HandleMessage(msg: CarTelemetry, f: MessageFaults)
      modifies cache.redis, writer.db
      ensures World() == ProcessMessage(old(World()), cache.template, msg, f)
      ensures writer.db.cars == old(writer.db.cars)
    {
      var prev := cache.GetCarState(msg.carId, f.readFails);
      if prev.Failure? {
        return;
      }
      if TelemetryChanged(prev.value, msg) {
        var err := cache.SaveCarState(msg, f.writeFails);
        if err.Some? {
          return;
        }
      }
      var err := writer.SaveTelemetry(msg, f.insertFails);
    }

    /**
     * One cycle: stop when cancelled; otherwise fetch one message; a fetch
     * error skips the rest of the cycle, commit included; otherwise process
     * the batch and commit it, even when it is empty.
     */
    method RunCycle(cancelled: bool, faults: BatchFaults, commitFails: bool) returns (outcome: CycleOutcome)
      modifies consumer, cache.redis, writer.db
      ensures writer.db.cars == old(writer.db.cars)
      ensures cancelled ==>
        && outcome == Stopped && World() == old(World())
        && consumer.incoming == old(consumer.incoming) && consumer.pending == old(consumer.pending)
        && consumer.committed == old(consumer.committed)
      ensures !cancelled ==>
        var f := Fetched(old(consumer.incoming), 1);
        && consumer.incoming == old(consumer.incoming)[f.readCount..]
        && (f.error.Some? ==>
              && outcome == FetchFailed && World() == old(World())
              && consumer.pending == old(consumer.pending) + f.delivered
              && consumer.committed == old(consumer.committed))
        && (f.error.None? ==>
              && World() == ProcessBatch(old(World()), cache.template, ToTelemetries(f.delivered), faults)
              && (commitFails ==>
                    && outcome == CommitFailed
                    && consumer.pending == old(consumer.pending) + f.delivered
                    && consumer.committed == old(consumer.committed))
              && (!commitFails ==>
                    && outcome == Committed(f.delivered == [])
                    && consumer.pending == []
                    && consumer.committed == old(consumer.committed) + old(consumer.pending) + f.delivered))
    {
      if cancelled {
        return Stopped;
      }
      var fetched := consumer.GetMessages(1);
      if fetched.Failure? {
        return FetchFailed;
      }
      var messages := fetched.value;
      ghost var start := World();
      var i := 0;
      while i < |messages|
        invariant 0 <= i <= |messages|
        invariant World() == ProcessBatch(start, cache.template, messages[..i], faults)
        invariant writer.db.cars == old(writer.db.cars)
        invariant consumer.incoming == old(consumer.incoming)[Fetched(old(consumer.incoming), 1).readCount..]
        invariant consumer.pending == old(consumer.pending) + Fetched(old(consumer.incoming), 1).delivered
        invariant consumer.committed == old(consumer.committed)
      {
        assert messages[..i + 1][..i] == messages[..i];
        HandleMessage(messages[i], faults.At(i));
        i := i + 1;
      }
      assert messages[..i] == messages;
      var err := consumer.Commit(commitFails);
      if err.Some? {
        return CommitFailed;
      }
      outcome := Committed(|messages| == 0);
    }
  }
}
