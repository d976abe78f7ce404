/**
 * The ingestion pipeline for one record
 * (telemetry/internal/service/telemetryService.go, ProcessTelemetry):
 * publish the raw record, read the cached state, and only when the record
 * differs from it, refresh the cache and publish each rule violation.
 */
module TelemetryIngestion {
  import opened Wrappers
  import opened Records
  import opened RedisStore
  import opened TelemetryConfig
  import opened Comparator
  import opened RuleEngine
  import opened TelemetryCache
  import opened TelemetryProducer

  /** What one call can change: the two topics and the cache. */
  datatype IngestWorld = IngestWorld(raw: seq<Message>, violations: seq<Message>, cache: map<string, RedisValue>)

  /**
   * Which external calls fail on this call: the raw publish, the cache read,
   * the cache write, and the violation publishes at the given positions.
   */
  datatype IngestFaults = IngestFaults(
    rawPublishFails: bool, cacheReadFails: bool, cacheWriteFails: bool, violationPublishFailures: set<nat>)

  const NoFaults := IngestFaults(false, false, false, {})

  function ViolationMessage(v: Violation): Message
  {
    Message(KindName(v.kind), ViolationJson(v))
  }

  function ViolationMessages(vs: seq<Violation>): (ms: seq<Message>)
    ensures |ms| == |vs|
    ensures forall i :: 0 <= i < |vs| ==> ms[i] == ViolationMessage(vs[i])
  {
    seq(|vs|, i requires 0 <= i < |vs| => ViolationMessage(vs[i]))
  }

  /** The first position from `from` on, below `n`, whose publish fails; `n` when none does. */
  function FirstFailureFrom(fails: set<nat>, from: nat, n: nat): (k: nat)
    requires from <= n
    ensures from <= k <= n
    ensures forall i :: from <= i < k ==> i !in fails
    ensures k < n ==> k in fails
    decreases n - from
  {
    if from == n then n
    else if from in fails then from
    else FirstFailureFrom(fails, from + 1, n)
  }

  function FirstFailure(fails: set<nat>, n: nat): (k: nat)
    ensures k <= n
    ensures forall i :: 0 <= i < k ==> i !in fails
    ensures k < n ==> k in fails
  {
    FirstFailureFrom(fails, 0, n)
  }

  const RawPublishError := "failed to write message in telemetry Topic"
  const CacheReadError := "error getting data from redis"
  const CacheWriteError := "failed to set car state"
  const ViolationPublishError := "failed to write message in violation Topic"

  /** The effect of ProcessTelemetry on the world, and the error it returns. */
  function Ingest(w: IngestWorld, carId: string, data: Snapshot, cfg: ViolationsConfig, f: IngestFaults): (IngestWorld, Option<string>)
  {
    if f.rawPublishFails then (w, Some(RawPublishError))
    else AfterRawPublish(w.(raw := w.raw + [Message(carId, SnapshotJson(data))]), carId, data, cfg, f)
  }

  /** Once the raw record is out: read the cached state and compare. */
  function AfterRawPublish(w: IngestWorld, carId: string, data: Snapshot, cfg: ViolationsConfig, f: IngestFaults): (IngestWorld, Option<string>)
  {
    if f.cacheReadFails then (w, Some(CacheReadError))
    else match Lookup(w.cache, carId)
      case Failure(e) => (w, Some(e))
      case Success(prev) =>
        if !HasDataChanged(prev, data) then (w, None)
        else if f.cacheWriteFails then (w, Some(CacheWriteError))
        else PublishViolations(w.(cache := Store(w.cache, carId, data)), CheckViolations(carId, data, cfg), f.violationPublishFailures)
  }

  /** Publish the violations in order, stopping at the first that fails. */
  function PublishViolations(w: IngestWorld, vs: seq<Violation>, fails: set<nat>): (IngestWorld, Option<string>)
  {
    var k := FirstFailure(fails, |vs|);
    (w.(violations := w.violations + ViolationMessages(vs[..k])), if k < |vs| then Some(ViolationPublishError) else None)
  }

  class TelemetryService {
    const cache: StateCache
    const producer: KafkaProducer
    const limits: ViolationsConfig

    constructor(cache: StateCache, producer: KafkaProducer, limits: ViolationsConfig)
      ensures this.cache == cache && this.producer == producer && this.limits == limits
    {
      this.cache := cache;
      this.producer := producer;
      this.limits := limits;
    }

    function World(): IngestWorld
      reads producer, cache.redis
    {
      IngestWorld(producer.telemetrySent, producer.violationsSent, cache.redis.entries)
    }

    /** ProcessTelemetry */
    method ProcessTelemetry(carId: string, data: Snapshot, f: IngestFaults) returns (err: Option<string>)
      modifies producer, cache.redis
      ensures (World(), err) == Ingest(old(World()), carId, data, limits, f)
      ensures producer.telemetryOpen == old(producer.telemetryOpen) && producer.violationsOpen == old(producer.violationsOpen)
    {
      err := producer.SendTelemetry(carId, data, f.rawPublishFails);
      if err.Some? {
        return;
      }
      ghost var w1 := World();
      assert Ingest(old(World()), carId, data, limits, f) == AfterRawPublish(w1, carId, data, limits, f);
      var prev := cache.GetCarState(carId, f.cacheReadFails);
      if prev.Failure? {
        return Some(prev.error);
      }
      if HasDataChanged(prev.value, data) {
        err := cache.SetCarState(carId, data, f.cacheWriteFails);
        if err.Some? {
          return;
        }
        var vs := CheckViolations(carId, data, limits);
        assert AfterRawPublish(w1, carId, data, limits, f)
          == PublishViolations(w1.(cache := World().cache), vs, f.violationPublishFailures);
        err := PublishEach(vs, f.violationPublishFailures);
      } else {
        err := None;
      }
    }

    /** The loop publishing the violations one by one, returning at the first failure. */
    method PublishEach(vs: seq<Violation>, fails: set<nat>) returns (err: Option<string>)
      modifies producer
      ensures (World(), err) == PublishViolations(old(World()), vs, fails)
      ensures producer.telemetryOpen == old(producer.telemetryOpen) && producer.violationsOpen == old(producer.violationsOpen)
    {
      ghost var k := FirstFailure(fails, |vs|);
      var i := 0;
      while i < |vs|
        invariant 0 <= i <= k
        invariant producer.violationsSent == old(producer.violationsSent) + ViolationMessages(vs[..i])
        invariant producer.telemetrySent == old(producer.telemetrySent)
        invariant producer.telemetryOpen == old(producer.telemetryOpen) && producer.violationsOpen == old(producer.violationsOpen)
      {
        err := producer.SendViolation(vs[i], i in fails);
        if err.Some? {
          assert i == k;
          return;
        }
        assert vs[..i + 1] == vs[..i] + [vs[i]];
        i := i + 1;
      }
      assert i == k;
      err := None;
    }
  }

  /** A failed raw publish is the first step's failure: nothing else is touched. */
  lemma RawPublishFailureTouchesNothing(w: IngestWorld, carId: string, data: Snapshot, cfg: ViolationsConfig, f: IngestFaults)
    requires f.rawPublishFails
    ensures Ingest(w, carId, data, cfg, f).0 == w && Ingest(w, carId, data, cfg, f).1.Some?
  {
  }

  /** Whenever the raw publish succeeds, it happens exactly once, before anything else can fail. */
  lemma RawPublishedOnce(w: IngestWorld, carId: string, data: Snapshot, cfg: ViolationsConfig, f: IngestFaults)
    requires !f.rawPublishFails
    ensures Ingest(w, carId, data, cfg, f).0.raw == w.raw + [Message(carId, SnapshotJson(data))]
  {
  }

  /** A failed cache read aborts after the raw publish: no cache write, no violation. */
  lemma CacheReadFailureStopsEarly(w: IngestWorld, carId: string, data: Snapshot, cfg: ViolationsConfig, f: IngestFaults)
    requires !f.rawPublishFails && f.cacheReadFails
    ensures var (w', err) := Ingest(w, carId, data, cfg, f);
      err.Some? && w'.cache == w.cache && w'.violations == w.violations
  {
  }

  /**
   * The cache is rewritten, and rules are evaluated, only when the record
   * differs from the cached one; with no faults, exactly then.
   */
  lemma {:induction false} CacheWrittenOnlyOnChange(w: IngestWorld, carId: string, data: Snapshot, cfg: ViolationsConfig, f: IngestFaults)
    requires !f.rawPublishFails && !f.cacheReadFails && Lookup(w.cache, carId).Success?
    ensures var (w', _) := Ingest(w, carId, data, cfg, f);
      var changed := HasDataChanged(Lookup(w.cache, carId).value, data);
      && (!changed ==> w'.cache == w.cache && w'.violations == w.violations)
      && (changed && !f.cacheWriteFails ==> w'.cache == Store(w.cache, carId, data))
  {
  }

  /** An unchanged record costs one raw publish and nothing else. */
  lemma UnchangedRecordOnlyPublishesRaw(w: IngestWorld, carId: string, data: Snapshot, cfg: ViolationsConfig, f: IngestFaults)
    requires !f.rawPublishFails && !f.cacheReadFails
    requires Lookup(w.cache, carId) == Success(Some(data))
    ensures Ingest(w, carId, data, cfg, f) == (w.(raw := w.raw + [Message(carId, SnapshotJson(data))]), None)
  {
  }

  /**
   * After a cache refresh, the violations published are the rule engine's
   * output in order, cut at the first publish that fails; the call fails
   * exactly when one does, and the cache stays refreshed either way.
   */
  lemma {:induction false} ViolationsPublishedInOrder(w: IngestWorld, carId: string, data: Snapshot, cfg: ViolationsConfig, f: IngestFaults)
    requires !f.rawPublishFails && !f.cacheReadFails && !f.cacheWriteFails
    requires Lookup(w.cache, carId).Success? && HasDataChanged(Lookup(w.cache, carId).value, data)
    ensures var (w', err) := Ingest(w, carId, data, cfg, f);
      var vs := CheckViolations(carId, data, cfg);
      && w'.cache == Store(w.cache, carId, data)
      && (exists k :: 0 <= k <= |vs| && w'.violations == w.violations + ViolationMessages(vs[..k])
            && (forall i :: 0 <= i < k ==> i !in f.violationPublishFailures)
            && (k < |vs| <==> err.Some?))
      && (err.Some? <==> exists i :: 0 <= i < |vs| && i in f.violationPublishFailures)
  {
    var vs := CheckViolations(carId, data, cfg);
    var k := FirstFailure(f.violationPublishFailures, |vs|);
    assert k < |vs| ==> k in f.violationPublishFailures;
  }

  /**
   * Delivering the same record twice without faults: the second delivery
   * finds it cached and publishes only the raw record again.
   */
  lemma {:induction false} RedeliveryOnlyPublishesRaw(w: IngestWorld, carId: string, data: Snapshot, cfg: ViolationsConfig)
    requires Lookup(w.cache, carId).Success?
    ensures var w1 := Ingest(w, carId, data, cfg, NoFaults).0;
      Ingest(w1, carId, data, cfg, NoFaults) == (w1.(raw := w1.raw + [Message(carId, SnapshotJson(data))]), None)
  {
    var w1 := Ingest(w, carId, data, cfg, NoFaults).0;
    var prev := Lookup(w.cache, carId).value;
    if HasDataChanged(prev, data) {
      StoreThenLookup(w.cache, carId, data);
    } else {
      assert w1.cache == w.cache;
    }
  }
}
