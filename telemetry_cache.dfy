/**
 * The ingestion service's last-known-state cache
 * (telemetry/internal/repository/redis.go): one JSON record per car under
 * "car:state:" + car id, written with a 24-hour expiry.
 */
module TelemetryCache {
  import opened Wrappers
  import opened Records
  import opened Text
  import opened RedisStore

  const StatePrefix := "car:state:"

  /** The key a car's state lives under; the car id can be read back from it. */
  function StateKey(carId: string): (key: string)
    ensures HasPrefix(key, StatePrefix) && TrimPrefix(key, StatePrefix) == carId
  {
    TrimPrefixOfConcat(StatePrefix, carId);
    StatePrefix + carId
  }

  /** Different cars never share a key. */
  lemma {:induction false} StateKeyInjective(a: string, b: string)
    ensures StateKey(a) == StateKey(b) ==> a == b
  {
    if StateKey(a) == StateKey(b) {
      calc {
        a;
        TrimPrefix(StateKey(a), StatePrefix);
        TrimPrefix(StateKey(b), StatePrefix);
        b;
      }
    }
  }

  /**
   * What GetCarState reads: an absent key is no state and no error; a value
   * that is not a string is an error; a string is decoded, and a decode error
   * is ignored, leaving the zero record.
   */
  function Lookup(entries: map<string, RedisValue>, carId: string): (r: Result<Option<Snapshot>, string>)
    ensures StateKey(carId) !in entries ==> r == Success(None)
    ensures r.Failure? <==> StateKey(carId) in entries && entries[StateKey(carId)].NonString?
    ensures StateKey(carId) in entries && entries[StateKey(carId)].StringValue? ==> r.Success? && r.value.Some?
  {
    var key := StateKey(carId);
    if key !in entries then Success(None)
    else match entries[key]
      case NonString => Failure("error getting data from redis")
      case StringValue(payload, _) => Success(Some(DecodeSnapshot(payload).GetOr(ZeroSnapshot)))
  }

  /** What SetCarState writes: the record's JSON under the car's key, expiring in 24 hours. */
  function Store(entries: map<string, RedisValue>, carId: string, data: Snapshot): (e: map<string, RedisValue>)
    ensures StateKey(carId) in e && e[StateKey(carId)] == StringValue(SnapshotJson(data), ExpiresIn(DayInSeconds))
    ensures forall k :: k != StateKey(carId) ==> (k in e <==> k in entries) && (k in entries ==> e[k] == entries[k])
  {
    entries[StateKey(carId) := StringValue(SnapshotJson(data), ExpiresIn(DayInSeconds))]
  }

  /** A stored record reads back unchanged (before it expires). */
  lemma StoreThenLookup(entries: map<string, RedisValue>, carId: string, data: Snapshot)
    ensures Lookup(Store(entries, carId, data), carId) == Success(Some(data))
  {
  }

  /** Storing one car's state leaves every other car's state as it was. */
  lemma {:induction false} StoreKeepsOtherCars(entries: map<string, RedisValue>, carId: string, other: string, data: Snapshot)
    requires other != carId
    ensures Lookup(Store(entries, carId, data), other) == Lookup(entries, other)
  {
    StateKeyInjective(carId, other);
  }

  /** A payload that does not decode still reads as a record: the zero one. */
  lemma MalformedReadsAsZero(entries: map<string, RedisValue>, carId: string, expiry: Expiry)
    requires StateKey(carId) in entries && entries[StateKey(carId)] == StringValue(Malformed, expiry)
    ensures Lookup(entries, carId) == Success(Some(ZeroSnapshot))
  {
  }

  /** The repository object. `readFails`/`writeFails` stand for a Redis connection error on that call. */
  class StateCache {
    const redis: Redis

    constructor(redis: Redis)
      ensures this.redis == redis
    {
      this.redis := redis;
    }

    /** GetCarState */
    method GetCarState(carId: string, readFails: bool) returns (r: Result<Option<Snapshot>, string>)
      ensures readFails ==> r == Failure("error getting data from redis")
      ensures !readFails ==> r == Lookup(redis.entries, carId)
    {
      if readFails {
        return Failure("error getting data from redis");
      }
      r := Lookup(redis.entries, carId);
    }

    /** SetCarState */
    method SetCarState(carId: string, data: Snapshot, writeFails: bool) returns (err: Option<string>)
      modifies redis
      ensures err == if writeFails then Some("failed to set car state") else None
      ensures writeFails ==> redis.entries == old(redis.entries)
      ensures !writeFails ==> redis.entries == Store(old(redis.entries), carId, data)
    {
      if writeFails {
        return Some("failed to set car state");
      }
      redis.entries := Store(redis.entries, carId, data);
      err := None;
    }
  }
}
