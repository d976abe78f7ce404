/**
 * The admin service's Redis reads (admin/internal/repository/redis.go): the
 * list of active cars, taken from every "car:state:" entry the ingestion
 * service writes, and one car's full record.
 */
module AdminCache {
  import opened Wrappers
  import opened Records
  import opened Text
  import opened RedisStore
  import opened AdminDomain
  import TelemetryCache

  const Prefix := "car:state:"

  /** The keys a SCAN for Prefix + "*" lists: every key with the prefix, each once. */
  predicate KeyListing(entries: map<string, RedisValue>, keys: seq<string>)
  {
    && (forall k :: k in keys ==> k in entries && HasPrefix(k, Prefix))
    && (forall k :: k in entries && HasPrefix(k, Prefix) ==> k in keys)
    && (forall i, j :: 0 <= i < j < |keys| ==> keys[i] != keys[j])
  }

  /** The listed car for a decoded record under a key: the id is the key without the prefix. */
  function ShortOf(key: string, d: Snapshot): (c: CarShort)
    ensures c.id == TrimPrefix(key, Prefix)
  {
    CarShort(TrimPrefix(key, Prefix), d.brand, d.model, d.lat, d.lon, d.speed)
  }

  /**
   * One MGET result: a missing value, a non-string value or an undecodable one
   * is skipped; a decoded record is listed only when the car is activated.
   */
  function Entry(entries: map<string, RedisValue>, key: string): (listed: seq<CarShort>)
    ensures |listed| <= 1
  {
    if key !in entries || entries[key].NonString? then []
    else match DecodeSnapshot(entries[key].payload)
      case None => []
      case Some(d) => if d.activated then [ShortOf(key, d)] else []
  }

  /** The filtering loop's result over the listed keys, in key order. */
  function ActiveCars(entries: map<string, RedisValue>, keys: seq<string>): (cars: seq<CarShort>)
    ensures |cars| <= |keys|
  {
    if keys == [] then []
    else ActiveCars(entries, keys[..|keys| - 1]) + Entry(entries, keys[|keys| - 1])
  }

  /** A car is listed iff it comes from one of the keys, in the form Entry gives. */
  lemma ActiveCarsMembership(entries: map<string, RedisValue>, keys: seq<string>, c: CarShort)
    ensures c in ActiveCars(entries, keys) <==> exists i :: 0 <= i < |keys| && Entry(entries, keys[i]) == [c]
  {
    if c in ActiveCars(entries, keys) {
      ListedCarHasKey(entries, keys, c);
    }
    if exists i :: 0 <= i < |keys| && Entry(entries, keys[i]) == [c] {
      var i :| 0 <= i < |keys| && Entry(entries, keys[i]) == [c];
      KeyedCarIsListed(entries, keys, c, i);
    }
  }

  lemma {:induction false} ListedCarHasKey(entries: map<string, RedisValue>, keys: seq<string>, c: CarShort)
    requires c in ActiveCars(entries, keys)
    ensures exists i :: 0 <= i < |keys| && Entry(entries, keys[i]) == [c]
  {
    var n := |keys| - 1;
    var prefix := keys[..n];
    if c in ActiveCars(entries, prefix) {
      ListedCarHasKey(entries, prefix, c);
      var i :| 0 <= i < |prefix| && Entry(entries, prefix[i]) == [c];
      assert keys[i] == prefix[i];
    } else {
      var e := Entry(entries, keys[n]);
      assert c in e && e == [c];
    }
  }

  lemma {:induction false} KeyedCarIsListed(entries: map<string, RedisValue>, keys: seq<string>, c: CarShort, i: int)
    requires 0 <= i < |keys| && Entry(entries, keys[i]) == [c]
    ensures c in ActiveCars(entries, keys)
    decreases |keys|
  {
    var n := |keys| - 1;
    var prefix := keys[..n];
    if i < n {
      assert prefix[i] == keys[i];
      KeyedCarIsListed(entries, prefix, c, i);
    }
    assert ActiveCars(entries, keys) == ActiveCars(entries, prefix) + Entry(entries, keys[n]);
  }

  /** Every listed car is active in its cached record, and carries that record's fields. */
  lemma ListedCarsAreActive(entries: map<string, RedisValue>, keys: seq<string>, c: CarShort)
    requires c in ActiveCars(entries, keys)
    ensures exists i, d ::
      && 0 <= i < |keys| && keys[i] in entries && entries[keys[i]].StringValue?
      && DecodeSnapshot(entries[keys[i]].payload) == Some(d) && d.activated && c == ShortOf(keys[i], d)
  {
    ActiveCarsMembership(entries, keys, c);
    var i :| 0 <= i < |keys| && Entry(entries, keys[i]) == [c];
    var d := DecodeSnapshot(entries[keys[i]].payload).value;
    assert c == ShortOf(keys[i], d);
  }

  /**
   * What the ingestion service caches, the admin lists: after SetCarState
   * with an activated record, the car appears with that record's position,
   * and with a deactivated one it does not appear at all.
   */
  lemma IngestedCarIsListed(entries: map<string, RedisValue>, keys: seq<string>, carId: string, data: Snapshot)
    requires KeyListing(TelemetryCache.Store(entries, carId, data), keys)
    ensures data.activated ==>
      CarShort(carId, data.brand, data.model, data.lat, data.lon, data.speed) in ActiveCars(TelemetryCache.Store(entries, carId, data), keys)
    ensures !data.activated ==>
      forall c :: c in ActiveCars(TelemetryCache.Store(entries, carId, data), keys) ==> c.id != carId
  {
    var stored := TelemetryCache.Store(entries, carId, data);
    var key := TelemetryCache.StateKey(carId);
    assert key in stored && HasPrefix(key, Prefix);
    var i :| 0 <= i < |keys| && keys[i] == key;
    if data.activated {
      ActiveCarsMembership(stored, keys, CarShort(carId, data.brand, data.model, data.lat, data.lon, data.speed));
    } else {
      forall c | c in ActiveCars(stored, keys)
        ensures c.id != carId
      {
        ActiveCarsMembership(stored, keys, c);
        var j :| 0 <= j < |keys| && Entry(stored, keys[j]) == [c];
        assert HasPrefix(keys[j], Prefix);
      }
    }
  }

  /** GetCar's outcome: an absent key is CarNotFound; a value that does not decode as a record is an error. */
  function CarDetails(entries: map<string, RedisValue>, carId: string, getFails: bool): (r: Result<Snapshot, AdminError>)
    ensures !getFails && Prefix + carId !in entries ==> r == Failure(CarNotFound)
    ensures r.Success? ==>
      && Prefix + carId in entries && entries[Prefix + carId].StringValue?
      && DecodeSnapshot(entries[Prefix + carId].payload) == Some(r.value)
  {
    var key := Prefix + carId;
    if getFails then Failure(Other("error getting data from redis"))
    else if key !in entries then Failure(CarNotFound)
    else if entries[key].NonString? then Failure(Other("error getting data from redis"))
    else match DecodeSnapshot(entries[key].payload)
      case None => Failure(Other("error unmarshaling car data"))
      case Some(d) => Success(d)
  }

  /** The full record the ingestion service cached is what GetCar returns. */
  lemma IngestedCarReadsBack(entries: map<string, RedisValue>, carId: string, data: Snapshot)
    ensures CarDetails(TelemetryCache.Store(entries, carId, data), carId, false) == Success(data)
  {
    assert TelemetryCache.StateKey(carId) == Prefix + carId;
  }

  class CarsRepository {
    const redis: Redis

    constructor(redis: Redis)
      ensures this.redis == redis
    {
      this.redis := redis;
    }

    /** The SCAN cursor loop: key by key, in an order the store chooses. */
    method ScanKeys(scanFails: bool) returns (r: Result<seq<string>, AdminError>)
      ensures scanFails <==> r.Failure?
      ensures r.Failure? ==> r.error == Other("error scanning keys from redis")
      ensures r.Success? ==> KeyListing(redis.entries, r.value)
    {
      if scanFails {
        return Failure(Other("error scanning keys from redis"));
      }
      var remaining := set k | k in redis.entries && HasPrefix(k, Prefix);
      var allKeys: seq<string> := [];
      while remaining != {}
        invariant forall k :: k in allKeys || k in remaining <==> k in redis.entries && HasPrefix(k, Prefix)
        invariant forall k :: k in allKeys ==> k !in remaining
        invariant forall i, j :: 0 <= i < j < |allKeys| ==> allKeys[i] != allKeys[j]
        decreases |remaining|
      {
        var key :| key in remaining;
        allKeys := allKeys + [key];
        remaining := remaining - {key};
      }
      return Success(allKeys);
    }

    /** The filtering loop over the MGET results, one key at a time. */
    method FilterActive(keys: seq<string>) returns (state: seq<CarShort>)
      ensures state == ActiveCars(redis.entries, keys)
    {
      state := [];
      var i := 0;
      while i < |keys|
        invariant 0 <= i <= |keys|
        invariant state == ActiveCars(redis.entries, keys[..i])
      {
        var key := keys[i];
        if key in redis.entries && redis.entries[key].StringValue? {
          var car := DecodeSnapshot(redis.entries[key].payload);
          if car.Some? && car.value.activated {
            state := state + [ShortOf(key, car.value)];
          }
        }
        assert keys[..i + 1][..i] == keys[..i];
        i := i + 1;
      }
      assert keys[..i] == keys;
    }

    /**
     * GetCarsNow: no keys is an empty list and no error (MGET is not issued);
     * otherwise the active cars among the listed keys, in listing order.
     */
    method GetCarsNow(scanFails: bool, mgetFails: bool) returns (r: Result<seq<CarShort>, AdminError>)
      ensures scanFails ==> r == Failure(Other("error scanning keys from redis"))
      ensures !scanFails && (forall k :: k in redis.entries ==> !HasPrefix(k, Prefix)) ==> r == Success([])
      ensures r.Failure? && !scanFails ==> mgetFails
      ensures !scanFails && mgetFails && (exists k :: k in redis.entries && HasPrefix(k, Prefix)) ==>
        r == Failure(Other("error getting data from redis"))
      ensures r.Success? ==> exists keys :: KeyListing(redis.entries, keys) && r.value == ActiveCars(redis.entries, keys)
    {
      var scanned := ScanKeys(scanFails);
      if scanned.Failure? {
        return Failure(scanned.error);
      }
      var allKeys := scanned.value;
      if |allKeys| == 0 {
        assert forall k :: k in redis.entries ==> !HasPrefix(k, Prefix);
        return Success([]);
      }
      assert allKeys[0] in allKeys;
      if mgetFails {
        return Failure(Other("error getting data from redis"));
      }
      var state := FilterActive(allKeys);
      return Success(state);
    }

    method GetCar(carId: string, getFails: bool) returns (r: Result<Snapshot, AdminError>)
      ensures r == CarDetails(redis.entries, carId, getFails)
    {
      var key := Prefix + carId;
      if getFails {
        return Failure(Other("error getting data from redis"));
      }
      if key !in redis.entries {
        return Failure(CarNotFound);
      }
      if redis.entries[key].NonString? {
        return Failure(Other("error getting data from redis"));
      }
      var details := DecodeSnapshot(redis.entries[key].payload);
      if details.None? {
        return Failure(Other("error unmarshaling car data"));
      }
      return Success(details.value);
    }
  }
}
