/**
 * The stream processor's current-state cache
 * (processing/internal/repository/redis_repo.go): the full record, car id
 * and receive time included, under a key made from a configurable template,
 * with no expiry.
 */
module ProcessingCache {
  import opened Wrappers
  import opened Records
  import opened Text
  import opened RedisStore

  const Placeholder := "{car_id}"
  const DefaultTemplate := "car:current:{car_id}"

  /** The key for a car: the template with its first placeholder replaced by the id. */
  function CarKey(template: string, carId: string): string
  {
    ReplaceFirst(template, Placeholder, carId)
  }

  /** With the default template the key is "car:current:" followed by the id. */
  lemma DefaultKey(carId: string)
    ensures CarKey(DefaultTemplate, carId) == "car:current:" + carId
  {
    assert DefaultTemplate == "car:current:" + Placeholder + [];
    ReplaceAfterPrefix("car:current:", Placeholder, [], carId);
  }

  /** With the default template, different cars have different keys. */
  lemma {:induction false} DefaultKeyInjective(a: string, b: string)
    ensures CarKey(DefaultTemplate, a) == CarKey(DefaultTemplate, b) ==> a == b
  {
    DefaultKey(a);
    DefaultKey(b);
    if CarKey(DefaultTemplate, a) == CarKey(DefaultTemplate, b) {
      TrimPrefixOfConcat("car:current:", a);
      TrimPrefixOfConcat("car:current:", b);
    }
  }

  /**
   * What GetCarState reads: an absent key is no state and no error; a value
   * that is not a string, or does not decode, is an error.
   */
  function Lookup(entries: map<string, RedisValue>, template: string, carId: string): (r: Result<Option<CarTelemetry>, string>)
    ensures CarKey(template, carId) !in entries ==> r == Success(None)
    ensures r.Failure? <==>
      && CarKey(template, carId) in entries
      && (entries[CarKey(template, carId)].NonString? || entries[CarKey(template, carId)].payload.Malformed?)
  {
    var key := CarKey(template, carId);
    if key !in entries then Success(None)
    else match entries[key]
      case NonString => Failure("error getting car state from redis")
      case StringValue(payload, _) =>
        match DecodeCarTelemetry(payload)
        case None => Failure("error unmarshaling car state")
        case Some(t) => Success(Some(t))
  }

  /** What SaveCarState writes: nothing for an empty car id, else the record under its key with no expiry. */
  function Save(entries: map<string, RedisValue>, template: string, t: CarTelemetry): (e: map<string, RedisValue>)
    ensures t.carId == "" ==> e == entries
    ensures t.carId != "" ==> e == entries[CarKey(template, t.carId) := StringValue(TelemetryJson(t), NoExpiry)]
  {
    if t.carId == "" then entries
    else entries[CarKey(template, t.carId) := StringValue(TelemetryJson(t), NoExpiry)]
  }

  /** A saved record reads back unchanged, whatever the template. */
  lemma SaveThenLookup(entries: map<string, RedisValue>, template: string, t: CarTelemetry)
    requires t.carId != ""
    ensures Lookup(Save(entries, template, t), template, t.carId) == Success(Some(t))
  {
  }

  /**
   * Whatever the text around the placeholder, saving one car leaves every
   * other car's state as it was.
   */
  lemma {:induction false} SaveKeepsOtherCars(entries: map<string, RedisValue>, prefix: string, suffix: string, t: CarTelemetry, other: string)
    requires other != t.carId
    ensures var template := prefix + Placeholder + suffix;
      Lookup(Save(entries, template, t), template, other) == Lookup(entries, template, other)
  {
    ReplaceFirstInjective(prefix, Placeholder, suffix, t.carId, other);
  }

  /** A template without a placeholder gives every car the same key, the template itself. */
  lemma TemplateWithoutPlaceholder(template: string, a: string, b: string)
    requires forall i :: 0 <= i < |template| ==> template[i] != '{'
    ensures CarKey(template, a) == CarKey(template, b) == template
  {
    ReplaceFirstAbsent(template, Placeholder, a);
    ReplaceFirstAbsent(template, Placeholder, b);
  }

  /** The repository object. `readFails`/`writeFails` stand for a Redis error on that call. */
  class CarStateCache {
    const redis: Redis
    /** REDIS_KEY_CAR_CURRENT */
    const template: string

    constructor(redis: Redis, template: string)
      ensures this.redis == redis && this.template == template
    {
      this.redis := redis;
      this.template := template;
    }

    /** GetCarState */
    method GetCarState(carId: string, readFails: bool) returns (r: Result<Option<CarTelemetry>, string>)
      ensures readFails ==> r.Failure?
      ensures !readFails ==> r == Lookup(redis.entries, template, carId)
    {
      if readFails {
        return Failure("error getting car state from redis");
      }
      r := Lookup(redis.entries, template, carId);
    }

    /** SaveCarState: an empty car id is skipped before Redis is touched, so it cannot fail. */
    method SaveCarState(t: CarTelemetry, writeFails: bool) returns (err: Option<string>)
      modifies redis
      ensures err.Some? <==> writeFails && t.carId != ""
      ensures err.Some? ==> redis.entries == old(redis.entries)
      ensures err.None? ==> redis.entries == Save(old(redis.entries), template, t)
    {
      if t.carId == "" {
        return None;
      }
      if writeFails {
        return Some("error saving car state to redis");
      }
      redis.entries := Save(redis.entries, template, t);
      err := None;
    }
  }
}
