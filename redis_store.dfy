/**
 * The Redis instance shared by the ingestion cache, the processing cache and
 * the admin read side: a map from key to value, each string value with its
 * expiry. Expiry is recorded, not enforced: time does not pass in this model.
 */
module RedisStore {
  import opened Records

  datatype Expiry = NoExpiry | ExpiresIn(seconds: nat)

  /** A string value holding a JSON document, or a value of another Redis type. */
  datatype RedisValue = StringValue(payload: Json, expiry: Expiry) | NonString

  const DayInSeconds: nat := 24 * 60 * 60

  class Redis {
    var entries: map<string, RedisValue>

    constructor()
      ensures entries == map[]
    {
      entries := map[];
    }
  }
}
