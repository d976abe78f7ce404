/**
 * The stream processor's Kafka consumer
 * (processing/internal/repository/consumer.go): reads decoded records off the
 * raw-telemetry topic and keeps every message read in a pending buffer until
 * a commit succeeds.
 */
module ProcessingConsumer {
  import opened Wrappers
  import opened Records

  /** A message as the reader returns it. */
  datatype KafkaMessage = KafkaMessage(key: string, value: Json, timeUnix: Int64, offset: nat)

  /**
   * What one ReadMessage call yields: a message, the read deadline or a
   * cancellation, or another error.
   */
  datatype ReadOutcome = Delivered(msg: KafkaMessage) | TimedOut | Cancelled | ReadFailed(error: string)

  /**
   * The record a message carries: the decoded payload (the zero record when it
   * does not decode), with the car id taken from the key and the receive time
   * from the message timestamp.
   */
  function ToTelemetry(m: KafkaMessage): (t: CarTelemetry)
    ensures t.carId == m.key && t.receivedAt == m.timeUnix
    ensures m.value.Malformed? ==> t.snap == ZeroSnapshot
    ensures m.value.TelemetryJson? ==> t.snap == m.value.tel.snap
  {
    DecodeCarTelemetry(m.value).GetOr(ZeroTelemetry).(carId := m.key, receivedAt := m.timeUnix)
  }

  function ToTelemetries(ms: seq<KafkaMessage>): (ts: seq<CarTelemetry>)
    ensures |ts| == |ms|
    ensures forall i :: 0 <= i < |ms| ==> ts[i] == ToTelemetry(ms[i])
  {
    seq(|ms|, i requires 0 <= i < |ms| => ToTelemetry(ms[i]))
  }

  /**
   * The outcome of reading up to `count` messages from `incoming`: the
   * messages delivered, how many reads were made, and the error if one ended
   * the reading. When `incoming` runs out, the read deadline has passed.
   */
  datatype Fetch = Fetch(delivered: seq<KafkaMessage>, readCount: nat, error: Option<string>)

  function Fetched(incoming: seq<ReadOutcome>, count: int): (f: Fetch)
    ensures |f.delivered| <= f.readCount <= |incoming|
    ensures count <= 0 ==> f.readCount == 0
    ensures |f.delivered| <= if count < 0 then 0 else count
    decreases |incoming|
  {
    if count <= 0 || incoming == [] then Fetch([], 0, None)
    else match incoming[0]
      case Delivered(m) =>
        var rest := Fetched(incoming[1..], count - 1);
        Fetch([m] + rest.delivered, rest.readCount + 1, rest.error)
      case TimedOut => Fetch([], 1, None)
      case Cancelled => Fetch([], 1, None)
      case ReadFailed(e) => Fetch([], 1, Some(e))
  }

  /** A fetch preceded by the delivery of `ms`. */
  function After(ms: seq<KafkaMessage>, f: Fetch): Fetch
  {
    Fetch(ms + f.delivered, |ms| + f.readCount, f.error)
  }

  /** The records returned are the messages read, in read order, and an error is the read that failed. */
  lemma {:induction false} FetchedInReadOrder(incoming: seq<ReadOutcome>, count: int)
    ensures var f := Fetched(incoming, count);
      && (forall i :: 0 <= i < |f.delivered| ==> incoming[i] == Delivered(f.delivered[i]))
      && (f.error.Some? ==> f.readCount > 0 && incoming[f.readCount - 1] == ReadFailed(f.error.value))
    decreases |incoming|
  {
    if count > 0 && incoming != [] && incoming[0].Delivered? {
      FetchedInReadOrder(incoming[1..], count - 1);
    }
  }

  lemma ToTelemetriesSnoc(ms: seq<KafkaMessage>, m: KafkaMessage)
    ensures ToTelemetries(ms + [m]) == ToTelemetries(ms) + [ToTelemetry(m)]
  {
  }

  /** One read of the fetch loop, seen from the messages delivered so far. */
  lemma FetchStep(incoming: seq<ReadOutcome>, count: int, delivered: seq<KafkaMessage>)
    requires incoming != [] && count > 0
    ensures incoming[0].Delivered? ==>
      After(delivered, Fetched(incoming, count)) == After(delivered + [incoming[0].msg], Fetched(incoming[1..], count - 1))
    ensures incoming[0].TimedOut? || incoming[0].Cancelled? ==>
      After(delivered, Fetched(incoming, count)) == Fetch(delivered, |delivered| + 1, None)
    ensures incoming[0].ReadFailed? ==>
      After(delivered, Fetched(incoming, count)) == Fetch(delivered, |delivered| + 1, Some(incoming[0].error))
  {
    if incoming[0].Delivered? {
      var rest := Fetched(incoming[1..], count - 1);
      assert (delivered + [incoming[0].msg]) + rest.delivered == delivered + ([incoming[0].msg] + rest.delivered);
    }
  }

  class KafkaConsumer {
    /** The outcomes the reader will produce next, in order. */
    var incoming: seq<ReadOutcome>
    /** lastMessages: messages read since the last successful commit. */
    var pending: seq<KafkaMessage>
    /** Messages whose offsets have been committed. */
    var committed: seq<KafkaMessage>

    constructor(incoming: seq<ReadOutcome>)
      ensures this.incoming == incoming && pending == [] && committed == []
    {
      this.incoming := incoming;
      pending := [];
      committed := [];
    }

    /**
     * GetMessages: read until `count` records are collected; a deadline or a
     * cancellation ends reading with what was collected, any other read error
     * returns no records. Every message read joins the pending buffer, even
     * when a later read fails.
     */
    method GetMessages(count: int) returns (r: Result<seq<CarTelemetry>, string>)
      modifies this
      ensures var f := Fetched(old(incoming), count);
        && incoming == old(incoming)[f.readCount..]
        && pending == old(pending) + f.delivered
        && committed == old(committed)
        && r == if f.error.Some? then Failure(f.error.value) else Success(ToTelemetries(f.delivered))
    {
      var readCount, delivered;
      readCount, delivered, r := ReadMessages(incoming, count);
      incoming := incoming[readCount..];
      pending := pending + delivered;
    }

    /** Commit: on success the pending buffer is committed and emptied; on failure it is kept for the next commit. */
    method Commit(commitFails: bool) returns (err: Option<string>)
      modifies this
      ensures err.Some? <==> commitFails
      ensures commitFails ==> pending == old(pending) && committed == old(committed)
      ensures !commitFails ==> pending == [] && committed == old(committed) + old(pending)
      ensures incoming == old(incoming)
    {
      if commitFails {
        return Some("error committing messages");
      }
      committed := committed + pending;
      pending := [];
      err := None;
    }
  }

  /**
   * The reading loop of GetMessages over the reader's upcoming outcomes:
   * how many reads it made, the messages it appended to the pending buffer,
   * and what GetMessages returns.
   */
  method ReadMessages(incoming: seq<ReadOutcome>, count: int)
    returns (readCount: nat, delivered: seq<KafkaMessage>, r: Result<seq<CarTelemetry>, string>)
    ensures var f := Fetched(incoming, count);
      && readCount == f.readCount && delivered == f.delivered
      && r == if f.error.Some? then Failure(f.error.value) else Success(ToTelemetries(f.delivered))
  {
    var rest := incoming;
    var messages: seq<CarTelemetry> := [];
    delivered := [];
    while |messages| < count
      invariant Reading(incoming, count, rest, delivered, messages)
      decreases |rest|
    {
      if rest == [] {
        break;
      }
      var outcome := rest[0];
      ReadOne(incoming, count, rest, delivered, messages);
      match outcome
      case TimedOut =>
        return |delivered| + 1, delivered, Success(messages);
      case Cancelled =>
        return |delivered| + 1, delivered, Success(messages);
      case ReadFailed(e) =>
        return |delivered| + 1, delivered, Failure(e);
      case Delivered(msg) =>
        rest := rest[1..];
        messages := messages + [ToTelemetry(msg)];
        delivered := delivered + [msg];
    }
    assert delivered + [] == delivered;
    readCount := |delivered|;
    r := Success(messages);
  }

  /**
   * The loop state of ReadMessages: `delivered` are the messages read so far,
   * `rest` the outcomes still to come, and the fetch of `incoming` is the
   * messages read followed by the fetch of what remains.
   */
  ghost predicate Reading(incoming: seq<ReadOutcome>, count: int, rest: seq<ReadOutcome>,
                          delivered: seq<KafkaMessage>, messages: seq<CarTelemetry>)
  {
    && |delivered| <= |incoming| && rest == incoming[|delivered|..]
    && messages == ToTelemetries(delivered)
    && Fetched(incoming, count) == After(delivered, Fetched(rest, count - |messages|))
  }

  /** One read of ReadMessages: a delivery keeps the loop state, anything else ends the fetch. */
  lemma ReadOne(incoming: seq<ReadOutcome>, count: int, rest: seq<ReadOutcome>,
                delivered: seq<KafkaMessage>, messages: seq<CarTelemetry>)
    requires Reading(incoming, count, rest, delivered, messages)
    requires rest != [] && |messages| < count
    ensures rest[0].Delivered? ==>
      Reading(incoming, count, rest[1..], delivered + [rest[0].msg], messages + [ToTelemetry(rest[0].msg)])
    ensures rest[0].TimedOut? || rest[0].Cancelled? ==>
      Fetched(incoming, count) == Fetch(delivered, |delivered| + 1, None)
    ensures rest[0].ReadFailed? ==>
      Fetched(incoming, count) == Fetch(delivered, |delivered| + 1, Some(rest[0].error))
  {
    FetchStep(rest, count - |messages|, delivered);
    if rest[0].Delivered? {
      assert incoming[|delivered| + 1..] == rest[1..];
      ToTelemetriesSnoc(delivered, rest[0].msg);
    }
  }

  /** A payload that does not decode is still returned, as the zero record with its car id. */
  lemma UndecodableIsKept(m: KafkaMessage, rest: seq<ReadOutcome>, count: int)
    requires m.value.Malformed? && count >= 1
    ensures var f := Fetched([Delivered(m)] + rest, count);
      |f.delivered| >= 1 && ToTelemetry(f.delivered[0]) == CarTelemetry(ZeroSnapshot, m.key, m.timeUnix)
  {
    assert ([Delivered(m)] + rest)[1..] == rest;
  }

  /** A deadline or cancellation ends the fetch without an error, keeping what was read before. */
  lemma {:induction false} DeadlineKeepsCollected(ms: seq<KafkaMessage>, stop: ReadOutcome, rest: seq<ReadOutcome>)
    requires stop == TimedOut || stop == Cancelled
    ensures var f := Fetched(DeliveredAll(ms) + [stop] + rest, |ms| + 1);
      f.error.None? && f.delivered == ms && f.readCount == |ms| + 1
    decreases |ms|
  {
    if ms != [] {
      DeadlineKeepsCollected(ms[1..], stop, rest);
      assert (DeliveredAll(ms) + [stop] + rest)[1..] == DeliveredAll(ms[1..]) + [stop] + rest;
      assert [ms[0]] + ms[1..] == ms;
    }
  }

  function DeliveredAll(ms: seq<KafkaMessage>): (os: seq<ReadOutcome>)
    ensures |os| == |ms|
  {
    if ms == [] then [] else [Delivered(ms[0])] + DeliveredAll(ms[1..])
  }
}
