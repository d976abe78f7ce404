/**
 * The ingestion service's Kafka producer
 * (telemetry/internal/producer/kafkaProducer.go): two writers, one per
 * topic, modelled by the messages each has written.
 */
module TelemetryProducer {
  import opened Wrappers
  import opened Records
  import opened TelemetryConfig

  datatype RequiredAcks = RequireOne | RequireAll

  datatype Compression = Gzip | Lz4

  /** A Kafka message: the partitioning key and the JSON value. */
  datatype Message = Message(key: string, value: Json)

  /** The producer-acks option: "one" waits for the leader only; "all" and anything else wait for all replicas. */
  function AcksFor(option: string): (acks: RequiredAcks)
    ensures acks == RequireOne <==> option == "one"
  {
    match option
    case "all" => RequireAll
    case "one" => RequireOne
    case _ => RequireAll
  }

  /** The compression option: "gzip" selects gzip; "lz4" and anything else select lz4. */
  function CompressionFor(option: string): (c: Compression)
    ensures c == Gzip <==> option == "gzip"
  {
    match option
    case "lz4" => Lz4
    case "gzip" => Gzip
    case _ => Lz4
  }

  /** The writer named "violations" writes to the violations topic; any other name to the telemetry topic. */
  function TopicFor(cfg: KafkaConfig, name: string): (topic: string)
    ensures name == "violations" ==> topic == cfg.violationsTopic
    ensures name != "violations" ==> topic == cfg.telemetryTopic
  {
    if name == "violations" then cfg.violationsTopic else cfg.telemetryTopic
  }

  datatype WriterSettings = WriterSettings(
    brokers: seq<string>, topic: string, acks: RequiredAcks, maxAttempts: Int64,
    batchSize: Int64, compression: Compression)

  /**
   * How creating a writer ends: with the writer, with an error, or in a Go
   * run-time panic (an index into an empty broker list), which nothing in
   * the service recovers from.
   */
  datatype Creation<T> = Created(value: T) | CreateFailed(error: string) | Panicked

  /**
   * createWriter. `reachable(broker, topic)` stands for dialling the topic's
   * leader through the first broker, which the source indexes without a
   * check: an empty broker list panics.
   */
  function CreateWriter(cfg: KafkaConfig, name: string, reachable: (string, string) -> bool): (r: Creation<WriterSettings>)
    ensures r.Panicked? <==> cfg.brokers == []
    ensures r.Created? <==> cfg.brokers != [] && reachable(cfg.brokers[0], TopicFor(cfg, name))
    ensures r.Created? ==> r.value.topic == TopicFor(cfg, name) && r.value.brokers == cfg.brokers
    ensures r.Created? ==> r.value.acks == AcksFor(cfg.producerAcks) && r.value.compression == CompressionFor(cfg.compression)
  {
    var topic := TopicFor(cfg, name);
    if cfg.brokers == [] then Panicked
    else if reachable(cfg.brokers[0], topic) then
      Created(WriterSettings(cfg.brokers, topic, AcksFor(cfg.producerAcks), cfg.retries, cfg.batchSize, CompressionFor(cfg.compression)))
    else
      CreateFailed("kafka topic " + topic + " not available")
  }

  /** NewKafkaProducer's writers: the telemetry writer, then the violations writer; either failing fails construction. */
  function CreateWriters(cfg: KafkaConfig, reachable: (string, string) -> bool): (r: Creation<(WriterSettings, WriterSettings)>)
    ensures r.Panicked? <==> cfg.brokers == []
    ensures r.Created? <==> cfg.brokers != [] && reachable(cfg.brokers[0], cfg.telemetryTopic) && reachable(cfg.brokers[0], cfg.violationsTopic)
    ensures r.Created? ==> r.value.0.topic == cfg.telemetryTopic && r.value.1.topic == cfg.violationsTopic
    ensures r.CreateFailed? && !reachable(cfg.brokers[0], cfg.telemetryTopic) ==>
      r.error == "kafka topic " + cfg.telemetryTopic + " not available"
  {
    match CreateWriter(cfg, "telemetry", reachable)
    case Panicked => Panicked
    case CreateFailed(e) => CreateFailed(e)
    case Created(telemetry) =>
      match CreateWriter(cfg, "violations", reachable)
      case Panicked => Panicked
      case CreateFailed(e) => CreateFailed(e)
      case Created(violations) => Created((telemetry, violations))
  }

  /**
   * The ingestion service does not validate its configuration: a broker list
   * of only commas loads as no brokers, and building the producer panics.
   */
  lemma OnlyCommasPanic(env: Env, parseFloat: string -> Option<real>, reachable: (string, string) -> bool)
    requires Getenv(env, "KAFKA_BROKERS") == ","
    requires Load(env, parseFloat).Success?
    ensures CreateWriters(Load(env, parseFloat).value.kafka, reachable) == Panicked
  {
    OnlyCommasHaveNoBrokers(env, parseFloat);
  }

  class KafkaProducer {
    const telemetryWriter: WriterSettings
    const violationsWriter: WriterSettings
    /** The messages written to each topic so far. */
    var telemetrySent: seq<Message>
    var violationsSent: seq<Message>
    var telemetryOpen: bool
    var violationsOpen: bool

    constructor(writers: (WriterSettings, WriterSettings))
      ensures telemetryWriter == writers.0 && violationsWriter == writers.1
      ensures telemetrySent == [] && violationsSent == []
      ensures telemetryOpen && violationsOpen
    {
      telemetryWriter := writers.0;
      violationsWriter := writers.1;
      telemetrySent := [];
      violationsSent := [];
      telemetryOpen := true;
      violationsOpen := true;
    }

    /** SendTelemetry: one message on the telemetry topic, keyed by car id, unless the write fails. */
    method SendTelemetry(carId: string, data: Snapshot, writeFails: bool) returns (err: Option<string>)
      modifies this
      ensures err == if writeFails then Some("failed to write message in telemetry Topic") else None
      ensures writeFails ==> telemetrySent == old(telemetrySent)
      ensures !writeFails ==> telemetrySent == old(telemetrySent) + [Message(carId, SnapshotJson(data))]
      ensures violationsSent == old(violationsSent)
      ensures telemetryOpen == old(telemetryOpen) && violationsOpen == old(violationsOpen)
    {
      if writeFails {
        return Some("failed to write message in telemetry Topic");
      }
      telemetrySent := telemetrySent + [Message(carId, SnapshotJson(data))];
      err := None;
    }

    /** SendViolation: one message on the violations topic, keyed by the violation's type, unless the write fails. */
    method SendViolation(v: Violation, writeFails: bool) returns (err: Option<string>)
      modifies this
      ensures err == if writeFails then Some("failed to write message in violation Topic") else None
      ensures writeFails ==> violationsSent == old(violationsSent)
      ensures !writeFails ==> violationsSent == old(violationsSent) + [Message(KindName(v.kind), ViolationJson(v))]
      ensures telemetrySent == old(telemetrySent)
      ensures telemetryOpen == old(telemetryOpen) && violationsOpen == old(violationsOpen)
    {
      if writeFails {
        return Some("failed to write message in violation Topic");
      }
      violationsSent := violationsSent + [Message(KindName(v.kind), ViolationJson(v))];
      err := None;
    }

    /** Close: both writers are closed whatever happens to the first; an error iff either close failed. */
    method Close(telemetryCloseFails: bool, violationsCloseFails: bool) returns (err: Option<string>)
      modifies this
      ensures !telemetryOpen && !violationsOpen
      ensures err.Some? <==> telemetryCloseFails || violationsCloseFails
      ensures telemetrySent == old(telemetrySent) && violationsSent == old(violationsSent)
    {
      telemetryOpen := false;
      violationsOpen := false;
      if telemetryCloseFails || violationsCloseFails {
        return Some("failed to close kafka producers");
      }
      err := None;
    }
  }
}
