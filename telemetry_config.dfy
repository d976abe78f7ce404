/**
 * Environment-driven configuration of the ingestion service
 * (telemetry/internal/config/config.go). The process environment is a
 * parameter; `log.Fatal` becomes a `Failure` carrying the message.
 */
module TelemetryConfig {
  import opened Wrappers
  import opened Records
  import opened Text

  /** The process environment. An unset variable reads as "". */
  type Env = map<string, string>

  function Getenv(env: Env, key: string): string
  {
    if key in env then env[key] else ""
  }

  /** getDefault: the variable when it is non-empty, otherwise the default. */
  function GetDefault(env: Env, key: string, def: string): (v: string)
    ensures Getenv(env, key) != "" ==> v == env[key]
    ensures Getenv(env, key) == "" ==> v == def
    ensures def != "" ==> v != ""
  {
    var v := Getenv(env, key);
    if v == "" then def else v
  }

  /** getIntDefault: the default when unset, the parsed value when it parses, a fatal error otherwise. */
  function GetIntDefault(env: Env, key: string, def: Int64): (r: Result<Int64, string>)
    ensures Getenv(env, key) == "" ==> r == Success(def)
    ensures Getenv(env, key) != "" ==> (r.Success? <==> ParseInt64(env[key]).Some?)
    ensures r.Success? && Getenv(env, key) != "" ==> Some(r.value) == ParseInt64(env[key])
  {
    var s := Getenv(env, key);
    if s == "" then Success(def)
    else match ParseInt64(s)
      case Some(i) => Success(i)
      case None => Failure("error parsing int from env " + key)
  }

  /**
   * getFloatDefault. Parsing a float is left to `parseFloat`, which stands for
   * strconv.ParseFloat.
   */
  function GetFloatDefault(env: Env, key: string, def: real, parseFloat: string -> Option<real>): (r: Result<real, string>)
    ensures Getenv(env, key) == "" ==> r == Success(def)
    ensures Getenv(env, key) != "" ==> (r.Success? <==> parseFloat(env[key]).Some?)
  {
    var s := Getenv(env, key);
    if s == "" then Success(def)
    else match parseFloat(s)
      case Some(f) => Success(f)
      case None => Failure("error parsing float from env " + key)
  }

  /** What getSliceDefault returns: the default when unset, else the non-empty comma-separated fields in order. */
  function SliceDefault(env: Env, key: string, def: seq<string>): seq<string>
  {
    var s := Getenv(env, key);
    if s == "" then def else NonEmpty(Split(s, ','))
  }

  /** getSliceDefault: one pass over the value, cutting at each comma and keeping only non-empty fields. */
  method GetSliceDefault(env: Env, key: string, def: seq<string>) returns (result: seq<string>)
    ensures result == SliceDefault(env, key, def)
  {
    var s := Getenv(env, key);
    if s == "" {
      return def;
    }
    result := [];
    var start := 0;
    ghost var done: seq<string> := [];
    var i := 0;
    while i < |s|
      invariant Scanned(s, i, start, done, result)
    {
      ScanAdvance(s, i, start, done, result);
      if s[i] == ',' {
        if i > start {
          result := result + [s[start..i]];
        }
        done := done + [s[start..i]];
        start := i + 1;
      }
      i := i + 1;
    }
    ScanEnd(s, start, done, result);
    if start < |s| {
      result := result + [s[start..]];
    }
  }

  /**
   * The loop invariant of GetSliceDefault: after the first `i` characters,
   * `done` holds the fields closed by a comma, the open field starts at
   * `start`, and `result` holds the non-empty closed fields.
   */
  ghost predicate Scanned(s: string, i: int, start: int, done: seq<string>, result: seq<string>)
  {
    && 0 <= start <= i <= |s|
    && Split(s[..i], ',') == done + [s[start..i]]
    && NonEmpty(done) == result
  }

  /** The loop invariant of GetSliceDefault survives one more character. */
  lemma ScanAdvance(s: string, i: int, start: int, done: seq<string>, result: seq<string>)
    requires Scanned(s, i, start, done, result) && i < |s|
    ensures s[i] == ',' ==>
      Scanned(s, i + 1, i + 1, done + [s[start..i]], if i > start then result + [s[start..i]] else result)
    ensures s[i] != ',' ==> Scanned(s, i + 1, start, done, result)
  {
    if s[i] == ',' {
      ScanComma(s, i, start, done, result);
    } else {
      ScanOther(s, i, start, done, result);
    }
  }

  /** A comma closes the open field, which joins the result when it is not empty. */
  lemma ScanComma(s: string, i: int, start: int, done: seq<string>, result: seq<string>)
    requires Scanned(s, i, start, done, result) && i < |s| && s[i] == ','
    ensures Scanned(s, i + 1, i + 1, done + [s[start..i]], if i > start then result + [s[start..i]] else result)
  {
    var field := s[start..i];
    assert s[..i + 1] == s[..i] + [','];
    SplitSnocSeparator(s[..i], ',');
    assert s[i + 1..i + 1] == [];
    NonEmptySnoc(done, field);
  }

  /** Any other character extends the open field. */
  lemma ScanOther(s: string, i: int, start: int, done: seq<string>, result: seq<string>)
    requires Scanned(s, i, start, done, result) && i < |s| && s[i] != ','
    ensures Scanned(s, i + 1, start, done, result)
  {
    var field := s[start..i];
    assert s[..i + 1] == s[..i] + [s[i]];
    assert field + [s[i]] == s[start..i + 1];
    assert ExtendLast([field], s[i]) == [s[start..i + 1]];
    calc {
      Split(s[..i + 1], ',');
      { SplitSnocOther(s[..i], ',', s[i]); }
      ExtendLast(done + [field], s[i]);
      { ExtendLastConcat(done, [field], s[i]); }
      done + [s[start..i + 1]];
    }
  }

  /** When the scan is over, the fields seen plus the tail are the whole split. */
  lemma ScanEnd(s: string, start: int, done: seq<string>, result: seq<string>)
    requires Scanned(s, |s|, start, done, result)
    ensures NonEmpty(Split(s, ',')) == result + (if start < |s| then [s[start..]] else [])
  {
    assert s[..|s|] == s;
    NonEmptySnoc(done, s[start..]);
  }

  lemma NonEmptySnoc(parts: seq<string>, p: string)
    ensures NonEmpty(parts + [p]) == NonEmpty(parts) + (if p == [] then [] else [p])
  {
    assert (parts + [p])[..|parts|] == parts;
  }

  /** The split never yields an empty field or one containing a comma. */
  lemma {:induction false} SliceFieldsAreClean(env: Env, key: string, def: seq<string>)
    requires Getenv(env, key) != ""
    ensures forall p :: p in SliceDefault(env, key, def) ==> p != "" && ',' !in p
  {
    SplitHasNoSeparator(env[key], ',');
  }

  /** A value without commas is one field, dropped when empty. */
  lemma {:induction false} SliceOfOneField(p: string)
    requires ',' !in p
    ensures NonEmpty(Split(p, ',')) == if p == "" then [] else [p]
  {
    SplitWithoutSeparator(p, ',');
    assert [p][..0] == [];
  }

  /**
   * Fields keep their source order: the fields before a comma come first,
   * then those after it, with nothing lost or added at the cut.
   */
  lemma {:induction false} SliceConcat(a: string, b: string)
    ensures NonEmpty(Split(a + [','] + b, ',')) == NonEmpty(Split(a, ',')) + NonEmpty(Split(b, ','))
  {
    SplitConcat(a, ',', b);
    NonEmptyConcat(Split(a, ','), Split(b, ','));
  }

  /** Consecutive commas leave no empty field behind: "a,,b" gives ["a", "b"]. */
  lemma {:induction false} SliceDropsInnerEmpty(a: string, b: string)
    requires a != "" && b != "" && ',' !in a && ',' !in b
    ensures NonEmpty(Split(a + [',', ','] + b, ',')) == [a, b]
  {
    var rest := [] + [','] + b;
    assert a + [',', ','] + b == a + [','] + rest;
    calc {
      NonEmpty(Split(rest, ','));
      { SliceConcat([], b); }
      NonEmpty(Split([], ',')) + NonEmpty(Split(b, ','));
      { SliceOfOneField([]); SliceOfOneField(b); }
      [b];
    }
    calc {
      NonEmpty(Split(a + [','] + rest, ','));
      { SliceConcat(a, rest); }
      NonEmpty(Split(a, ',')) + NonEmpty(Split(rest, ','));
      { SliceOfOneField(a); }
      [a] + [b];
    }
  }

  /** Leading and trailing commas leave no empty field behind: ",a," gives ["a"]. */
  lemma {:induction false} SliceDropsOuterEmpty(a: string)
    requires a != "" && ',' !in a
    ensures NonEmpty(Split([','] + a + [','], ',')) == [a]
  {
    var rest := a + [','] + [];
    assert [','] + a + [','] == [] + [','] + rest;
    SliceConcat([], rest);
    SliceConcat(a, []);
    SliceOfOneField(a);
    SliceOfOneField([]);
  }

  /** The raw-telemetry topic: KAFKA_TOPIC_TELEMETRY_RAW, else KAFKA_TOPIC_TELEMETRY, else "telemetry.raw". */
  function TelemetryTopic(env: Env): (topic: string)
    ensures topic != ""
    ensures Getenv(env, "KAFKA_TOPIC_TELEMETRY_RAW") != "" ==> topic == env["KAFKA_TOPIC_TELEMETRY_RAW"]
    ensures Getenv(env, "KAFKA_TOPIC_TELEMETRY_RAW") == "" && Getenv(env, "KAFKA_TOPIC_TELEMETRY") != ""
      ==> topic == env["KAFKA_TOPIC_TELEMETRY"]
    ensures Getenv(env, "KAFKA_TOPIC_TELEMETRY_RAW") == "" && Getenv(env, "KAFKA_TOPIC_TELEMETRY") == ""
      ==> topic == "telemetry.raw"
  {
    var topic := Getenv(env, "KAFKA_TOPIC_TELEMETRY_RAW");
    var topic := if topic == "" then Getenv(env, "KAFKA_TOPIC_TELEMETRY") else topic;
    if topic == "" then "telemetry.raw" else topic
  }

  /** The violations topic: KAFKA_TOPIC_VIOLATIONS, else KAFKA_TOPIC_ALERTS, else "telemetry.violations". */
  function ViolationsTopic(env: Env): (topic: string)
    ensures topic != ""
    ensures Getenv(env, "KAFKA_TOPIC_VIOLATIONS") != "" ==> topic == env["KAFKA_TOPIC_VIOLATIONS"]
    ensures Getenv(env, "KAFKA_TOPIC_VIOLATIONS") == "" && Getenv(env, "KAFKA_TOPIC_ALERTS") != ""
      ==> topic == env["KAFKA_TOPIC_ALERTS"]
    ensures Getenv(env, "KAFKA_TOPIC_VIOLATIONS") == "" && Getenv(env, "KAFKA_TOPIC_ALERTS") == ""
      ==> topic == "telemetry.violations"
  {
    var topic := Getenv(env, "KAFKA_TOPIC_VIOLATIONS");
    var topic := if topic == "" then Getenv(env, "KAFKA_TOPIC_ALERTS") else topic;
    if topic == "" then "telemetry.violations" else topic
  }

  datatype GrpcConfig = GrpcConfig(port: string, maxConcurrentStreams: nat, maxRecvMsgSize: Int64)

  datatype RedisConfig = RedisConfig(host: string, port: string, password: string, db: Int64, poolSize: Int64)

  datatype KafkaConfig = KafkaConfig(
    brokers: seq<string>, clientId: string, telemetryTopic: string, violationsTopic: string,
    producerAcks: string, retries: Int64, batchSize: Int64, compression: string)

  /** The rule-engine limits. Go `int` is 64 bits wide. */
  datatype ViolationsConfig = ViolationsConfig(
    speedLimit: Int64, speedMedium: Int64, speedHigh: Int64, driftRpmLimit: Int64, lowFuelLimit: real)

  datatype AppConfig = AppConfig(env: string, logLevel: string, serviceName: string, metricsPort: string)

  datatype ProcessingConfig = ProcessingConfig(workerPoolSize: Int64, queueSize: Int64)

  datatype Config = Config(
    grpc: GrpcConfig, redis: RedisConfig, kafka: KafkaConfig, violations: ViolationsConfig,
    app: AppConfig, processing: ProcessingConfig)

  const DefaultBrokers: seq<string> := ["localhost:9092"]

  const DefaultViolations := ViolationsConfig(110, 130, 150, 5000, 2.0)

  /** Go's uint32(...) conversion of a 64-bit int keeps the low 32 bits. */
  function ToUint32(x: int): (r: nat)
    ensures r < 0x1_0000_0000
    ensures 0 <= x < 0x1_0000_0000 ==> r == x
  {
    x % 0x1_0000_0000
  }

  /**
   * LoadTelemetryConfig. The numeric variables are read in the order the
   * struct literal names them, so the first unparsable one is the fatal error.
   */
  function Load(env: Env, parseFloat: string -> Option<real>): (r: Result<Config, string>)
    ensures r.Success? ==> r.value.kafka.telemetryTopic == TelemetryTopic(env)
    ensures r.Success? ==> r.value.kafka.violationsTopic == ViolationsTopic(env)
    ensures r.Success? ==> r.value.kafka.brokers == SliceDefault(env, "KAFKA_BROKERS", DefaultBrokers)
    ensures r.Success? ==> r.value.redis.host == GetDefault(env, "REDIS_HOST", "localhost")
  {
    var maxStreams :- GetIntDefault(env, "GRPC_MAX_CONCURRENT_STREAMS", 1000);
    var maxRecv :- GetIntDefault(env, "GRPC_MAX_RECV_MSG_SIZE", 10485760);
    var db :- GetIntDefault(env, "REDIS_DB", 0);
    var poolSize :- GetIntDefault(env, "REDIS_POOL_SIZE", 100);
    var retries :- GetIntDefault(env, "KAFKA_PRODUCER_RETRIES", 3);
    var batchSize :- GetIntDefault(env, "KAFKA_PRODUCER_BATCH_SIZE", 1000000);
    var speedLimit :- GetIntDefault(env, "VIOLATION_SPEED_LIMIT", 110);
    var speedMedium :- GetIntDefault(env, "VIOLATION_SPEED_MEDIUM", 130);
    var speedHigh :- GetIntDefault(env, "VIOLATION_SPEED_HIGH", 150);
    var driftRpm :- GetIntDefault(env, "VIOLATION_DRIFT_RPM_LIMIT", 5000);
    var lowFuel :- GetFloatDefault(env, "VIOLATION_LOW_FUEL_LIMIT", 2.0, parseFloat);
    var workers :- GetIntDefault(env, "TELEMETRY_WORKER_POOL_SIZE", 10);
    var queueSize :- GetIntDefault(env, "TELEMETRY_QUEUE_SIZE", 1000);
    Success(Config(
      GrpcConfig(GetDefault(env, "GRPC_PORT", "50052"), ToUint32(maxStreams), maxRecv),
      RedisConfig(
        GetDefault(env, "REDIS_HOST", "localhost"), GetDefault(env, "REDIS_PORT", "6379"),
        GetDefault(env, "REDIS_PASSWORD", ""), db, poolSize),
      KafkaConfig(
        SliceDefault(env, "KAFKA_BROKERS", DefaultBrokers),
        GetDefault(env, "KAFKA_CLIENT_ID", "telemetry-ingestion"),
        TelemetryTopic(env), ViolationsTopic(env),
        GetDefault(env, "KAFKA_PRODUCER_ACKS", "all"), retries, batchSize,
        GetDefault(env, "KAFKA_PRODUCER_COMPRESSION", "lz4")),
      ViolationsConfig(speedLimit, speedMedium, speedHigh, driftRpm, lowFuel),
      AppConfig(
        GetDefault(env, "ENV", "development"), GetDefault(env, "LOG_LEVEL", "info"),
        GetDefault(env, "SERVICE_NAME", "telemetry-ingestion"), GetDefault(env, "METRICS_PORT", "9090")),
      ProcessingConfig(workers, queueSize)))
  }

  predicate ValidConfig(c: Config)
  {
    && |c.kafka.brokers| > 0
    && c.redis.host != ""
    && c.violations.speedLimit > 0
    && 0.0 <= c.violations.lowFuelLimit <= 100.0
  }

  /** Validate: the checks run in a fixed order and the first one that fails is fatal. */
  function Validate(c: Config): (r: Result<(), string>)
    ensures r.Success? <==> ValidConfig(c)
    ensures |c.kafka.brokers| == 0 ==> r == Failure("KAFKA_BROKERS is required")
    ensures |c.kafka.brokers| > 0 && c.redis.host == "" ==> r == Failure("REDIS_HOST is required")
    ensures |c.kafka.brokers| > 0 && c.redis.host != "" && c.violations.speedLimit <= 0
      ==> r == Failure("VIOLATION_SPEED_LIMIT must be positive")
  {
    if |c.kafka.brokers| == 0 then Failure("KAFKA_BROKERS is required")
    else if c.redis.host == "" then Failure("REDIS_HOST is required")
    else if c.violations.speedLimit <= 0 then Failure("VIOLATION_SPEED_LIMIT must be positive")
    else if c.violations.lowFuelLimit < 0.0 || c.violations.lowFuelLimit > 100.0 then
      Failure("VIOLATION_LOW_FUEL_LIMIT must be between 0 and 100")
    else Success(())
  }

  /** With an empty environment every default applies, and the result is valid. */
  lemma DefaultsAreValid(parseFloat: string -> Option<real>)
    ensures var r := Load(map[], parseFloat);
      && r.Success?
      && r.value.violations == DefaultViolations
      && r.value.kafka.brokers == DefaultBrokers
      && r.value.kafka.telemetryTopic == "telemetry.raw"
      && r.value.kafka.violationsTopic == "telemetry.violations"
      && r.value.kafka.producerAcks == "all"
      && r.value.kafka.compression == "lz4"
      && Validate(r.value).Success?
  {
  }

  /** A broker list made only of commas loads, but is rejected as empty. */
  lemma {:induction false} OnlyCommasHaveNoBrokers(env: Env, parseFloat: string -> Option<real>)
    requires Getenv(env, "KAFKA_BROKERS") == ","
    requires Load(env, parseFloat).Success?
    ensures Load(env, parseFloat).value.kafka.brokers == []
    ensures Validate(Load(env, parseFloat).value) == Failure("KAFKA_BROKERS is required")
  {
    assert "," == [] + [','] + [];
    SliceConcat([], []);
    SliceOfOneField([]);
  }
}
