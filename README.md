# CityDrive telemetry pipeline, modelled in Dafny

CityDrive is a car-sharing fleet backend made of Go services that share one
telemetry record per car:

- **API gateway.** The gateway validates the records cars send and forwards
  them over gRPC. It authenticates users and cars with bearer JWTs. It also
  serves the admin HTTP API: cars now, one car, one car's history and all
  cars' history.
- **Ingestion service** (`telemetry`). For each record it:
  - publishes the raw record to Kafka;
  - compares the record with the last one it cached in Redis under
    `car:state:<id>`;
  - on a change, refreshes the cache (24-hour expiry) and publishes every
    rule violation the record shows: speeding in three tiers, drift, low
    fuel, stolen car.
- **Stream processor** (`processing`). It consumes the raw topic one message
  per cycle, keeps a current-state cache under a configurable key template,
  appends every record to the Postgres history, and commits the offsets.
- **Admin service** (`admin`). It answers the admin API from the ingestion
  cache (the active cars) and the history tables (a time window per car or
  for all cars). A car that did not move collapses to its last state.

The model has one module per source file. Pure logic (validation, the rule
engine, the change comparator, key building, error mapping, the
query-parameter checks, the middlewares) is functions and lemmas. The
repositories, producers, consumers and services are classes with their own
fields:

- Redis is one shared `RedisStore.Redis` object holding a map of entries.
- Postgres is one shared `HistoryTables.Database` object holding the history
  rows and the cars table.
- Kafka topics are sequences of messages held by the producer.
- The consumer holds its pending (read but uncommitted) messages.

Each method is proved against a specification function. The properties the
system relies on are lemmas about those functions:

- a stored record reads back;
- other cars are untouched;
- the first failing check is the one reported;
- the history grouping is exact and ordered;
- what ingestion caches, the admin lists.

Each external call that can fail (a Redis command, a Kafka write, an SQL
query, a commit) gets a boolean parameter or a set of failing positions. A
row iteration that ends early, because the database connection was lost,
gets the position where it ends; the repository does not consult
`rows.Err()`, so that case reads as success with the rows seen so far. Replies of remote services, the wall clock,
the process environment and the JWT parser are parameters too.

## Model

| member | source | states |
|---|---|---|
| Text.ParseInt64 | api-gateway/internal/handler/adminHandler.go:162-166 | strconv.ParseInt base 10: a string parses iff it is an optional sign then at least one decimal digit, within 64 bits; a digit string reads as its decimal value, "-" negates it, "+" keeps it |
| Text.Decimal | api-gateway/internal/service/telemetryClient.go:119 | the decimal rendering of a number is a non-empty run of digits |
| Text.DecimalValue | api-gateway/internal/service/telemetryClient.go:119 | the digits FormatInt writes read back as the number |
| Text.ParseFormatRoundTrip | api-gateway/internal/handler/adminHandler.go:139-142 | every 64-bit integer formatted in base 10 parses back to itself |
| Text.ParseBool | api-gateway/internal/handler/adminHandler.go:156-160 | strconv.ParseBool accepts exactly twelve spellings, and reads true exactly from the six spellings of true |
| Text.Split | api-gateway/internal/middleware/auth.go:31-32 | strings.Split always yields at least one field |
| Text.SplitHasNoSeparator | api-gateway/internal/middleware/auth.go:31-32 | no field of a split contains the separator |
| Text.JoinSplit | api-gateway/internal/middleware/auth.go:31-32 | joining the fields with the separator restores the input |
| Text.SplitJoin | api-gateway/internal/middleware/auth.go:31-32 | splitting a join of separator-free fields gives the fields back |
| Text.SplitConcat | telemetry/internal/config/config.go:160-180 | a separator splits the input into the fields of each side, in order |
| Text.NonEmpty | telemetry/internal/config/config.go:160-180 | the kept fields are non-empty fields of the input, and there are no more of them than fields |
| Text.NonEmptyKeepsEveryField | telemetry/internal/config/config.go:160-180 | every non-empty field is kept |
| Text.NonEmptyConcat | telemetry/internal/config/config.go:160-180 | dropping empty fields commutes with concatenation |
| Text.TrimPrefix | admin/internal/repository/redis.go:100 | strings.TrimPrefix: with the prefix, prefix + result is the input; without it, the input is returned unchanged |
| Text.TrimPrefixOfConcat | admin/internal/repository/redis.go:100 | trimming a prefix from prefix + rest gives rest |
| Text.ReplaceAfterPrefix | processing/internal/repository/redis_repo.go:71 | strings.Replace(..., 1) replaces the first occurrence of the pattern and keeps the rest |
| Records.Wrap32 | telemetry/internal/service/violationService.go:30-32 | int32 conversion: values in range are kept, others wrap modulo 2^32 |
| Records.KindName | telemetry/internal/models/models.go:28-33 | every violation kind has a non-empty type name |
| Records.KindNameInjective | telemetry/internal/models/models.go:28-33 | distinct kinds are published under distinct type names |
| Records.DecodeSnapshot | telemetry/internal/repository/redis.go:57-59 | decoding fails only on malformed text and returns a stored record unchanged |
| Records.DecodeCarTelemetry | processing/internal/repository/redis_repo.go:82-104 | decoding fails only on malformed text and returns a stored CarTelemetry unchanged |
| TelemetryConfig.GetDefault | telemetry/internal/config/config.go:202-208 | the variable when it is set and non-empty, else the default |
| TelemetryConfig.GetIntDefault | telemetry/internal/config/config.go:210-220 | the default when unset; otherwise it succeeds iff the value parses, with the parsed value |
| TelemetryConfig.GetFloatDefault | telemetry/internal/config/config.go:182-192 | the default when unset; otherwise it succeeds iff the float parser accepts the value |
| TelemetryConfig.GetSliceDefault | telemetry/internal/config/config.go:160-180 | the character-scanning loop returns the default when unset, else the non-empty comma-separated fields in order |
| TelemetryConfig.SliceFieldsAreClean | telemetry/internal/config/config.go:160-180 | no listed field is empty or holds a comma |
| TelemetryConfig.SliceOfOneField | telemetry/internal/config/config.go:160-180 | a comma-free value is one field, or none when empty |
| TelemetryConfig.SliceConcat | telemetry/internal/config/config.go:160-180 | fields keep their order across a comma, and none is lost or added |
| TelemetryConfig.SliceDropsInnerEmpty | telemetry/internal/config/config.go:160-180 | "a,,b" lists a and b |
| TelemetryConfig.SliceDropsOuterEmpty | telemetry/internal/config/config.go:160-180 | ",a," lists a |
| TelemetryConfig.TelemetryTopic | telemetry/internal/config/config.go:76-82 | KAFKA_TOPIC_TELEMETRY_RAW, else KAFKA_TOPIC_TELEMETRY, else "telemetry.raw"; never empty |
| TelemetryConfig.ViolationsTopic | telemetry/internal/config/config.go:84-90 | KAFKA_TOPIC_VIOLATIONS, else KAFKA_TOPIC_ALERTS, else "telemetry.violations"; never empty |
| TelemetryConfig.ToUint32 | telemetry/internal/config/config.go:95 | uint32 conversion: below 2^32, and the identity on values in range |
| TelemetryConfig.Load | telemetry/internal/config/config.go:73-140 | a loaded config carries the topic fallbacks, the broker list and the Redis host as the readers define them |
| TelemetryConfig.Validate | telemetry/internal/config/config.go:142-158 | succeeds iff the config is valid; the brokers, host and speed-limit checks fail first, in that order, with their messages |
| TelemetryConfig.DefaultsAreValid | telemetry/internal/config/config.go:73-158 | an empty environment loads the defaults, and they validate |
| TelemetryConfig.OnlyCommasHaveNoBrokers | telemetry/internal/config/config.go:110 | KAFKA_BROKERS="," loads with an empty broker list, which validation would refuse with "KAFKA_BROKERS is required" |
| RuleEngine.SpeedKind | telemetry/internal/service/violationService.go:62-82 | an excess below 20 is low; above 20 and up to 40 is medium; exactly 20 or above 40 is high |
| RuleEngine.CreateSpeedViolation | telemetry/internal/service/violationService.go:62-82 | a speeding-tier violation carrying the car id and the record |
| RuleEngine.CheckViolations | telemetry/internal/service/violationService.go:20-60 | at most four violations, each carrying the car id and a copy of the record |
| RuleEngine.ViolationsInRuleOrder | telemetry/internal/service/violationService.go:34-57 | the violations come in rule order: speeding, drift, low fuel, stolen car |
| RuleEngine.SpeedingRule | telemetry/internal/service/violationService.go:34-36 | a speeding violation appears iff speed exceeds the int32 limit; it comes first, with the tier of the excess |
| RuleEngine.DriftRule | telemetry/internal/service/violationService.go:37-43 | drift iff rpm exceeds the limit with the handbrake on |
| RuleEngine.LowFuelRule | telemetry/internal/service/violationService.go:44-50 | low fuel iff fuel is below the limit |
| RuleEngine.StolenRule | telemetry/internal/service/violationService.go:51-57 | stolen iff not activated, not locked, engine on and speed non-zero |
| RuleEngine.NoViolations | telemetry/internal/service/violationService.go:20-60 | no condition holds, so there is no violation |
| RuleEngine.SpeedTierAtTwenty | telemetry/internal/service/violationService.go:62-82 | the tiers at excesses of 19, 20, 21, 40 and 41 are low, high, medium, medium, high |
| RuleEngine.DefaultLimitsExample | telemetry/internal/service/violationService.go:20-60 | under the default limits, 135 km/h on an unactivated, unlocked, running car gives speeding_medium then stealed_auto |
| Comparator.FloatsEqual | telemetry/internal/service/telemetryService.go:101-104 | equal iff the difference is strictly within 1e-6 |
| Comparator.HasDataChanged | telemetry/internal/service/telemetryService.go:80-99 | no previous state is a change; an identical record is not |
| Comparator.ChangedIffSomeFieldDiffers | telemetry/internal/service/telemetryService.go:80-99 | changed iff some field differs: exactly, or beyond the tolerance for lat, lon and fuel |
| Comparator.ChangeIsSymmetric | telemetry/internal/service/telemetryService.go:80-104 | the comparison does not depend on argument order |
| Comparator.JitterIsNoChange | telemetry/internal/service/telemetryService.go:80-104 | position and fuel jitter below 1e-6 is not a change |
| Comparator.ToleranceIsNotTransitive | telemetry/internal/service/telemetryService.go:101-104 | two readings each equal to a third within the tolerance can still differ from each other |
| TelemetryCache.StateKey | telemetry/internal/repository/redis.go:46 | the key carries the "car:state:" prefix, and trimming the prefix gives back the car id |
| TelemetryCache.StateKeyInjective | telemetry/internal/repository/redis.go:46 | different cars have different keys |
| TelemetryCache.Lookup | telemetry/internal/repository/redis.go:44-60 | an absent key is no state and no error; a non-string value is an error; a string value is a record |
| TelemetryCache.Store | telemetry/internal/repository/redis.go:62-73 | the record's JSON is written under its key with a 24-hour expiry, and no other key changes |
| TelemetryCache.StoreThenLookup | telemetry/internal/repository/redis.go:44-73 | a stored record reads back unchanged |
| TelemetryCache.StoreKeepsOtherCars | telemetry/internal/repository/redis.go:44-73 | storing one car leaves every other car's lookup as it was |
| TelemetryCache.MalformedReadsAsZero | telemetry/internal/repository/redis.go:57-59 | an undecodable payload reads as the zero record, because the decode error is ignored |
| TelemetryCache.StateCache.GetCarState | telemetry/internal/repository/redis.go:44-60 | a connection error is reported; otherwise the result is the Lookup |
| TelemetryCache.StateCache.SetCarState | telemetry/internal/repository/redis.go:62-73 | on success the store becomes Store(old, id, record); on failure it is unchanged and the error is reported |
| TelemetryProducer.AcksFor | telemetry/internal/producer/kafkaProducer.go:46-54 | leader-only acks iff the option is "one"; anything else waits for all replicas |
| TelemetryProducer.CompressionFor | telemetry/internal/producer/kafkaProducer.go:56-64 | gzip iff the option is "gzip"; anything else is lz4 |
| TelemetryProducer.TopicFor | telemetry/internal/producer/kafkaProducer.go:39-45 | the writer named "violations" uses the violations topic; any other name uses the telemetry topic |
| TelemetryProducer.CreateWriter | telemetry/internal/producer/kafkaProducer.go:37-84 | panics iff the broker list is empty; succeeds iff the topic is reachable through the first broker, with that topic, the brokers, the acks and the compression |
| TelemetryProducer.CreateWriters | telemetry/internal/producer/kafkaProducer.go:20-35 | panics iff the broker list is empty; succeeds iff both topics are reachable; the telemetry writer comes first, then the violations writer; an unreachable telemetry topic is the reported error |
| TelemetryProducer.OnlyCommasPanic | telemetry/internal/producer/kafkaProducer.go:77 | with KAFKA_BROKERS="," the configuration loads and starting the producer panics on the first broker |
| TelemetryProducer.KafkaProducer.SendTelemetry | telemetry/internal/producer/kafkaProducer.go:86-111 | exactly one message keyed by car id is appended to the telemetry topic, or none plus an error; the violations topic is untouched |
| TelemetryProducer.KafkaProducer.SendViolation | telemetry/internal/producer/kafkaProducer.go:113-138 | exactly one message keyed by the violation type is appended to the violations topic, or none plus an error |
| TelemetryProducer.KafkaProducer.Close | telemetry/internal/producer/kafkaProducer.go:140-154 | both writers are closed; an error iff either close fails |
| TelemetryIngestion.TelemetryService.ProcessTelemetry | telemetry/internal/service/telemetryService.go:36-78 | the new topics and cache, and the error, are those of Ingest on the old state |
| TelemetryIngestion.TelemetryService.PublishEach | telemetry/internal/service/telemetryService.go:67-73 | the violation loop publishes in order and stops at the first failed publish |
| TelemetryIngestion.RawPublishFailureTouchesNothing | telemetry/internal/service/telemetryService.go:46-50 | a failed raw publish leaves both topics and the cache unchanged and returns an error |
| TelemetryIngestion.RawPublishedOnce | telemetry/internal/service/telemetryService.go:46-50 | once the raw publish succeeds, the raw topic gains exactly that one message, whatever fails later |
| TelemetryIngestion.CacheReadFailureStopsEarly | telemetry/internal/service/telemetryService.go:52-56 | a failed cache read leaves the cache and the violations topic unchanged and returns an error |
| TelemetryIngestion.CacheWrittenOnlyOnChange | telemetry/internal/service/telemetryService.go:58-63 | the cache is written only when the record changed, and always when it changed and the write succeeded |
| TelemetryIngestion.UnchangedRecordOnlyPublishesRaw | telemetry/internal/service/telemetryService.go:58-76 | an unchanged record causes one raw publish and nothing else |
| TelemetryIngestion.ViolationsPublishedInOrder | telemetry/internal/service/telemetryService.go:58-76 | after a refresh, the rule engine's violations are published in order up to the first failure; an error iff one fails |
| TelemetryIngestion.RedeliveryOnlyPublishesRaw | telemetry/internal/service/telemetryService.go:36-78 | a fault-free redelivery of the same record only republishes the raw record |
| TelemetryHandler.ExtractIdentity | telemetry/internal/handler/telemetryHandler.go:27-41 | no metadata or no car_id gives Unauthenticated; otherwise the first car_id and the first trace_id, or "" |
| TelemetryHandler.Handler.PutTelemetry | telemetry/internal/handler/telemetryHandler.go:25-75 | without a car id nothing changes; otherwise the record goes to ProcessTelemetry unchanged, and a failure there becomes Internal |
| TelemetryHandler.FirstCarIdWins | telemetry/internal/handler/telemetryHandler.go:32-41 | with several car ids, the first one is used |
| GatewayTelemetry.ValidateCarData | api-gateway/internal/service/telemetryClient.go:99-155 | every reported error belongs to a check that fails |
| GatewayTelemetry.ValidateAcceptsExactly | api-gateway/internal/service/telemetryClient.go:99-155 | no error iff no check fails |
| GatewayTelemetry.ValidateReportsFirstFailure | api-gateway/internal/service/telemetryClient.go:99-155 | the reported error is the first failing check in source order |
| GatewayTelemetry.ValidIffAcceptable | api-gateway/internal/service/telemetryClient.go:99-155 | a record validates iff it lies within every bound |
| GatewayTelemetry.BoundsAreInclusive | api-gateway/internal/service/telemetryClient.go:147-153 | speed 300 and rpm 10000 pass; 301 and 10001 fail with their errors |
| GatewayTelemetry.FuelTypeSetIsExact | api-gateway/internal/service/telemetryClient.go:137-145 | only diesel, 92, 95 and 98 pass |
| GatewayTelemetry.GatewayIdentityRoundTrip | api-gateway/internal/service/telemetryClient.go:58-59 | the ingestion handler reads back exactly the car id and trace id the gateway attaches |
| GatewayTelemetry.TelemetryClient.PutTelemetry | api-gateway/internal/service/telemetryClient.go:46-93 | an empty trace id, then invalid data, is rejected without a call; a valid record is forwarded as a copy with both ids; only acceptable records are forwarded |
| ProcessingConsumer.ToTelemetry | processing/internal/repository/consumer.go:68-74 | the car id is the message key, the time is the message timestamp, and an undecodable payload gives the zero record |
| ProcessingConsumer.ToTelemetries | processing/internal/repository/consumer.go:68-76 | one record per message, in order |
| ProcessingConsumer.Fetched | processing/internal/repository/consumer.go:55-78 | no more messages are delivered than were read, nor more than requested |
| ProcessingConsumer.FetchedInReadOrder | processing/internal/repository/consumer.go:55-80 | the messages delivered are the first messages read, in read order; an error is the read that failed |
| ProcessingConsumer.KafkaConsumer.GetMessages | processing/internal/repository/consumer.go:47-81 | the result and the new pending buffer follow Fetched: every message read joins the pending buffer, and any read error other than a deadline or cancellation returns no records |
| ProcessingConsumer.ReadMessages | processing/internal/repository/consumer.go:54-78 | the reading loop makes exactly the reads Fetched describes and returns the decoded records in read order, or the read error |
| ProcessingConsumer.KafkaConsumer.Commit | processing/internal/repository/consumer.go:83-93 | success commits and empties the pending buffer; failure keeps it |
| ProcessingConsumer.UndecodableIsKept | processing/internal/repository/consumer.go:69-76 | an undecodable payload is still returned, as the zero record with its key |
| ProcessingConsumer.DeadlineKeepsCollected | processing/internal/repository/consumer.go:57-61 | a deadline or cancellation ends the fetch without an error and keeps what was read |
| ProcessingCache.DefaultKey | processing/internal/config/config.go:98 | with the default template, the key is "car:current:" + id |
| ProcessingCache.DefaultKeyInjective | processing/internal/config/config.go:98 | with the default template, different cars have different keys |
| ProcessingCache.Lookup | processing/internal/repository/redis_repo.go:82-104 | an absent key is no state; a non-string or undecodable value is an error |
| ProcessingCache.Save | processing/internal/repository/redis_repo.go:57-80 | an empty car id writes nothing; otherwise the record is written under its key with no expiry |
| ProcessingCache.SaveThenLookup | processing/internal/repository/redis_repo.go:57-104 | a saved record reads back unchanged, whatever the template |
| ProcessingCache.SaveKeepsOtherCars | processing/internal/repository/redis_repo.go:57-104 | for every key template holding the {car_id} placeholder, saving one car leaves every other car's lookup as it was |
| ProcessingCache.TemplateWithoutPlaceholder | processing/internal/repository/redis_repo.go:71 | a template without the placeholder gives every car the same key, so cars would overwrite one another |
| ProcessingCache.CarStateCache.GetCarState | processing/internal/repository/redis_repo.go:82-104 | a Redis error is reported; otherwise the result is the Lookup |
| ProcessingCache.CarStateCache.SaveCarState | processing/internal/repository/redis_repo.go:57-80 | an error iff the write fails for a non-empty id; otherwise the store becomes Save(old, record) |
| ProcessingHistory.ToRow | processing/internal/repository/postgres_repo.go:43-74 | the row carries the car id and the Kafka receive time |
| ProcessingHistory.ToRowDropsDescription | processing/internal/repository/postgres_repo.go:43-74 | brand, model, year and fuel type are not persisted |
| ProcessingHistory.ToRowKeepsState | processing/internal/repository/postgres_repo.go:43-74 | every other field is persisted: records with equal rows agree on all of them |
| ProcessingHistory.HistoryWriter.SaveTelemetry | processing/internal/repository/postgres_repo.go:43-74 | an error iff the insert fails or the car id is not uuid text; otherwise exactly one row is appended; the cars table is unchanged |
| Processing.TelemetryChanged | processing/internal/service/service.go:90-109 | no cached record is a change; the identical record is not |
| Processing.ChangeIgnoresIdAndTime | processing/internal/service/service.go:90-109 | the cached car id and receive time do not affect the comparison |
| Processing.ProcessMessageAppendsAtMostOne | processing/internal/service/service.go:54-72 | the history is append-only, and one message adds at most one row |
| Processing.ProcessMessageAppendsRow | processing/internal/service/service.go:55-71 | a row is appended iff the read succeeds, the save (when the record changed) succeeds, the car id is uuid text, and the insert succeeds |
| Processing.EmptyIdIsNotStored | processing/internal/repository/postgres_repo.go:49 | a record with an empty car id never reaches the history table |
| Processing.ProcessMessageCacheWrite | processing/internal/service/service.go:60-66 | the cache is written iff the record changed, and then with that record |
| Processing.ProcessMessageKeepsCacheWellFormed | processing/internal/service/service.go:55-71 | a cycle only writes records that decode, so a well-formed cache stays well-formed |
| Processing.FaultFreeMessageAppendsRow | processing/internal/service/service.go:55-71 | without faults, on a well-formed cache, a message with a uuid car id appends exactly its row |
| Processing.FaultFreeBatchAppendsEveryRow | processing/internal/service/service.go:54-72 | without faults and with uuid car ids, every message of a batch appends its row, in order |
| Processing.RedeliveryAppendsTwiceCachesOnce | processing/internal/service/service.go:54-72 | the same record processed twice gives two history rows (none if its id is not uuid text), and the second pass leaves the cache as it was |
| Processing.ProcessingService.HandleMessage | processing/internal/service/service.go:55-71 | the new cache and history are ProcessMessage of the old ones |
| Processing.ProcessingService.RunCycle | processing/internal/service/service.go:36-88 | a cancelled cycle does nothing; a fetch error skips the commit; otherwise the batch is processed and committed, even when empty |
| AdminHistory.OrderBy | admin/internal/repository/postgres.go:111 | ORDER BY, by time alone or by car id then time: the result is a permutation of the input |
| AdminHistory.OrderByIsSorted | admin/internal/repository/postgres.go:66 | the result is sorted in the requested order (time, or car uuid value then time) and holds exactly the input rows |
| AdminHistory.CarWindow | admin/internal/repository/postgres.go:58-67 | a row is selected iff it belongs to the car and its time lies within from..to, both inclusive |
| AdminHistory.JoinedWindow | admin/internal/repository/postgres.go:102-112 | a row is selected iff it is in the window, has the requested activated flag, and its car is in the cars table |
| AdminHistory.States | admin/internal/repository/postgres.go:77-97 | one state per row, in order |
| AdminHistory.Points | admin/internal/repository/postgres.go:120-139 | one point per row, with brand and model from the joined car |
| AdminHistory.GroupIsPerCar | admin/internal/repository/postgres.go:120-139 | a car has a list iff it has a row, and the list is its rows' points in order |
| AdminHistory.OfCarKeepsOrder | admin/internal/repository/postgres.go:120-139 | each car's rows from a list sorted by time, or by car then time, are time-sorted |
| AdminHistory.CarsHistoryRows | admin/internal/repository/postgres.go:102-112 | the joined rows are sorted by car and then by time, every car is known, and the row set is exactly the joined window |
| AdminHistory.CarHistoryIsWindow | admin/internal/repository/postgres.go:58-67 | one car's history is ascending and holds each of its rows in the inclusive window exactly as often as the table does, and no other row |
| AdminHistory.CarWindowCounts | admin/internal/repository/postgres.go:58-67 | the window holds each row as often as the table does if it matches, otherwise never |
| AdminHistory.JoinedWindowCounts | admin/internal/repository/postgres.go:102-112 | the joined window holds each row as often as the table does if it matches window, flag and cars table, otherwise never |
| AdminHistory.CarsHistoryIsWindow | admin/internal/repository/postgres.go:102-112 | the joined rows are sorted by car and then by time within a car, and hold each matching row exactly as often as the table does, and no other row |
| AdminHistory.LostConnectionTruncates | admin/internal/repository/postgres.go:77-97 | a connection lost after k rows gives success with only the first k states |
| AdminHistory.LostConnectionKeepsLeadingCars | admin/internal/repository/postgres.go:111-139 | a connection lost after k rows of the all-cars query gives success with the groups of the first k rows in car order, which belong to no later car than any unread row |
| AdminHistory.CarsHistoryCars | admin/internal/repository/postgres.go:100-140 | a car is listed iff it is in the cars table and has a row in the window with the requested flag |
| AdminHistory.CarsHistoryListsAscend | admin/internal/repository/postgres.go:100-140 | each car's list holds exactly its rows, in ascending time |
| AdminHistory.UnknownCarIsNotFound | admin/internal/repository/postgres.go:48-56 | an unknown car is CarNotFound, whatever the query would do |
| AdminHistory.HistoryRepository.ScanStates | admin/internal/repository/postgres.go:77-97 | a failing row scan before the iteration ends discards everything; otherwise one state per row reached, in order |
| AdminHistory.HistoryRepository.GetCarHistory | admin/internal/repository/postgres.go:45-98 | the result is CarHistoryResult on the tables, including the truncation at a lost connection |
| AdminHistory.HistoryRepository.GroupRows | admin/internal/repository/postgres.go:120-139 | a failing row scan before the iteration ends discards the map; otherwise the map is Group of the rows reached |
| AdminHistory.HistoryRepository.GetCarsHistory | admin/internal/repository/postgres.go:100-140 | the result is CarsHistoryResult on the tables, including the truncation at a lost connection |
| AdminCache.ShortOf | admin/internal/repository/redis.go:99-108 | the listed id is the key without the "car:state:" prefix |
| AdminCache.Entry | admin/internal/repository/redis.go:80-111 | a key contributes at most one car |
| AdminCache.ActiveCars | admin/internal/repository/redis.go:80-111 | no more cars than keys |
| AdminCache.ActiveCarsMembership | admin/internal/repository/redis.go:80-111 | a car is listed iff one of the keys yields it |
| AdminCache.ListedCarsAreActive | admin/internal/repository/redis.go:80-111 | every listed car comes from a cached record that is activated, and carries that record's fields |
| AdminCache.IngestedCarIsListed | admin/internal/repository/redis.go:45-114 | after the ingestion cache stores a record, the car is listed with its position iff the record is activated |
| AdminCache.CarDetails | admin/internal/repository/redis.go:116-135 | an absent key is CarNotFound; a success is a record decoded from the car's key |
| AdminCache.IngestedCarReadsBack | admin/internal/repository/redis.go:116-135 | GetCar returns exactly the record the ingestion cache stored |
| AdminCache.CarsRepository.ScanKeys | admin/internal/repository/redis.go:55-67 | the SCAN loop fails iff the scan fails; otherwise it lists every prefixed key once, in an order the store chooses |
| AdminCache.CarsRepository.FilterActive | admin/internal/repository/redis.go:80-111 | the filtering loop returns ActiveCars of the listed keys |
| AdminCache.CarsRepository.GetCarsNow | admin/internal/repository/redis.go:50-114 | a scan error is reported; no keys gives an empty list; an MGET error with keys present is reported; otherwise the active cars of some complete key listing |
| AdminCache.CarsRepository.GetCar | admin/internal/repository/redis.go:116-135 | the result is CarDetails |
| AdminService.CollapseShape | admin/internal/service/service.go:47-66 | the history is kept whole or reduced to its last state, and reduced exactly when two or more states never move |
| AdminService.CollapseIsIdempotent | admin/internal/service/service.go:47-66 | collapsing twice is collapsing once |
| AdminService.MovingCarIsKept | admin/internal/service/service.go:52-59 | a car that moved while active is returned whole |
| AdminService.InactiveHistoryCollapses | admin/internal/service/service.go:52-59 | a history spent deactivated collapses to its last state even if the position drifted |
| AdminService.CarHistoryOutcome | admin/internal/service/service.go:33-67 | from >= to gives InvalidTimeRange; a success implies the repository succeeded |
| AdminService.CarsHistoryOutcome | admin/internal/service/service.go:69-87 | from >= to gives InvalidTimeRange; a missing activated flag gives an error |
| AdminService.InvalidRangeIgnoresTables | admin/internal/service/service.go:36-39 | an invalid range gives the same answer whatever the tables and the faults |
| AdminService.Service.IsStaying | admin/internal/service/service.go:52-59 | the early-exit loop returns Staying(states) |
| AdminService.Service.GetCarHistory | admin/internal/service/service.go:33-67 | the result is CarHistoryOutcome |
| AdminService.Service.GetCarsHistory | admin/internal/service/service.go:69-87 | the result is CarsHistoryOutcome |
| AdminService.Service.GetCarsNow | admin/internal/service/service.go:89-98 | never fails; a SCAN or MGET error gives an empty list; without faults, the active cars of some complete key listing |
| AdminService.Service.GetCar | admin/internal/service/service.go:100-112 | an empty id gives InvalidCarId without reading the cache; otherwise the result is CarDetails |
| AdminHandlers.FuelTypeToProto | admin/internal/handlers/handlers.go:159-172 | each known spelling maps to its enum value and back (iff); anything else is unspecified |
| AdminHandlers.KnownFuelTypes | admin/internal/handlers/handlers.go:159-172 | a known enum value iff one of the four fuel types the gateway accepts |
| AdminHandlers.CarErrorStatus | admin/internal/handlers/handlers.go:53-64 | NotFound iff CarNotFound; InvalidArgument iff InvalidCarId; otherwise Internal |
| AdminHandlers.HistoryErrorStatus | admin/internal/handlers/handlers.go:92-103 | InvalidArgument iff a bad range or id; NotFound iff CarNotFound; Internal iff another error |
| AdminHandlers.CarsHistoryErrorStatus | admin/internal/handlers/handlers.go:128-135 | InvalidArgument iff a bad range; anything else is Internal |
| AdminHandlers.DetailsToProto | admin/internal/handlers/handlers.go:66-83 | the record is copied field by field, with the fuel type as the enum |
| AdminHandlers.Handler.GetCarsNow | admin/internal/handlers/handlers.go:25-46 | always succeeds; a SCAN or MGET error gives an empty list; otherwise the service's cars in order |
| AdminHandlers.Handler.GetCar | admin/internal/handlers/handlers.go:48-86 | an empty id gives InvalidArgument; otherwise the mapped outcome of the cache read |
| AdminHandlers.Handler.GetCarHistory | admin/internal/handlers/handlers.go:88-122 | the service outcome, with errors mapped and the states copied in order |
| AdminHandlers.Handler.CopyStates | admin/internal/handlers/handlers.go:105-119 | the response loop copies the states one to one, in order |
| AdminHandlers.Handler.Regroup | admin/internal/handlers/handlers.go:137-154 | because the list is reset after each car, every car gets exactly its own points |
| AdminHandlers.Handler.GetCarsHistory | admin/internal/handlers/handlers.go:124-157 | the service outcome, with errors mapped and the map rebuilt equal |
| GatewayAuth.BearerToken | api-gateway/internal/middleware/auth.go:31-41 | an extracted token holds no space |
| GatewayAuth.BearerTokenExact | api-gateway/internal/middleware/auth.go:31-41 | a token is extracted iff the header is a case-insensitive "bearer", one space, then the token, neither part holding a space |
| GatewayAuth.RequireAuth | api-gateway/internal/middleware/auth.go:13-94 | every rejection is 401 with the trace id; an accepted request had a bearer token that parsed, is HMAC-signed and is valid |
| GatewayAuth.RequireAuthPassesExactly | api-gateway/internal/middleware/auth.go:13-94 | a request passes iff no check fails |
| GatewayAuth.RequireAuthReportsFirstFailure | api-gateway/internal/middleware/auth.go:20-74 | the rejection names the first failing check: header, format, token, claims, expiry |
| GatewayAuth.TimeClaimOf | api-gateway/internal/middleware/auth.go:45-52 | jwt v5 reads a time claim as absent (missing or zero), a whole-second bound below the number, or malformed (not a number) |
| GatewayAuth.ExpiredOnlyWithoutExpiry | api-gateway/internal/middleware/auth.go:63-74 | for an accepted token, TOKEN_EXPIRED is answered iff exp is missing, or zero from the first second on; a real expiry is caught by jwt.Parse as an invalid token |
| GatewayAuth.ExpiryIsExclusive | api-gateway/internal/middleware/auth.go:45-74 | a token passes strictly before its exp second and is an invalid token from that second on |
| GatewayAuth.RequireCarAuth | api-gateway/internal/middleware/authcar.go:13-113 | rejections carry the trace id; an accepted request had a valid HMAC token |
| GatewayAuth.CarAuthSharesFirstChecks | api-gateway/internal/middleware/authcar.go:20-61 | the header, format and token checks reject exactly as in RequireAuth |
| GatewayAuth.CarAuthIsStricter | api-gateway/internal/middleware/authcar.go:13-113 | a request the car middleware accepts is accepted by the user middleware too, and its first role is "car" |
| GatewayAuth.OnlyFirstRoleCounts | api-gateway/internal/middleware/authcar.go:85-94 | a "car" role that is not first is refused with 403 |
| GatewayAuth.MissingExpiry | api-gateway/internal/middleware/authcar.go:64-73 | a valid token without exp is refused by RequireAuth and panics in RequireCarAuth |
| GatewayAdmin.FuelTypeToString | api-gateway/internal/handler/adminHandler.go:320-333 | "unknown" iff the enum is unspecified |
| GatewayAdmin.FuelTypeRoundTrip | api-gateway/internal/handler/adminHandler.go:320-333 | the two fuel-type conversions are inverse on the four types and on every enum value |
| GatewayAdmin.ErrorForCode | api-gateway/internal/handler/adminHandler.go:36-55 | the status is 502, 504, 400, 403 or 404 iff the code is Unavailable, DeadlineExceeded, InvalidArgument, PermissionDenied or NotFound, and 500 otherwise |
| GatewayAdmin.CarsHistoryQuery | api-gateway/internal/handler/adminHandler.go:134-171 | a forwarded request carries the parsed from, to and activated, with from < to |
| GatewayAdmin.CarHistoryQuery | api-gateway/internal/handler/adminHandler.go:232-262 | a forwarded request carries the parsed range, with from < to, and a non-empty id |
| GatewayAdmin.CarsHistoryReportsFirstFailure | api-gateway/internal/handler/adminHandler.go:134-171 | the 400 names the first failing check in source order; "to" is parsed only after "activated" |
| GatewayAdmin.CarsHistoryAcceptsExactly | api-gateway/internal/handler/adminHandler.go:134-171 | a request is forwarded iff no check fails |
| GatewayAdmin.CarHistoryReportsFirstFailure | api-gateway/internal/handler/adminHandler.go:232-262 | the 400 names the first failing check; a missing id is reported only once the range is valid |
| GatewayAdmin.DetailsFromProto | api-gateway/internal/handler/adminHandler.go:57-74 | the record is copied back, with the fuel type spelled out |
| GatewayAdmin.CarRecordSurvivesGateway | api-gateway/internal/handler/adminHandler.go:57-74 | a cached record reaches the HTTP client unchanged for the four fuel types; any other fuel type arrives as "unknown" |
| GatewayAdmin.ListNotFoundIsUnreachable | api-gateway/internal/handler/adminHandler.go:197-201 | the admin service never answers a list request with NotFound |
| GatewayAdmin.CarHistoryErrorsEndToEnd | api-gateway/internal/handler/adminHandler.go:274-295 | each admin error on one car's history becomes its HTTP status: 400, 404 or 500 |
| GatewayAdmin.AdminGateway.GetCar | api-gateway/internal/handler/adminHandler.go:23-77 | an empty id gives 400 without a call; otherwise one call, with errors mapped by code or the record copied |
| GatewayAdmin.AdminGateway.GetCarsNow | api-gateway/internal/handler/adminHandler.go:79-131 | one call; NotFound gives an empty 200; other errors are mapped; the cars are copied in order |
| GatewayAdmin.AdminGateway.CopyCars | api-gateway/internal/handler/adminHandler.go:108-124 | the conversion loop keeps the cars and their order |
| GatewayAdmin.AdminGateway.CopyStates | api-gateway/internal/handler/adminHandler.go:296-311 | the conversion loop keeps the states and their order |
| GatewayAdmin.AdminGateway.CopyHistory | api-gateway/internal/handler/adminHandler.go:207-222 | the conversion loop keeps every car's list |
| GatewayAdmin.AdminGateway.GetCarsHistory | api-gateway/internal/handler/adminHandler.go:133-229 | a failed check gives its 400 without a call; otherwise one call, with NotFound as an empty 200 and other errors mapped |
| GatewayAdmin.AdminGateway.GetCarHistory | api-gateway/internal/handler/adminHandler.go:231-318 | a failed check gives its 400 without a call; otherwise one call, with errors mapped by code and the states copied |

## Left out

- SaveKeepsOtherCars: holds only for key templates that contain `{car_id}`; for a template without it all cars share one key (TemplateWithoutPlaceholder), so the promise does not hold there.
- GetMessages appends the messages it read to the pending buffer once, after its reading loop, rather than one at a time; nothing can observe the buffer between two reads, so the resulting state is the same.
- Network I/O, connection set-up, logging, tracing spans, metrics and the
  services' `main`/`app` wiring are not modelled. Each external call is
  reduced to its effect on the modelled state plus a failure flag.
- Concurrency is not modelled: the gRPC and HTTP servers' parallel
  requests, and interleaved writes to the shared Redis.
- Floating-point numbers are reals, so rounding is not modelled. The 1e-6
  tolerance is exact.
- JSON encoding is a datatype that is assumed to round-trip. Only the
  decoder's leniencies the code relies on are modelled: unknown fields are
  ignored and missing fields stay zero.
- Length limits count characters, where Go counts bytes. The two differ only
  for non-ASCII brand and model names.
- Strings are not case-folded beyond ASCII letters (`Text.ToLower`).
- Redis expiry is recorded with each value (24 hours for ingestion, none for
  the processor) but never takes effect. No value in the model expires.
- Duration settings (timeouts, batch timeout, the processor's sleep interval)
  are not modelled. Neither are the fields of the configuration files that
  only feed connection set-up.
- `getDurationDefault` and `mustGet` of the ingestion configuration are not
  modelled. `Load` reads the integer, float and slice settings and the two
  topic fallbacks.
- The stream processor's outer loop and its sleep are not modelled.
  `Processing.ProcessingService.RunCycle` is one iteration. Its outcome
  `Committed(true)` marks an empty batch, after which the loop would sleep.
- The reader's 15-second deadline is the end of the modelled input stream:
  running out of input reads as the deadline.
- JWT decoding and signature verification are an oracle that answers the
  signing method, whether the signature verifies, and the claims. The
  registered-claim validation `jwt.Parse` then applies (exp strictly after
  the current second, nbf not after it, both numeric) is modelled, with the
  wall clock as a parameter. iat, aud and iss are not checked by the source's
  parser options and are not modelled.
- The free-text "error" and "message" fields of HTTP error bodies are not
  modelled. Their status and code are.
- `ORDER BY` is modelled as a stable sort: on the timestamp for one car, and
  on the car id's uuid value and then the timestamp for all cars. The
  database's own order of rows with equal keys is not modelled.
- Car ids are compared as text when the history is filtered, joined and
  grouped. PostgreSQL compares uuids, so two spellings of one uuid (letter
  case, hyphens, braces) are one car there and two here. The ids it returns
  in canonical lower-case form are not modelled either.
- `AdminCache.CarsRepository.ScanKeys` lists each key once. Redis SCAN may
  return a key twice during a rehash, and that is not modelled.
- `AdminHistory.HistoryRepository.GetCarsHistory` takes `activated` as a
  plain bool. The repository dereferences the pointer, and the nil case is
  rejected earlier by `AdminService.Service.GetCarsHistory`, which is modelled.
- `GatewayAuth.RequireCarAuth`'s unchecked type assertions and `roles[0]`
  index are an explicit `Panicked` outcome. The 500 that gin's recovery
  middleware answers it with is not modelled.
- The gateway's admin and auth gRPC clients (`adminClient.go`,
  `authClient.go`) are not part of this model. Their replies are parameters
  of the gateway methods.
- The producer's JSON marshal errors cannot happen in the model, because
  every record encodes.
- When the second writer fails to start, `NewKafkaProducer` returns without
  closing the first. Open connections are not modelled; `CreateWriters`
  states only which configurations start.
- Behaviour worth noting, modelled as the code has it:
  - ingestion caches with a 24-hour expiry while the processor caches without one;
  - record validation happens in the gateway, not in the ingestion handler;
  - a failed violation publish fails the whole call;
  - an undecodable consumer payload is not skipped but becomes the zero record.
