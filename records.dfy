/**
 * The telemetry record and the values derived from it, shared by every service
 * (telemetry/internal/models/models.go, processing/internal/domain/models.go,
 * api-gateway/internal/model/telemetry.go, admin/internal/domain/models.go).
 */
module Records {
  import opened Wrappers

  type Int32 = x: int | -0x8000_0000 <= x < 0x8000_0000
  type Int64 = x: int | -0x8000_0000_0000_0000 <= x < 0x8000_0000_0000_0000

  /** Go's two's-complement truncation to 32 bits (an `int32(...)` conversion or an int32 subtraction). */
  function Wrap32(x: int): (r: Int32)
    ensures -0x8000_0000 <= x < 0x8000_0000 ==> r == x
    ensures (x - r) % 0x1_0000_0000 == 0
  {
    (x + 0x8000_0000) % 0x1_0000_0000 - 0x8000_0000
  }

  /**
   * One vehicle observation. The gateway's CarData, the PutRequest message,
   * the ingestion service's TelemetryData and the admin side's CarDetails all
   * carry exactly these fields, so one datatype stands for all of them.
   * Floating-point fields are reals.
   */
  datatype Snapshot = Snapshot(
    brand: string,
    model: string,
    yearOfManufacture: Int32,
    odo: Int64,
    lat: real,
    lon: real,
    fuel: real,
    fuelType: string,
    speed: Int32,
    engineOn: bool,
    locked: bool,
    activated: bool,
    rpm: Int32,
    handbrake: bool)

  /** The value Go's decoder leaves behind when nothing could be decoded. */
  const ZeroSnapshot: Snapshot :=
    Snapshot("", "", 0, 0, 0.0, 0.0, 0.0, "", 0, false, false, false, 0, false)

  /** The stream processor's CarTelemetry: the snapshot plus the message key and receipt time. */
  datatype CarTelemetry = CarTelemetry(snap: Snapshot, carId: string, receivedAt: Int64)

  const ZeroTelemetry: CarTelemetry := CarTelemetry(ZeroSnapshot, "", 0)

  datatype ViolationKind =
    | SpeedingLow | SpeedingMedium | SpeedingHigh | LowFuel | Drift | StealedAuto

  /** The `Type` string each violation kind is published under. */
  function KindName(k: ViolationKind): (name: string)
    ensures name != ""
  {
    match k
    case SpeedingLow => "speeding_low"
    case SpeedingMedium => "speeding_medium"
    case SpeedingHigh => "speeding_high"
    case LowFuel => "low_fuel"
    case Drift => "drift"
    case StealedAuto => "stealed_auto"
  }

  /** Distinct kinds are published under distinct names. */
  lemma KindNameInjective(a: ViolationKind, b: ViolationKind)
    ensures KindName(a) == KindName(b) ==> a == b
  {
  }

  /** A detected violation: its kind, the car and a copy of the triggering record. */
  datatype Violation = Violation(kind: ViolationKind, carId: string, data: Snapshot)

  /**
   * A JSON document as stored in Redis or carried by Kafka. Encoding is taken to
   * round-trip; `Malformed` is any text that does not decode.
   */
  datatype Json =
    | SnapshotJson(snap: Snapshot)
    | TelemetryJson(tel: CarTelemetry)
    | ViolationJson(violation: Violation)
    | Malformed

  /**
   * Decoding into the 14-field record. Go's decoder ignores unknown fields, so a
   * CarTelemetry document yields its snapshot and a violation document (whose
   * keys match no field) yields the zero record; only malformed text fails.
   */
  function DecodeSnapshot(j: Json): (r: Option<Snapshot>)
    ensures r.None? <==> j.Malformed?
    ensures j.SnapshotJson? ==> r == Some(j.snap)
  {
    match j
    case SnapshotJson(s) => Some(s)
    case TelemetryJson(t) => Some(t.snap)
    case ViolationJson(_) => Some(ZeroSnapshot)
    case Malformed => None
  }

  /** Decoding into the stream processor's CarTelemetry (missing fields stay zero). */
  function DecodeCarTelemetry(j: Json): (r: Option<CarTelemetry>)
    ensures r.None? <==> j.Malformed?
    ensures j.TelemetryJson? ==> r == Some(j.tel)
  {
    match j
    case SnapshotJson(s) => Some(CarTelemetry(s, "", 0))
    case TelemetryJson(t) => Some(t)
    case ViolationJson(_) => Some(ZeroTelemetry)
    case Malformed => None
  }
}
