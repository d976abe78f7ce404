/**
 * The gateway's telemetry client
 * (api-gateway/internal/service/telemetryClient.go): validation of an
 * incoming record against fixed inclusive bounds, and the guarded forwarding
 * of valid records to the ingestion service.
 */
module GatewayTelemetry {
  import opened Wrappers
  import opened Records
  import opened Grpc
  import TelemetryHandler
  import Text

  /** The checks of ValidateCarData, in the order they run. */
  datatype ValidationError =
    | NilData | BrandRequired | BrandTooLong | ModelRequired | ModelTooLong
    | YearOutOfRange | OdoOutOfRange | LatOutOfRange | LonOutOfRange
    | FuelOutOfRange | FuelTypeInvalid | SpeedOutOfRange | RpmOutOfRange

  function Order(e: ValidationError): nat
  {
    match e
    case NilData => 0
    case BrandRequired => 1
    case BrandTooLong => 2
    case ModelRequired => 3
    case ModelTooLong => 4
    case YearOutOfRange => 5
    case OdoOutOfRange => 6
    case LatOutOfRange => 7
    case LonOutOfRange => 8
    case FuelOutOfRange => 9
    case FuelTypeInvalid => 10
    case SpeedOutOfRange => 11
    case RpmOutOfRange => 12
  }

  const ValidFuelTypes: set<string> := {"diesel", "92", "95", "98"}

  /** The newest accepted model year: next year, converted to int32 as the source does. */
  function MaxYear(currentYear: int): Int32 { Wrap32(currentYear + 1) }

  /** Whether check `e` rejects the record. */
  predicate Fails(e: ValidationError, data: Option<Snapshot>, currentYear: int)
  {
    match e
    case NilData => data.None?
    case BrandRequired => data.Some? && data.value.brand == ""
    case BrandTooLong => data.Some? && |data.value.brand| > 100
    case ModelRequired => data.Some? && data.value.model == ""
    case ModelTooLong => data.Some? && |data.value.model| > 100
    case YearOutOfRange => data.Some? && (data.value.yearOfManufacture < 1900 || data.value.yearOfManufacture > MaxYear(currentYear))
    case OdoOutOfRange => data.Some? && (data.value.odo < 0 || data.value.odo > 1000000)
    case LatOutOfRange => data.Some? && (data.value.lat < -90.0 || data.value.lat > 90.0)
    case LonOutOfRange => data.Some? && (data.value.lon < -180.0 || data.value.lon > 180.0)
    case FuelOutOfRange => data.Some? && (data.value.fuel < 0.0 || data.value.fuel > 100.0)
    case FuelTypeInvalid => data.Some? && data.value.fuelType !in ValidFuelTypes
    case SpeedOutOfRange => data.Some? && (data.value.speed < 0 || data.value.speed > 300)
    case RpmOutOfRange => data.Some? && (data.value.rpm < 0 || data.value.rpm > 10000)
  }

  /** The accepted records, bound by bound, every bound inclusive. */
  predicate Acceptable(d: Snapshot, currentYear: int)
  {
    && 0 < |d.brand| <= 100
    && 0 < |d.model| <= 100
    && 1900 <= d.yearOfManufacture <= MaxYear(currentYear)
    && 0 <= d.odo <= 1000000
    && -90.0 <= d.lat <= 90.0
    && -180.0 <= d.lon <= 180.0
    && 0.0 <= d.fuel <= 100.0
    && (d.fuelType == "diesel" || d.fuelType == "92" || d.fuelType == "95" || d.fuelType == "98")
    && 0 <= d.speed <= 300
    && 0 <= d.rpm <= 10000
  }

  function Message(e: ValidationError, currentYear: int): string
  {
    match e
    case NilData => "car data cannot be nil"
    case BrandRequired => "brand is required"
    case BrandTooLong => "brand too long"
    case ModelRequired => "model is required"
    case ModelTooLong => "model too long"
    case YearOutOfRange => "year of manufacture must be between 1900 and " + Text.FormatInt(currentYear + 1)
    case OdoOutOfRange => "odometer must be between 0 and 1,000,000 km"
    case LatOutOfRange => "latitude must be between -90 and 90"
    case LonOutOfRange => "longitude must be between -180 and 180"
    case FuelOutOfRange => "fuel level must be between 0 and 100 percent"
    case FuelTypeInvalid => "fuel type must be one of: diesel, 92, 95, 98"
    case SpeedOutOfRange => "speed must be between 0 and 300 km/h"
    case RpmOutOfRange => "RPM must be between 0 and 10,000"
  }

  /**
   * ValidateCarData: no error when every check passes; otherwise the error of
   * the first check, in source order, that fails. `currentYear` stands for
   * the wall-clock year.
   */
  function ValidateCarData(data: Option<Snapshot>, currentYear: int): (err: Option<ValidationError>)
    ensures err.Some? ==> Fails(err.value, data, currentYear)
  {
    if data.None? then Some(NilData)
    else
      var d := data.value;
      if d.brand == "" then Some(BrandRequired)
      else if |d.brand| > 100 then Some(BrandTooLong)
      else if d.model == "" then Some(ModelRequired)
      else if |d.model| > 100 then Some(ModelTooLong)
      else if d.yearOfManufacture < 1900 || d.yearOfManufacture > MaxYear(currentYear) then Some(YearOutOfRange)
      else if d.odo < 0 || d.odo > 1000000 then Some(OdoOutOfRange)
      else if d.lat < -90.0 || d.lat > 90.0 then Some(LatOutOfRange)
      else if d.lon < -180.0 || d.lon > 180.0 then Some(LonOutOfRange)
      else if d.fuel < 0.0 || d.fuel > 100.0 then Some(FuelOutOfRange)
      else if d.fuelType !in ValidFuelTypes then Some(FuelTypeInvalid)
      else if d.speed < 0 || d.speed > 300 then Some(SpeedOutOfRange)
      else if d.rpm < 0 || d.rpm > 10000 then Some(RpmOutOfRange)
      else None
  }

  /** Validation passes exactly when no check fails. */
  lemma {:induction false} ValidateAcceptsExactly(data: Option<Snapshot>, currentYear: int)
    ensures ValidateCarData(data, currentYear).None? <==> forall e :: !Fails(e, data, currentYear)
  {
    var err := ValidateCarData(data, currentYear);
    if err.None? {
      forall e ensures !Fails(e, data, currentYear) {
        match e
        case NilData =>
        case _ =>
      }
    }
  }

  /** The reported error is the first failing check: every earlier check passes. */
  lemma {:induction false} ValidateReportsFirstFailure(data: Option<Snapshot>, currentYear: int)
    ensures var err := ValidateCarData(data, currentYear);
      err.Some? ==> forall e :: Order(e) < Order(err.value) ==> !Fails(e, data, currentYear)
  {
    var err := ValidateCarData(data, currentYear);
    if err.Some? {
      forall e | Order(e) < Order(err.value) ensures !Fails(e, data, currentYear) {
        match e
        case NilData =>
        case _ =>
      }
    }
  }

  /** A record passes validation exactly when it is within every bound. */
  lemma {:induction false} ValidIffAcceptable(d: Snapshot, currentYear: int)
    ensures ValidateCarData(Some(d), currentYear).None? <==> Acceptable(d, currentYear)
  {
    ValidateAcceptsExactly(Some(d), currentYear);
    if Acceptable(d, currentYear) {
      forall e ensures !Fails(e, Some(d), currentYear) {
        match e
        case NilData =>
        case _ =>
      }
    }
  }

  /** The bounds are inclusive: the extreme speed and rpm pass, one more fails. */
  lemma BoundsAreInclusive(d: Snapshot, currentYear: int)
    requires Acceptable(d, currentYear)
    ensures ValidateCarData(Some(d.(speed := 300, rpm := 10000)), currentYear).None?
    ensures ValidateCarData(Some(d.(speed := 301)), currentYear) == Some(SpeedOutOfRange)
    ensures ValidateCarData(Some(d.(rpm := 10001)), currentYear) == Some(RpmOutOfRange)
  {
  }

  /** Only the four fuel types pass. */
  lemma {:induction false} FuelTypeSetIsExact(d: Snapshot, currentYear: int, fuelType: string)
    requires Acceptable(d, currentYear)
    ensures ValidateCarData(Some(d.(fuelType := fuelType)), currentYear).None?
      <==> fuelType in {"diesel", "92", "95", "98"}
  {
    ValidIffAcceptable(d.(fuelType := fuelType), currentYear);
  }

  /** The metadata the gateway attaches to the forwarded call. */
  function OutgoingMetadata(traceId: string, carId: string): Metadata
  {
    map["trace_id" := [traceId], "car_id" := [carId]]
  }

  /** The ingestion handler reads back exactly the ids the gateway sent. */
  lemma GatewayIdentityRoundTrip(traceId: string, carId: string)
    ensures TelemetryHandler.ExtractIdentity(Some(OutgoingMetadata(traceId, carId))) == Success((carId, traceId))
  {
  }

  /** One forwarded call: its metadata and request record. */
  datatype RemoteCall = RemoteCall(md: Metadata, request: Snapshot)

  class TelemetryClient {
    /** The calls made to the ingestion service so far. */
    var calls: seq<RemoteCall>

    constructor()
      ensures calls == []
    {
      calls := [];
    }

    /**
     * PutTelemetry: an empty trace id fails first, then invalid data fails;
     * neither reaches the ingestion service. A valid record is forwarded as a
     * field-for-field copy with the trace and car ids as metadata. `reply`
     * stands for the remote call's outcome.
     */
    method PutTelemetry(traceId: string, carId: string, data: Option<Snapshot>, currentYear: int, reply: Result<string, Status>)
      returns (r: Result<string, string>)
      modifies this
      ensures traceId == "" ==> r == Failure("traceID cannot be empty") && calls == old(calls)
      ensures traceId != "" && ValidateCarData(data, currentYear).Some? ==>
        r == Failure(Message(ValidateCarData(data, currentYear).value, currentYear)) && calls == old(calls)
      ensures traceId != "" && ValidateCarData(data, currentYear).None? ==>
        && calls == old(calls) + [RemoteCall(OutgoingMetadata(traceId, carId), data.value)]
        && r == (if reply.Success? then Success(reply.value) else Failure("failed to send telemetry: " + reply.error.message))
      ensures calls != old(calls) ==> data.Some? && Acceptable(data.value, currentYear)
    {
      if traceId == "" {
        return Failure("traceID cannot be empty");
      }
      var md := OutgoingMetadata(traceId, carId);
      var err := ValidateCarData(data, currentYear);
      if err.Some? {
        return Failure(Message(err.value, currentYear));
      }
      ValidIffAcceptable(data.value, currentYear);
      calls := calls + [RemoteCall(md, data.value)];
      match reply
      case Success(msg) => r := Success(msg);
      case Failure(st) => r := Failure("failed to send telemetry: " + st.message);
    }
  }
}
