/**
 * The ingestion service's gRPC entry point
 * (telemetry/internal/handler/telemetryHandler.go, PutTelemetry): identify
 * the car from the request metadata, hand the record over unchanged, and map
 * the outcome to a gRPC status.
 */
module TelemetryHandler {
  import opened Wrappers
  import opened Records
  import opened Grpc
  import opened TelemetryIngestion

  const MissingCarId := Status(Unauthenticated, "car_id required in metadata")
  const ProcessingFailed := Status(Internal, "can't put telemetry")
  const Acknowledgement := "telemetry processed successfully"

  /**
   * The car id (the first `car_id` value) and trace id (the first `trace_id`
   * value, or "" when there is none) of a request; Unauthenticated when there
   * is no metadata or no car id.
   */
  function ExtractIdentity(md: Option<Metadata>): (r: Result<(string, string), Status>)
    ensures md.None? ==> r == Failure(MissingCarId)
    ensures md.Some? ==> (r.Failure? <==> Values(md.value, "car_id") == [])
    ensures r.Failure? ==> r.error == MissingCarId
    ensures r.Success? ==> r.value.0 == Values(md.value, "car_id")[0]
    ensures r.Success? ==> r.value.1 == (if Values(md.value, "trace_id") == [] then "" else Values(md.value, "trace_id")[0])
  {
    match md
    case None => Failure(MissingCarId)
    case Some(m) =>
      var carIds := Values(m, "car_id");
      var traceIds := Values(m, "trace_id");
      var traceId := if |traceIds| > 0 then traceIds[0] else "";
      if |carIds| == 0 then Failure(MissingCarId)
      else Success((carIds[0], traceId))
  }

  class Handler {
    const service: TelemetryService

    constructor(service: TelemetryService)
      ensures this.service == service
    {
      this.service := service;
    }

    /**
     * PutTelemetry: without a car id the service is not called and nothing
     * changes; otherwise the request record goes to ProcessTelemetry as it is,
     * and any failure there becomes Internal.
     */
    method PutTelemetry(md: Option<Metadata>, request: Snapshot, f: IngestFaults) returns (r: Result<string, Status>)
      modifies service.producer, service.cache.redis
      ensures ExtractIdentity(md).Failure? ==>
        r == Failure(MissingCarId) && service.World() == old(service.World())
      ensures ExtractIdentity(md).Success? ==>
        var (w, err) := Ingest(old(service.World()), ExtractIdentity(md).value.0, request, service.limits, f);
        && service.World() == w
        && r == (if err.Some? then Failure(ProcessingFailed) else Success(Acknowledgement))
    {
      var identity := ExtractIdentity(md);
      if identity.Failure? {
        return Failure(identity.error);
      }
      var carId := identity.value.0;
      var err := service.ProcessTelemetry(carId, request, f);
      if err.Some? {
        return Failure(ProcessingFailed);
      }
      r := Success(Acknowledgement);
    }
  }

  /** When several car ids are sent, the first one wins. */
  lemma FirstCarIdWins(m: Metadata, first: string, rest: seq<string>)
    requires "car_id" in m && m["car_id"] == [first] + rest
    ensures ExtractIdentity(Some(m)).Success? && ExtractIdentity(Some(m)).value.0 == first
  {
  }
}
