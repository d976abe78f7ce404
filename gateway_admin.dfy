/**
 * The gateway's HTTP front of the admin service
 * (api-gateway/internal/handler/adminHandler.go): query-parameter
 * validation, the mapping from gRPC codes to HTTP statuses, and the
 * conversion of replies into JSON bodies. The admin service's reply to a
 * forwarded request is a parameter.
 */
module GatewayAdmin {
  import opened Wrappers
  import opened Records
  import opened Text
  import opened Grpc
  import opened AdminDomain
  import opened AdminHandlers

  /** The JSON error body written by common.Response (its free-text "error" field is not modelled). */
  datatype HttpError = HttpError(status: nat, errorCode: string, description: string)

  datatype HttpReply<T> = Ok(body: T) | Err(error: HttpError)

  function InvalidData(description: string): HttpError
  {
    HttpError(400, "INVALID_DATA", description)
  }

  /** fuelTypeToString. */
  function FuelTypeToString(ft: FuelType): (s: string)
    ensures s == "unknown" <==> ft == FuelTypeUnspecified
  {
    match ft
    case Diesel => "diesel"
    case Gasoline92 => "92"
    case Gasoline95 => "95"
    case Gasoline98 => "98"
    case FuelTypeUnspecified => "unknown"
  }

  /** The two conversions are inverse: on the four fuel types one way, and on every enum value the other way. */
  lemma FuelTypeRoundTrip(s: string, ft: FuelType)
    ensures s in {"diesel", "92", "95", "98"} ==> FuelTypeToString(FuelTypeToProto(s)) == s
    ensures FuelTypeToProto(FuelTypeToString(ft)) == ft
  {
  }

  /**
   * The error switch shared by the four endpoints. The single-car endpoints
   * answer NotFound with 404; the list endpoints never get here with
   * NotFound, which they answer with an empty 200.
   */
  function ErrorForCode(code: Code): (e: HttpError)
    ensures code == Unavailable <==> e.status == 502
    ensures code == DeadlineExceeded <==> e.status == 504
    ensures code == InvalidArgument <==> e.status == 400
    ensures code == PermissionDenied <==> e.status == 403
    ensures code == NotFound <==> e.status == 404
    ensures code !in {Unavailable, DeadlineExceeded, InvalidArgument, PermissionDenied, NotFound} <==> e.status == 500
  {
    match code
    case Unavailable => HttpError(502, "SERVICE_UNAVAILABLE", "Admin service is down")
    case DeadlineExceeded => HttpError(504, "TIMEOUT", "Request timeout")
    case InvalidArgument => HttpError(400, "INVALID_DATA", "Invalid Admin data")
    case PermissionDenied => HttpError(403, "PERMISSION_DENIED", "Access denied")
    case NotFound => HttpError(404, "CAR_NOT_FOUND", "Car not found")
    case _ => HttpError(500, "INTERNAL_ERROR", "Internal server error")
  }

  /** The query-parameter checks of the two history endpoints. */
  datatype QueryCheck = FromPresent | FromParses | ToPresent | ToParses | ActivatedPresent | ActivatedParses | RangeOrdered | IdPresent

  function CheckDescription(c: QueryCheck): string
  {
    match c
    case FromPresent => "Query parameter FROM is required"
    case FromParses => "Query Parameter From is invalid or nil"
    case ToPresent => "Query Parameter TO is required"
    case ToParses => "Query Parameter To is invalid or nil"
    case ActivatedPresent => "Query Parameter ACTIVATED is required"
    case ActivatedParses => "Query Parameter ACTIVATED is invalid or nil"
    case RangeOrdered => "Query parameter FROM >= TO"
    case IdPresent => "Query parameter id is nil"
  }

  /** Whether a check fails on its own, given that the values it compares exist. */
  predicate QueryCheckFails(c: QueryCheck, from: string, to: string, activated: string, id: string)
  {
    match c
    case FromPresent => from == ""
    case FromParses => from != "" && ParseInt64(from).None?
    case ToPresent => to == ""
    case ToParses => to != "" && ParseInt64(to).None?
    case ActivatedPresent => activated == ""
    case ActivatedParses => activated != "" && ParseBool(activated).None?
    case RangeOrdered => ParseInt64(from).Some? && ParseInt64(to).Some? && ParseInt64(from).value >= ParseInt64(to).value
    case IdPresent => id == ""
  }

  /** The order of GetCarsHistory's checks: "to" is parsed only after "activated". */
  function CarsHistoryOrder(c: QueryCheck): nat
    requires c != IdPresent
  {
    match c
    case FromPresent => 0
    case FromParses => 1
    case ToPresent => 2
    case ActivatedPresent => 3
    case ActivatedParses => 4
    case ToParses => 5
    case RangeOrdered => 6
  }

  /** The order of GetCarHistory's checks: the car id comes last. */
  function CarHistoryOrder(c: QueryCheck): nat
    requires c !in {ActivatedPresent, ActivatedParses}
  {
    match c
    case FromPresent => 0
    case FromParses => 1
    case ToPresent => 2
    case ToParses => 3
    case RangeOrdered => 4
    case IdPresent => 5
  }

  datatype CarsHistoryRequest = CarsHistoryRequest(from: Int64, to: Int64, activated: bool)
  datatype CarHistoryRequest = CarHistoryRequest(from: Int64, to: Int64, id: string)

  /** GetCarsHistory's parameter checks, up to the request forwarded to the admin service. */
  function CarsHistoryQuery(from: string, to: string, activated: string): (r: Result<CarsHistoryRequest, HttpError>)
    ensures r.Success? ==>
      && r.value.from < r.value.to
      && Some(r.value.from) == ParseInt64(from) && Some(r.value.to) == ParseInt64(to)
      && Some(r.value.activated) == ParseBool(activated)
  {
    if from == "" then Failure(InvalidData(CheckDescription(FromPresent)))
    else if ParseInt64(from).None? then Failure(InvalidData(CheckDescription(FromParses)))
    else if to == "" then Failure(InvalidData(CheckDescription(ToPresent)))
    else if activated == "" then Failure(InvalidData(CheckDescription(ActivatedPresent)))
    else if ParseBool(activated).None? then Failure(InvalidData(CheckDescription(ActivatedParses)))
    else if ParseInt64(to).None? then Failure(InvalidData(CheckDescription(ToParses)))
    else if ParseInt64(from).value >= ParseInt64(to).value then Failure(InvalidData(CheckDescription(RangeOrdered)))
    else Success(CarsHistoryRequest(ParseInt64(from).value, ParseInt64(to).value, ParseBool(activated).value))
  }

  /** GetCarHistory's parameter checks, up to the request forwarded to the admin service. */
  function CarHistoryQuery(from: string, to: string, id: string): (r: Result<CarHistoryRequest, HttpError>)
    ensures r.Success? ==>
      && r.value.from < r.value.to && r.value.id == id != ""
      && Some(r.value.from) == ParseInt64(from) && Some(r.value.to) == ParseInt64(to)
  {
    if from == "" then Failure(InvalidData(CheckDescription(FromPresent)))
    else if ParseInt64(from).None? then Failure(InvalidData(CheckDescription(FromParses)))
    else if to == "" then Failure(InvalidData(CheckDescription(ToPresent)))
    else if ParseInt64(to).None? then Failure(InvalidData(CheckDescription(ToParses)))
    else if ParseInt64(from).value >= ParseInt64(to).value then Failure(InvalidData(CheckDescription(RangeOrdered)))
    else if id == "" then Failure(InvalidData(CheckDescription(IdPresent)))
    else Success(CarHistoryRequest(ParseInt64(from).value, ParseInt64(to).value, id))
  }

  /** GetCarsHistory reports the first failing check of its order, with 400. */
  lemma CarsHistoryReportsFirstFailure(from: string, to: string, activated: string, c: QueryCheck)
    requires c != IdPresent && QueryCheckFails(c, from, to, activated, "")
    requires forall d :: d != IdPresent && CarsHistoryOrder(d) < CarsHistoryOrder(c) ==> !QueryCheckFails(d, from, to, activated, "")
    ensures CarsHistoryQuery(from, to, activated) == Failure(InvalidData(CheckDescription(c)))
  {
    match c
    case FromPresent =>
    case FromParses =>
      assert !QueryCheckFails(FromPresent, from, to, activated, "");
    case ToPresent =>
      assert !QueryCheckFails(FromPresent, from, to, activated, "");
      assert !QueryCheckFails(FromParses, from, to, activated, "");
    case ActivatedPresent =>
      assert !QueryCheckFails(FromPresent, from, to, activated, "");
      assert !QueryCheckFails(FromParses, from, to, activated, "");
      assert !QueryCheckFails(ToPresent, from, to, activated, "");
    case ActivatedParses =>
      assert !QueryCheckFails(FromPresent, from, to, activated, "");
      assert !QueryCheckFails(FromParses, from, to, activated, "");
      assert !QueryCheckFails(ToPresent, from, to, activated, "");
      assert !QueryCheckFails(ActivatedPresent, from, to, activated, "");
    case ToParses =>
      assert !QueryCheckFails(FromPresent, from, to, activated, "");
      assert !QueryCheckFails(FromParses, from, to, activated, "");
      assert !QueryCheckFails(ToPresent, from, to, activated, "");
      assert !QueryCheckFails(ActivatedPresent, from, to, activated, "");
      assert !QueryCheckFails(ActivatedParses, from, to, activated, "");
    case RangeOrdered =>
      assert !QueryCheckFails(FromPresent, from, to, activated, "");
      assert !QueryCheckFails(FromParses, from, to, activated, "");
      assert !QueryCheckFails(ToPresent, from, to, activated, "");
      assert !QueryCheckFails(ActivatedPresent, from, to, activated, "");
      assert !QueryCheckFails(ActivatedParses, from, to, activated, "");
      assert !QueryCheckFails(ToParses, from, to, activated, "");
  }

  /** GetCarsHistory forwards a request iff no check fails. */
  lemma CarsHistoryAcceptsExactly(from: string, to: string, activated: string)
    ensures CarsHistoryQuery(from, to, activated).Success? <==>
      forall c :: c != IdPresent ==> !QueryCheckFails(c, from, to, activated, "")
  {
    if CarsHistoryQuery(from, to, activated).Success? {
      forall c | c != IdPresent
        ensures !QueryCheckFails(c, from, to, activated, "")
      {
        match c
        case FromPresent =>
        case _ =>
      }
    } else {
      var failing :| failing in {FromPresent, FromParses, ToPresent, ActivatedPresent, ActivatedParses, ToParses, RangeOrdered}
        && QueryCheckFails(failing, from, to, activated, "");
    }
  }

  /** GetCarHistory reports the first failing check of its order, with 400: a missing id only once the range is valid. */
  lemma CarHistoryReportsFirstFailure(from: string, to: string, id: string, c: QueryCheck)
    requires c !in {ActivatedPresent, ActivatedParses} && QueryCheckFails(c, from, to, "", id)
    requires forall d :: d !in {ActivatedPresent, ActivatedParses} && CarHistoryOrder(d) < CarHistoryOrder(c) ==>
      !QueryCheckFails(d, from, to, "", id)
    ensures CarHistoryQuery(from, to, id) == Failure(InvalidData(CheckDescription(c)))
  {
    match c
    case FromPresent =>
    case FromParses =>
      assert !QueryCheckFails(FromPresent, from, to, "", id);
    case ToPresent =>
      assert !QueryCheckFails(FromPresent, from, to, "", id);
      assert !QueryCheckFails(FromParses, from, to, "", id);
    case ToParses =>
      assert !QueryCheckFails(FromPresent, from, to, "", id);
      assert !QueryCheckFails(FromParses, from, to, "", id);
      assert !QueryCheckFails(ToPresent, from, to, "", id);
    case RangeOrdered =>
      assert !QueryCheckFails(FromPresent, from, to, "", id);
      assert !QueryCheckFails(FromParses, from, to, "", id);
      assert !QueryCheckFails(ToPresent, from, to, "", id);
      assert !QueryCheckFails(ToParses, from, to, "", id);
    case IdPresent =>
      assert !QueryCheckFails(FromPresent, from, to, "", id);
      assert !QueryCheckFails(FromParses, from, to, "", id);
      assert !QueryCheckFails(ToPresent, from, to, "", id);
      assert !QueryCheckFails(ToParses, from, to, "", id);
      assert !QueryCheckFails(RangeOrdered, from, to, "", id);
  }

  /** A request the gateway forwarded, as the admin client sends it. */
  datatype AdminCall =
    | GetCarCall(id: string)
    | GetCarsNowCall
    | GetCarsHistoryCall(historyRequest: CarsHistoryRequest)
    | GetCarHistoryCall(carRequest: CarHistoryRequest)

  /** The JSON car record: the admin record with its fuel type spelled out again. */
  function DetailsFromProto(pb: CarDetailsPb): (car: Snapshot)
    ensures car.fuelType == FuelTypeToString(pb.fuelType)
  {
    Snapshot(pb.brand, pb.model, pb.yearOfManufacture, pb.odo, pb.lat, pb.lon, pb.fuel,
             FuelTypeToString(pb.fuelType), pb.speed, pb.engineOn, pb.locked, pb.activated, pb.rpm, pb.handbrake)
  }

  /**
   * End to end, a cached record reaches the HTTP client unchanged when its
   * fuel type is one of the four; any other fuel type arrives as "unknown".
   */
  lemma CarRecordSurvivesGateway(car: Snapshot)
    ensures car.fuelType in {"diesel", "92", "95", "98"} ==> DetailsFromProto(DetailsToProto(car)) == car
    ensures car.fuelType !in {"diesel", "92", "95", "98"} ==> DetailsFromProto(DetailsToProto(car)) == car.(fuelType := "unknown")
  {
  }

  /** The admin service never answers a list request with NotFound, so the empty-200 branches are not reached from it. */
  lemma ListNotFoundIsUnreachable(e: AdminError)
    ensures CarsHistoryErrorStatus(e).code != NotFound
  {
  }

  /** An admin error on GetCarHistory becomes this HTTP status at the gateway. */
  lemma CarHistoryErrorsEndToEnd(e: AdminError)
    ensures ErrorForCode(HistoryErrorStatus(e).code).status == (match e
      case InvalidTimeRange => 400
      case InvalidCarId => 400
      case CarNotFound => 404
      case Other(_) => 500)
  {
  }

  class AdminGateway {
    /** Every request forwarded to the admin service so far. */
    var calls: seq<AdminCall>

    constructor()
      ensures calls == []
    {
      calls := [];
    }

    method GetCar(id: string, reply: Result<CarDetailsPb, Status>) returns (resp: HttpReply<Snapshot>)
      modifies this
      ensures id == "" ==> resp == Err(InvalidData("CarID is required")) && calls == old(calls)
      ensures id != "" ==> calls == old(calls) + [GetCarCall(id)]
      ensures id != "" && reply.Failure? ==> resp == Err(ErrorForCode(reply.error.code))
      ensures id != "" && reply.Success? ==> resp == Ok(DetailsFromProto(reply.value))
    {
      if id == "" {
        return Err(InvalidData("CarID is required"));
      }
      calls := calls + [GetCarCall(id)];
      if reply.Failure? {
        return Err(ErrorForCode(reply.error.code));
      }
      return Ok(DetailsFromProto(reply.value));
    }

    /** GetCarsNow: NotFound is an empty list; the cars are copied in order. */
    method GetCarsNow(reply: Result<seq<CarShort>, Status>) returns (resp: HttpReply<seq<CarShort>>)
      modifies this
      ensures calls == old(calls) + [GetCarsNowCall]
      ensures reply.Failure? && reply.error.code == NotFound ==> resp == Ok([])
      ensures reply.Failure? && reply.error.code != NotFound ==> resp == Err(ErrorForCode(reply.error.code))
      ensures reply.Success? ==> resp == Ok(reply.value)
    {
      calls := calls + [GetCarsNowCall];
      if reply.Failure? {
        if reply.error.code == NotFound {
          return Ok([]);
        }
        return Err(ErrorForCode(reply.error.code));
      }
      var cars := CopyCars(reply.value);
      return Ok(cars);
    }

    /** The conversion loop of GetCarsNow: the cars in order. */
    method CopyCars(list: seq<CarShort>) returns (cars: seq<CarShort>)
      ensures cars == list
    {
      cars := [];
      for i := 0 to |list|
        invariant cars == list[..i]
      {
        cars := cars + [list[i]];
      }
      assert cars == list[..|list|];
    }

    /** The conversion loop of GetCarHistory: a slice of the same length, filled index by index. */
    method CopyStates(list: seq<CarState>) returns (states: seq<CarState>)
      ensures states == list
    {
      states := seq(|list|, _ => CarState(0.0, 0.0, 0.0, 0, false, false, false, 0, false, 0));
      for i := 0 to |list|
        invariant |states| == |list|
        invariant states[..i] == list[..i]
      {
        states := states[i := list[i]];
      }
      assert states == states[..|states|];
    }

    /** The conversion loop: one list per car, each copied point by point. */
    method CopyHistory(history: map<string, seq<CarHistoryPoint>>) returns (historyByCar: map<string, seq<CarHistoryPoint>>)
      ensures historyByCar == history
    {
      historyByCar := map[];
      var remaining := history.Keys;
      while remaining != {}
        invariant remaining <= history.Keys
        invariant historyByCar.Keys == history.Keys - remaining
        invariant forall k :: k in historyByCar ==> historyByCar[k] == history[k]
        decreases |remaining|
      {
        var carId :| carId in remaining;
        var items := history[carId];
        var carHistory := seq(|items|, _ => CarHistoryPoint("", "", 0.0, 0.0, 0, 0));
        for i := 0 to |items|
          invariant |carHistory| == |items|
          invariant carHistory[..i] == items[..i]
        {
          carHistory := carHistory[i := items[i]];
        }
        historyByCar := historyByCar[carId := carHistory];
        remaining := remaining - {carId};
      }
    }

    method GetCarsHistory(from: string, to: string, activated: string, reply: Result<map<string, seq<CarHistoryPoint>>, Status>)
      returns (resp: HttpReply<map<string, seq<CarHistoryPoint>>>)
      modifies this
      ensures var q := CarsHistoryQuery(from, to, activated);
        && (q.Failure? ==> resp == Err(q.error) && calls == old(calls))
        && (q.Success? ==> calls == old(calls) + [GetCarsHistoryCall(q.value)])
        && (q.Success? && reply.Failure? && reply.error.code == NotFound ==> resp == Ok(map[]))
        && (q.Success? && reply.Failure? && reply.error.code != NotFound ==> resp == Err(ErrorForCode(reply.error.code)))
        && (q.Success? && reply.Success? ==> resp == Ok(reply.value))
    {
      var q := CarsHistoryQuery(from, to, activated);
      if q.Failure? {
        return Err(q.error);
      }
      calls := calls + [GetCarsHistoryCall(q.value)];
      if reply.Failure? {
        if reply.error.code == NotFound {
          return Ok(map[]);
        }
        return Err(ErrorForCode(reply.error.code));
      }
      var historyByCar := CopyHistory(reply.value);
      return Ok(historyByCar);
    }

    method GetCarHistory(from: string, to: string, id: string, reply: Result<seq<CarState>, Status>)
      returns (resp: HttpReply<seq<CarState>>)
      modifies this
      ensures var q := CarHistoryQuery(from, to, id);
        && (q.Failure? ==> resp == Err(q.error) && calls == old(calls))
        && (q.Success? ==> calls == old(calls) + [GetCarHistoryCall(q.value)])
        && (q.Success? && reply.Failure? ==> resp == Err(ErrorForCode(reply.error.code)))
        && (q.Success? && reply.Success? ==> resp == Ok(reply.value))
    {
      var q := CarHistoryQuery(from, to, id);
      if q.Failure? {
        return Err(q.error);
      }
      calls := calls + [GetCarHistoryCall(q.value)];
      if reply.Failure? {
        return Err(ErrorForCode(reply.error.code));
      }
      var states := CopyStates(reply.value);
      return Ok(states);
    }
  }
}
