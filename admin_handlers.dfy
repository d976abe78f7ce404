/**
 * The admin gRPC handlers (admin/internal/handlers/handlers.go): domain
 * errors become gRPC statuses, records become protobuf messages.
 */
module AdminHandlers {
  import opened Wrappers
  import opened Records
  import opened Grpc
  import opened AdminDomain
  import opened AdminService

  /** The protobuf FuelType enumeration. */
  datatype FuelType = FuelTypeUnspecified | Diesel | Gasoline92 | Gasoline95 | Gasoline98

  /** fuelTypeToProto: the four known spellings, anything else unspecified. */
  function FuelTypeToProto(fuelType: string): (ft: FuelType)
    ensures ft == Diesel <==> fuelType == "diesel"
    ensures ft == Gasoline92 <==> fuelType == "92"
    ensures ft == Gasoline95 <==> fuelType == "95"
    ensures ft == Gasoline98 <==> fuelType == "98"
  {
    match fuelType
    case "diesel" => Diesel
    case "92" => Gasoline92
    case "95" => Gasoline95
    case "98" => Gasoline98
    case _ => FuelTypeUnspecified
  }

  /** Exactly the four fuel types the gateway accepts map to a known enum value. */
  lemma KnownFuelTypes(fuelType: string)
    ensures FuelTypeToProto(fuelType) != FuelTypeUnspecified <==> fuelType in {"diesel", "92", "95", "98"}
  {
  }

  const InternalError := Status(Internal, "internal server error")
  const CarNotFoundStatus := Status(NotFound, "car not found")
  const InvalidCarIdStatus := Status(InvalidArgument, "invalid car id")
  const InvalidRangeStatus := Status(InvalidArgument, "invalid time range: 'from' timestamp is greater than or equal to 'to' timestamp")

  /** GetCar's error mapping. */
  function CarErrorStatus(e: AdminError): (s: Status)
    ensures s.code == NotFound <==> e == CarNotFound
    ensures s.code == InvalidArgument <==> e == InvalidCarId
    ensures s.code == Internal <==> e.Other? || e == InvalidTimeRange
  {
    if e == CarNotFound then CarNotFoundStatus
    else if e == InvalidCarId then InvalidCarIdStatus
    else InternalError
  }

  /** GetCarHistory's error mapping. */
  function HistoryErrorStatus(e: AdminError): (s: Status)
    ensures s.code == InvalidArgument <==> e == InvalidTimeRange || e == InvalidCarId
    ensures s.code == NotFound <==> e == CarNotFound
    ensures s.code == Internal <==> e.Other?
  {
    if e == InvalidTimeRange then InvalidRangeStatus
    else if e == CarNotFound then CarNotFoundStatus
    else if e == InvalidCarId then InvalidCarIdStatus
    else InternalError
  }

  /** GetCarsHistory's error mapping: only the time range is the caller's fault. */
  function CarsHistoryErrorStatus(e: AdminError): (s: Status)
    ensures s.code == InvalidArgument <==> e == InvalidTimeRange
    ensures s.code == Internal <==> e != InvalidTimeRange
  {
    if e == InvalidTimeRange then InvalidRangeStatus else InternalError
  }

  /** The protobuf CarDetails: the cached record with its fuel type as the enum. */
  datatype CarDetailsPb = CarDetailsPb(
    brand: string, model: string, yearOfManufacture: Int32, odo: Int64, lat: real, lon: real,
    fuel: real, fuelType: FuelType, speed: Int32, engineOn: bool, locked: bool, activated: bool,
    rpm: Int32, handbrake: bool)

  function DetailsToProto(car: Snapshot): (pb: CarDetailsPb)
    ensures pb.fuelType == FuelTypeToProto(car.fuelType)
    ensures pb.brand == car.brand && pb.model == car.model && pb.speed == car.speed && pb.activated == car.activated
  {
    CarDetailsPb(car.brand, car.model, car.yearOfManufacture, car.odo, car.lat, car.lon, car.fuel,
                 FuelTypeToProto(car.fuelType), car.speed, car.engineOn, car.locked, car.activated,
                 car.rpm, car.handbrake)
  }

  /** GetCar's handler outcome for a service outcome. */
  function CarReply(r: Result<Snapshot, AdminError>): Result<CarDetailsPb, Status>
  {
    match r
    case Failure(e) => Failure(CarErrorStatus(e))
    case Success(car) => Success(DetailsToProto(car))
  }

  class Handler {
    const service: Service

    constructor(service: Service)
      ensures this.service == service
    {
      this.service := service;
    }

    /** GetCarsNow: the service never fails, so neither does the handler; the cars are copied in order. */
    method GetCarsNow(scanFails: bool, mgetFails: bool) returns (r: Result<seq<CarShort>, Status>)
      ensures r.Success?
      ensures scanFails || mgetFails ==> r.value == []
      ensures !scanFails && !mgetFails ==>
        exists keys :: AdminCache.KeyListing(service.repoCache.redis.entries, keys)
          && r.value == AdminCache.ActiveCars(service.repoCache.redis.entries, keys)
    {
      var cars := service.GetCarsNow(scanFails, mgetFails);
      if cars.Failure? {
        return Failure(InternalError);
      }
      var resp: seq<CarShort> := [];
      for i := 0 to |cars.value|
        invariant resp == cars.value[..i]
      {
        resp := resp + [cars.value[i]];
      }
      assert resp == cars.value[..|cars.value|];
      return Success(resp);
    }

    method GetCar(id: string, getFails: bool) returns (r: Result<CarDetailsPb, Status>)
      ensures id == "" ==> r == Failure(InvalidCarIdStatus)
      ensures id != "" ==> r == CarReply(AdminCache.CarDetails(service.repoCache.redis.entries, id, getFails))
    {
      var car := service.GetCar(id, getFails);
      if car.Failure? {
        return Failure(CarErrorStatus(car.error));
      }
      return Success(DetailsToProto(car.value));
    }

    /** GetCarHistory: the states are copied one to one, in order. */
    method GetCarHistory(id: string, from: Int64, to: Int64, f: AdminHistory.QueryFaults) returns (r: Result<seq<CarState>, Status>)
      ensures var outcome := CarHistoryOutcome(service.repoDB.db.history, service.repoDB.db.cars, id, from, to, f);
        && (outcome.Failure? ==> r == Failure(HistoryErrorStatus(outcome.error)))
        && (outcome.Success? ==> r == Success(outcome.value))
    {
      var history := service.GetCarHistory(id, from, to, f);
      if history.Failure? {
        return Failure(HistoryErrorStatus(history.error));
      }
      var states := CopyStates(history.value);
      return Success(states);
    }

    /** The response loop: one protobuf state per state, in order. */
    method CopyStates(history: seq<CarState>) returns (states: seq<CarState>)
      ensures states == history
    {
      states := [];
      for i := 0 to |history|
        invariant states == history[..i]
      {
        states := states + [history[i]];
      }
      assert states == history[..|history|];
    }

    /**
     * The regrouping loop: for each car its points are collected into a list
     * that is reset before the next car, so each car gets exactly its own points.
     */
    method Regroup(history: map<string, seq<CarHistoryPoint>>) returns (historyMap: map<string, seq<CarHistoryPoint>>)
      ensures historyMap == history
    {
      historyMap := map[];
      var historyList: seq<CarHistoryPoint> := [];
      var remaining := history.Keys;
      while remaining != {}
        invariant remaining <= history.Keys
        invariant historyMap.Keys == history.Keys - remaining
        invariant forall k :: k in historyMap ==> historyMap[k] == history[k]
        invariant historyList == []
        decreases |remaining|
      {
        var carId :| carId in remaining;
        var points := history[carId];
        for j := 0 to |points|
          invariant historyList == points[..j]
        {
          historyList := historyList + [points[j]];
        }
        assert historyList == points;
        historyMap := historyMap[carId := historyList];
        historyList := [];
        remaining := remaining - {carId};
      }
    }

    method GetCarsHistory(from: Int64, to: Int64, activated: Option<bool>, f: AdminHistory.QueryFaults)
      returns (r: Result<map<string, seq<CarHistoryPoint>>, Status>)
      ensures var outcome := CarsHistoryOutcome(service.repoDB.db.history, service.repoDB.db.cars, from, to, activated, f);
        && (outcome.Failure? ==> r == Failure(CarsHistoryErrorStatus(outcome.error)))
        && (outcome.Success? ==> r == Success(outcome.value))
    {
      var history := service.GetCarsHistory(from, to, activated, f);
      if history.Failure? {
        return Failure(CarsHistoryErrorStatus(history.error));
      }
      var historyMap := Regroup(history.value);
      return Success(historyMap);
    }
  }
}
