/**
 * The admin service layer (admin/internal/service/service.go): the
 * time-range and argument guards in front of the repositories, and the
 * "car has not moved" collapse of a single car's history.
 */
module AdminService {
  import opened Wrappers
  import opened Records
  import opened Text
  import opened AdminDomain
  import opened AdminHistory
  import opened AdminCache

  /** Two consecutive states count as staying when the position is equal or the car is off in both. */
  predicate StayingPair(before: CarState, after: CarState)
  {
    (after.lon == before.lon && after.lat == before.lat) || (!after.activated && !before.activated)
  }

  /** Every consecutive pair of the history is a staying pair. */
  predicate Staying(states: seq<CarState>)
  {
    forall i :: 1 <= i < |states| ==> StayingPair(states[i - 1], states[i])
  }

  /** A history of a car that has not moved is reduced to its last state; any other history is kept whole. */
  function Collapse(states: seq<CarState>): seq<CarState>
  {
    if |states| <= 1 then states
    else if Staying(states) then [states[|states| - 1]]
    else states
  }

  /**
   * The collapse either keeps the history or keeps only its last state, and
   * it keeps only the last state exactly when a history of two or more
   * states never moves.
   */
  lemma CollapseShape(states: seq<CarState>)
    ensures var c := Collapse(states);
      && (c == states || c == [states[|states| - 1]])
      && (|c| == 0 <==> |states| == 0)
      && (|states| > 0 ==> c[|c| - 1] == states[|states| - 1])
      && (|states| >= 2 ==> (|c| == 1 <==> Staying(states)))
  {
  }

  /** Collapsing a collapsed history changes nothing. */
  lemma CollapseIsIdempotent(states: seq<CarState>)
    ensures Collapse(Collapse(states)) == Collapse(states)
  {
  }

  /** A history in which the car moved while active at one step is returned whole. */
  lemma MovingCarIsKept(states: seq<CarState>, i: nat)
    requires 1 <= i < |states|
    requires states[i].lat != states[i - 1].lat && states[i].activated
    ensures Collapse(states) == states
  {
    assert !StayingPair(states[i - 1], states[i]);
  }

  /** A history spent switched off collapses to its last state even if the position drifted. */
  lemma InactiveHistoryCollapses(states: seq<CarState>)
    requires |states| >= 2
    requires forall i :: 0 <= i < |states| ==> !states[i].activated
    ensures Collapse(states) == [states[|states| - 1]]
  {
    forall i | 1 <= i < |states|
      ensures StayingPair(states[i - 1], states[i])
    {
      assert !states[i - 1].activated;
    }
  }

  /** GetCarHistory: the range guard, then the repository, then the collapse. */
  function CarHistoryOutcome(history: seq<HistoryTables.HistoryRow>, cars: map<string, HistoryTables.CarInfo>,
                             carId: string, from: Int64, to: Int64, f: QueryFaults): (r: Result<seq<CarState>, AdminError>)
    ensures from >= to ==> r == Failure(InvalidTimeRange)
    ensures from < to && r.Success? ==> CarHistoryResult(history, cars, carId, from, to, f).Success?
  {
    if from >= to then Failure(InvalidTimeRange)
    else match CarHistoryResult(history, cars, carId, from, to, f)
      case Failure(e) => Failure(e)
      case Success(states) => Success(Collapse(states))
  }

  /** GetCarsHistory: the range guard, the activated guard, then the repository. */
  function CarsHistoryOutcome(history: seq<HistoryTables.HistoryRow>, cars: map<string, HistoryTables.CarInfo>,
                              from: Int64, to: Int64, activated: Option<bool>, f: QueryFaults): (r: Result<map<string, seq<CarHistoryPoint>>, AdminError>)
    ensures from >= to ==> r == Failure(InvalidTimeRange)
    ensures from < to && activated.None? ==> r == Failure(Other("activated is required"))
  {
    if from >= to then Failure(InvalidTimeRange)
    else if activated.None? then Failure(Other("activated is required"))
    else CarsHistoryResult(history, cars, from, to, activated.value, f)
  }

  /** An invalid range is reported whatever the tables and the faults, so the repository is never consulted. */
  lemma InvalidRangeIgnoresTables(h1: seq<HistoryTables.HistoryRow>, c1: map<string, HistoryTables.CarInfo>, f1: QueryFaults,
                                  h2: seq<HistoryTables.HistoryRow>, c2: map<string, HistoryTables.CarInfo>, f2: QueryFaults,
                                  carId: string, from: Int64, to: Int64, activated: Option<bool>)
    requires from >= to
    ensures CarHistoryOutcome(h1, c1, carId, from, to, f1) == CarHistoryOutcome(h2, c2, carId, from, to, f2)
    ensures CarsHistoryOutcome(h1, c1, from, to, activated, f1) == CarsHistoryOutcome(h2, c2, from, to, activated, f2)
  {
  }

  class Service {
    const repoDB: HistoryRepository
    const repoCache: CarsRepository

    constructor(repoDB: HistoryRepository, repoCache: CarsRepository)
      ensures this.repoDB == repoDB && this.repoCache == repoCache
    {
      this.repoDB := repoDB;
      this.repoCache := repoCache;
    }

    /** The isStaying loop, which stops at the first pair that moved. */
    method IsStaying(states: seq<CarState>) returns (staying: bool)
      ensures staying == Staying(states)
    {
      staying := true;
      var i := 1;
      while i < |states|
        invariant 1 <= i
        invariant staying ==> forall k :: 1 <= k < i && k < |states| ==> StayingPair(states[k - 1], states[k])
        invariant !staying ==> !Staying(states)
        decreases |states| - i, staying
      {
        if StayingPair(states[i - 1], states[i]) {
          i := i + 1;
        } else {
          staying := false;
          break;
        }
      }
    }

    method GetCarHistory(carId: string, from: Int64, to: Int64, f: QueryFaults) returns (r: Result<seq<CarState>, AdminError>)
      ensures r == CarHistoryOutcome(repoDB.db.history, repoDB.db.cars, carId, from, to, f)
    {
      if from >= to {
        return Failure(InvalidTimeRange);
      }
      var fetched := repoDB.GetCarHistory(carId, from, to, f);
      if fetched.Failure? {
        return Failure(fetched.error);
      }
      var states := fetched.value;
      if |states| == 0 || |states| == 1 {
        return Success(states);
      }
      var staying := IsStaying(states);
      if staying {
        return Success([states[|states| - 1]]);
      }
      return Success(states);
    }

    method GetCarsHistory(from: Int64, to: Int64, activated: Option<bool>, f: QueryFaults) returns (r: Result<map<string, seq<CarHistoryPoint>>, AdminError>)
      ensures r == CarsHistoryOutcome(repoDB.db.history, repoDB.db.cars, from, to, activated, f)
    {
      if from >= to {
        return Failure(InvalidTimeRange);
      }
      if activated.None? {
        return Failure(Other("activated is required"));
      }
      r := repoDB.GetCarsHistory(from, to, activated.value, f);
    }

    /** GetCarsNow never fails: a SCAN or MGET error is logged and yields an empty list. */
    method GetCarsNow(scanFails: bool, mgetFails: bool) returns (r: Result<seq<CarShort>, AdminError>)
      ensures r.Success?
      ensures scanFails || mgetFails ==> r.value == []
      ensures !scanFails && !mgetFails ==>
        exists keys :: KeyListing(repoCache.redis.entries, keys) && r.value == ActiveCars(repoCache.redis.entries, keys)
    {
      var cars := repoCache.GetCarsNow(scanFails, mgetFails);
      if cars.Failure? {
        return Success([]);
      }
      return Success(cars.value);
    }

    /** GetCar: an empty id is rejected before the cache is read. */
    method GetCar(carId: string, getFails: bool) returns (r: Result<Records.Snapshot, AdminError>)
      ensures carId == "" ==> r == Failure(InvalidCarId)
      ensures carId != "" ==> r == CarDetails(repoCache.redis.entries, carId, getFails)
    {
      if carId == "" {
        return Failure(InvalidCarId);
      }
      r := repoCache.GetCar(carId, getFails);
    }
  }
}
