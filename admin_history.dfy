/**
 * The admin service's Postgres reads (admin/internal/repository/postgres.go):
 * one car's history within a time window, and all cars' history grouped by
 * car. The tables are those the stream processor appends to.
 */
module AdminHistory {
  import opened Wrappers
  import opened Records
  import opened HistoryTables
  import opened AdminDomain

  /** A row's place in the car order of `ORDER BY t.car_id`: the car id's uuid value. */
  function CarRank(r: HistoryRow): nat
  {
    UuidValue(r.carId)
  }

  /**
   * `a` may come before `b` under a query's ORDER BY: by time alone, or
   * (`byCar`) by car first and by time within a car.
   */
  predicate NotAfter(a: HistoryRow, b: HistoryRow, byCar: bool)
  {
    if byCar && CarRank(a) != CarRank(b) then CarRank(a) < CarRank(b) else a.timestamp <= b.timestamp
  }

  predicate Sorted(rows: seq<HistoryRow>, byCar: bool)
  {
    forall i, j :: 0 <= i < j < |rows| ==> NotAfter(rows[i], rows[j], byCar)
  }

  /** Ascending time. */
  predicate SortedByTime(rows: seq<HistoryRow>)
  {
    forall i, j :: 0 <= i < j < |rows| ==> rows[i].timestamp <= rows[j].timestamp
  }

  /** A row not after any row of a sorted list can go in front of it. */
  lemma ConsKeepsSorted(r: HistoryRow, rows: seq<HistoryRow>, byCar: bool)
    requires Sorted(rows, byCar)
    requires forall x :: x in rows ==> NotAfter(r, x, byCar)
    ensures Sorted([r] + rows, byCar)
  {
    var out := [r] + rows;
    forall i, j | 0 <= i < j < |out|
      ensures NotAfter(out[i], out[j], byCar)
    {
      assert out[j] == rows[j - 1];
      if i > 0 {
        assert out[i] == rows[i - 1];
      }
    }
  }

  /** Places a row into a sorted list, before the first row it is not after. */
  function Insert(r: HistoryRow, sorted: seq<HistoryRow>, byCar: bool): (out: seq<HistoryRow>)
    ensures multiset(out) == multiset(sorted) + multiset{r}
    ensures |out| == |sorted| + 1
    ensures forall x :: x in out <==> x == r || x in sorted
  {
    if sorted == [] || NotAfter(r, sorted[0], byCar) then [r] + sorted
    else
      assert sorted == [sorted[0]] + sorted[1..];
      [sorted[0]] + Insert(r, sorted[1..], byCar)
  }

  lemma {:induction false} InsertKeepsOrder(r: HistoryRow, sorted: seq<HistoryRow>, byCar: bool)
    requires Sorted(sorted, byCar)
    ensures Sorted(Insert(r, sorted, byCar), byCar)
    decreases |sorted|
  {
    if sorted == [] {
      assert Insert(r, sorted, byCar) == [r];
    } else if NotAfter(r, sorted[0], byCar) {
      forall x | x in sorted
        ensures NotAfter(r, x, byCar)
      {
        var k :| 0 <= k < |sorted| && sorted[k] == x;
        assert NotAfter(sorted[0], sorted[k], byCar);
      }
      ConsKeepsSorted(r, sorted, byCar);
    } else {
      var tail := sorted[1..];
      assert Sorted(tail, byCar) by {
        forall i, j | 0 <= i < j < |tail|
          ensures NotAfter(tail[i], tail[j], byCar)
        {
          assert tail[i] == sorted[i + 1] && tail[j] == sorted[j + 1];
        }
      }
      InsertKeepsOrder(r, tail, byCar);
      forall x | x in Insert(r, tail, byCar)
        ensures NotAfter(sorted[0], x, byCar)
      {
        if x != r {
          var k :| 0 <= k < |tail| && tail[k] == x;
          assert sorted[k + 1] == x;
        }
      }
      ConsKeepsSorted(sorted[0], Insert(r, tail, byCar), byCar);
    }
  }

  /**
   * A query's ORDER BY, as an insertion sort that keeps rows with equal keys
   * in table order: `"timestamp" ASC` when `byCar` is false,
   * `car_id, "timestamp" ASC` when it is true.
   */
  function OrderBy(rows: seq<HistoryRow>, byCar: bool): (sorted: seq<HistoryRow>)
    ensures multiset(sorted) == multiset(rows)
  {
    if rows == [] then []
    else
      assert rows == [rows[0]] + rows[1..];
      Insert(rows[0], OrderBy(rows[1..], byCar), byCar)
  }

  /** Ordering yields a sorted list holding exactly the rows it was given. */
  lemma {:induction false} OrderByIsSorted(rows: seq<HistoryRow>, byCar: bool)
    ensures Sorted(OrderBy(rows, byCar), byCar)
    ensures forall x :: x in OrderBy(rows, byCar) <==> x in rows
  {
    if rows != [] {
      OrderByIsSorted(rows[1..], byCar);
      InsertKeepsOrder(rows[0], OrderBy(rows[1..], byCar), byCar);
    }
    forall x
      ensures x in OrderBy(rows, byCar) <==> x in rows
    {
      assert x in OrderBy(rows, byCar) <==> x in multiset(OrderBy(rows, byCar));
    }
  }

  predicate InWindow(r: HistoryRow, from: Int64, to: Int64)
  {
    from <= r.timestamp <= to
  }

  /** The rows of one car within the window, in table order, each as often as the table holds it. */
  function CarWindow(history: seq<HistoryRow>, carId: string, from: Int64, to: Int64): (rows: seq<HistoryRow>)
    ensures forall x :: x in rows <==> x in history && x.carId == carId && InWindow(x, from, to)
  {
    if history == [] then []
    else
      var n := |history| - 1;
      assert history == history[..n] + [history[n]];
      CarWindow(history[..n], carId, from, to)
        + (if history[n].carId == carId && InWindow(history[n], from, to) then [history[n]] else [])
  }

  /** The rows of the all-cars query: within the window, with the requested activated flag, of a car in the cars table. */
  function JoinedWindow(history: seq<HistoryRow>, cars: map<string, CarInfo>, from: Int64, to: Int64, activated: bool): (rows: seq<HistoryRow>)
    ensures forall x :: x in rows <==>
      && x in history && InWindow(x, from, to) && x.activated == activated && x.carId in cars
  {
    if history == [] then []
    else
      var n := |history| - 1;
      var r := history[n];
      assert history == history[..n] + [r];
      JoinedWindow(history[..n], cars, from, to, activated)
        + (if InWindow(r, from, to) && r.activated == activated && r.carId in cars then [r] else [])
  }

  /** The window keeps every matching row as often as the table holds it, and no other. */
  lemma {:induction false} CarWindowCounts(history: seq<HistoryRow>, carId: string, from: Int64, to: Int64)
    ensures forall x :: multiset(CarWindow(history, carId, from, to))[x] ==
                        if x.carId == carId && InWindow(x, from, to) then multiset(history)[x] else 0
  {
    if history != [] {
      var n := |history| - 1;
      var r := history[n];
      CarWindowCounts(history[..n], carId, from, to);
      assert history == history[..n] + [r];
      var last := if r.carId == carId && InWindow(r, from, to) then [r] else [];
      assert multiset(history) == multiset(history[..n]) + multiset{r};
      assert multiset(CarWindow(history, carId, from, to)) == multiset(CarWindow(history[..n], carId, from, to)) + multiset(last);
    }
  }

  /** The joined window keeps every matching row as often as the table holds it, and no other. */
  lemma {:induction false} JoinedWindowCounts(history: seq<HistoryRow>, cars: map<string, CarInfo>, from: Int64, to: Int64, activated: bool)
    ensures forall x :: multiset(JoinedWindow(history, cars, from, to, activated))[x] ==
                        if InWindow(x, from, to) && x.activated == activated && x.carId in cars then multiset(history)[x] else 0
  {
    if history != [] {
      var n := |history| - 1;
      var r := history[n];
      JoinedWindowCounts(history[..n], cars, from, to, activated);
      assert history == history[..n] + [r];
      var last := if InWindow(r, from, to) && r.activated == activated && r.carId in cars then [r] else [];
      assert multiset(history) == multiset(history[..n]) + multiset{r};
      assert multiset(JoinedWindow(history, cars, from, to, activated)) == multiset(JoinedWindow(history[..n], cars, from, to, activated)) + multiset(last);
    }
  }

  /** The columns GetCarHistory selects. */
  function ToState(r: HistoryRow): CarState
  {
    CarState(r.lat, r.lon, r.fuel, r.speed, r.engineOn, r.locked, r.activated, r.rpm, r.handbrake, r.timestamp)
  }

  function States(rows: seq<HistoryRow>): (states: seq<CarState>)
    ensures |states| == |rows|
    ensures forall i :: 0 <= i < |rows| ==> states[i] == ToState(rows[i])
  {
    seq(|rows|, i requires 0 <= i < |rows| => ToState(rows[i]))
  }

  /** The columns GetCarsHistory selects, with brand and model from the joined cars row. */
  function ToPoint(r: HistoryRow, car: CarInfo): CarHistoryPoint
  {
    CarHistoryPoint(car.brand, car.model, r.lat, r.lon, r.speed, r.timestamp)
  }

  predicate AllKnown(rows: seq<HistoryRow>, cars: map<string, CarInfo>)
  {
    forall i :: 0 <= i < |rows| ==> rows[i].carId in cars
  }

  function Points(rows: seq<HistoryRow>, cars: map<string, CarInfo>): (points: seq<CarHistoryPoint>)
    requires AllKnown(rows, cars)
    ensures |points| == |rows|
    ensures forall i :: 0 <= i < |rows| ==> points[i] == ToPoint(rows[i], cars[rows[i].carId])
  {
    seq(|rows|, i requires 0 <= i < |rows| => ToPoint(rows[i], cars[rows[i].carId]))
  }

  /** The rows of one car, in their order. */
  function OfCar(rows: seq<HistoryRow>, carId: string): (mine: seq<HistoryRow>)
    ensures forall x :: x in mine ==> x in rows && x.carId == carId
  {
    if rows == [] then []
    else
      var n := |rows| - 1;
      assert rows == rows[..n] + [rows[n]];
      OfCar(rows[..n], carId) + (if rows[n].carId == carId then [rows[n]] else [])
  }

  /** The grouping loop's result: each row appended to its car's list, in row order. */
  function Group(rows: seq<HistoryRow>, cars: map<string, CarInfo>): map<string, seq<CarHistoryPoint>>
    requires AllKnown(rows, cars)
  {
    if rows == [] then map[]
    else
      var n := |rows| - 1;
      var r := rows[n];
      var g := Group(rows[..n], cars);
      g[r.carId := (if r.carId in g then g[r.carId] else []) + [ToPoint(r, cars[r.carId])]]
  }

  lemma {:induction false} OfCarOfAbsent(rows: seq<HistoryRow>, carId: string)
    requires forall i :: 0 <= i < |rows| ==> rows[i].carId != carId
    ensures OfCar(rows, carId) == []
  {
    if rows != [] {
      OfCarOfAbsent(rows[..|rows| - 1], carId);
    }
  }

  /** A car has a list iff it has a row. */
  lemma {:induction false} GroupKeys(rows: seq<HistoryRow>, cars: map<string, CarInfo>, carId: string)
    requires AllKnown(rows, cars)
    ensures carId in Group(rows, cars) <==> exists i :: 0 <= i < |rows| && rows[i].carId == carId
  {
    if rows != [] {
      var n := |rows| - 1;
      var prefix := rows[..n];
      assert AllKnown(prefix, cars);
      GroupKeys(prefix, cars, carId);
      if carId in Group(prefix, cars) {
        var i :| 0 <= i < |prefix| && prefix[i].carId == carId;
        assert rows[i].carId == carId;
      }
      if exists i :: 0 <= i < |rows| && rows[i].carId == carId {
        var i :| 0 <= i < |rows| && rows[i].carId == carId;
        if i < n {
          assert prefix[i].carId == carId;
        }
      }
    }
  }

  /** A car's list is its rows' points, in row order. */
  lemma {:induction false} GroupList(rows: seq<HistoryRow>, cars: map<string, CarInfo>, carId: string)
    requires AllKnown(rows, cars) && carId in Group(rows, cars)
    ensures Group(rows, cars)[carId] == Points(OfCar(rows, carId), cars)
  {
    var n := |rows| - 1;
    var prefix := rows[..n];
    assert AllKnown(prefix, cars);
    if carId in Group(prefix, cars) {
      GroupList(prefix, cars, carId);
    } else {
      GroupKeys(prefix, cars, carId);
      OfCarOfAbsent(prefix, carId);
    }
  }

  /** The grouping is exact: a car has a list iff it has a row, and its list is its rows, in order. */
  lemma GroupIsPerCar(rows: seq<HistoryRow>, cars: map<string, CarInfo>, carId: string)
    requires AllKnown(rows, cars)
    ensures carId in Group(rows, cars) <==> exists i :: 0 <= i < |rows| && rows[i].carId == carId
    ensures carId in Group(rows, cars) ==> Group(rows, cars)[carId] == Points(OfCar(rows, carId), cars)
  {
    GroupKeys(rows, cars, carId);
    if carId in Group(rows, cars) {
      GroupList(rows, cars, carId);
    }
  }

  /** A row no earlier than every row of a sorted list can go after it. */
  lemma SnocKeepsSorted(rows: seq<HistoryRow>, r: HistoryRow)
    requires SortedByTime(rows)
    requires forall x :: x in rows ==> x.timestamp <= r.timestamp
    ensures SortedByTime(rows + [r])
  {
    var out := rows + [r];
    forall i, j | 0 <= i < j < |out|
      ensures out[i].timestamp <= out[j].timestamp
    {
      assert out[i] == rows[i];
      if j < |rows| {
        assert out[j] == rows[j];
      }
    }
  }

  lemma SortedPrefix(rows: seq<HistoryRow>, n: nat, byCar: bool)
    requires Sorted(rows, byCar) && n <= |rows|
    ensures Sorted(rows[..n], byCar)
  {
    var prefix := rows[..n];
    forall i, j | 0 <= i < j < |prefix|
      ensures NotAfter(prefix[i], prefix[j], byCar)
    {
      assert prefix[i] == rows[i] && prefix[j] == rows[j];
    }
  }

  /** In a sorted list, every row drawn from before the last one is not after it. */
  lemma NoLaterThanLast(rows: seq<HistoryRow>, xs: seq<HistoryRow>, byCar: bool)
    requires Sorted(rows, byCar) && |rows| > 0
    requires forall x :: x in xs ==> x in rows[..|rows| - 1]
    ensures forall x :: x in xs ==> NotAfter(x, rows[|rows| - 1], byCar)
  {
    forall x | x in xs
      ensures NotAfter(x, rows[|rows| - 1], byCar)
    {
      var k :| 0 <= k < |rows| - 1 && rows[..|rows| - 1][k] == x;
      assert rows[k] == x;
    }
  }

  /** Of a list sorted by time, or by car and then time, each car's rows are sorted by time. */
  lemma {:induction false} OfCarKeepsOrder(rows: seq<HistoryRow>, carId: string, byCar: bool)
    requires Sorted(rows, byCar)
    ensures SortedByTime(OfCar(rows, carId))
  {
    if rows != [] {
      var n := |rows| - 1;
      SortedPrefix(rows, n, byCar);
      OfCarKeepsOrder(rows[..n], carId, byCar);
      if rows[n].carId == carId {
        var mine := OfCar(rows[..n], carId);
        NoLaterThanLast(rows, mine, byCar);
        forall x | x in mine
          ensures x.timestamp <= rows[n].timestamp
        {
          assert NotAfter(x, rows[n], byCar) && x.carId == carId;
        }
        SnocKeepsSorted(mine, rows[n]);
      }
    }
  }

  /** The query result of GetCarHistory: the car's rows in the window, by time. */
  function CarHistoryRows(history: seq<HistoryRow>, carId: string, from: Int64, to: Int64): seq<HistoryRow>
  {
    OrderBy(CarWindow(history, carId, from, to), false)
  }

  /** The query result of GetCarsHistory, by car and then by time. */
  function CarsHistoryRows(history: seq<HistoryRow>, cars: map<string, CarInfo>, from: Int64, to: Int64, activated: bool): (rows: seq<HistoryRow>)
    ensures AllKnown(rows, cars)
    ensures Sorted(rows, true)
    ensures forall x :: x in rows <==>
      && x in history && InWindow(x, from, to) && x.activated == activated && x.carId in cars
  {
    var rows := OrderBy(JoinedWindow(history, cars, from, to, activated), true);
    OrderByIsSorted(JoinedWindow(history, cars, from, to, activated), true);
    assert forall i :: 0 <= i < |rows| ==> rows[i] in rows;
    rows
  }

  /**
   * GetCarHistory's rows are exactly that car's rows with from <= timestamp <= to
   * (both bounds inclusive), in ascending time; a row the table holds twice
   * is returned twice.
   */
  lemma CarHistoryIsWindow(history: seq<HistoryRow>, carId: string, from: Int64, to: Int64)
    ensures SortedByTime(CarHistoryRows(history, carId, from, to))
    ensures forall x :: multiset(CarHistoryRows(history, carId, from, to))[x] ==
                        if x.carId == carId && from <= x.timestamp <= to then multiset(history)[x] else 0
    ensures forall x :: x in CarHistoryRows(history, carId, from, to) <==>
      && x in history && x.carId == carId && from <= x.timestamp <= to
  {
    var window := CarWindow(history, carId, from, to);
    OrderByIsSorted(window, false);
    assert SortedByTime(OrderBy(window, false)) by {
      var rows := OrderBy(window, false);
      forall i, j | 0 <= i < j < |rows|
        ensures rows[i].timestamp <= rows[j].timestamp
      {
        assert NotAfter(rows[i], rows[j], false);
      }
    }
    CarWindowCounts(history, carId, from, to);
  }

  /**
   * GetCarsHistory's rows are exactly the rows within the window, with the
   * requested activated flag, of cars in the cars table, ordered by car and
   * by ascending time within a car; a row the table holds twice is returned
   * twice.
   */
  lemma CarsHistoryIsWindow(history: seq<HistoryRow>, cars: map<string, CarInfo>, from: Int64, to: Int64, activated: bool)
    ensures Sorted(CarsHistoryRows(history, cars, from, to, activated), true)
    ensures forall x :: multiset(CarsHistoryRows(history, cars, from, to, activated))[x] ==
                        if from <= x.timestamp <= to && x.activated == activated && x.carId in cars then multiset(history)[x] else 0
  {
    JoinedWindowCounts(history, cars, from, to, activated);
  }

  /**
   * GetCarsHistory lists a car iff it is in the cars table and has a row in
   * the window with the requested activated flag.
   */
  lemma {:induction false} CarsHistoryCars(history: seq<HistoryRow>, cars: map<string, CarInfo>, from: Int64, to: Int64, activated: bool, carId: string)
    ensures var g := Group(CarsHistoryRows(history, cars, from, to, activated), cars);
      carId in g <==> carId in cars && exists x :: x in history && x.carId == carId && InWindow(x, from, to) && x.activated == activated
  {
    var rows := CarsHistoryRows(history, cars, from, to, activated);
    GroupIsPerCar(rows, cars, carId);
    if carId in cars && exists x :: x in history && x.carId == carId && InWindow(x, from, to) && x.activated == activated {
      var x :| x in history && x.carId == carId && InWindow(x, from, to) && x.activated == activated;
      assert x in rows;
      var i :| 0 <= i < |rows| && rows[i] == x;
    }
    if carId in Group(rows, cars) {
      var i :| 0 <= i < |rows| && rows[i].carId == carId;
      assert rows[i] in rows;
    }
  }

  /** Each car's list in GetCarsHistory is exactly its rows, in ascending time. */
  lemma {:induction false} CarsHistoryListsAscend(history: seq<HistoryRow>, cars: map<string, CarInfo>, from: Int64, to: Int64, activated: bool, carId: string)
    ensures var rows := CarsHistoryRows(history, cars, from, to, activated);
      var g := Group(rows, cars);
      && (carId in g ==> g[carId] == Points(OfCar(rows, carId), cars))
      && (carId in g ==> forall i, j :: 0 <= i < j < |g[carId]| ==> g[carId][i].time <= g[carId][j].time)
  {
    var rows := CarsHistoryRows(history, cars, from, to, activated);
    GroupIsPerCar(rows, cars, carId);
    OfCarKeepsOrder(rows, carId, true);
  }

  /**
   * Which of a query's calls fail: the existence check, the query, the scan
   * of a given row, and the row iteration itself: `lostAt == Some(k)` is a
   * connection lost before row k, where rows.Next() answers false and the
   * loop ends as if the result had only k rows, since the code never asks
   * rows.Err().
   */
  datatype QueryFaults = QueryFaults(existsFails: bool, queryFails: bool, scanFailures: set<nat>, lostAt: Option<nat>)

  /** How many of `n` result rows the iteration reaches. */
  function Reached(n: nat, lostAt: Option<nat>): (k: nat)
    ensures k <= n
    ensures k < n <==> lostAt.Some? && lostAt.value < n
    ensures k < n ==> k == lostAt.value
  {
    if lostAt.Some? && lostAt.value < n then lostAt.value else n
  }

  predicate ScanFails(f: QueryFaults, rowCount: nat)
  {
    exists i :: i in f.scanFailures && i < rowCount
  }

  /** GetCarHistory's outcome on the tables. */
  function CarHistoryResult(db: seq<HistoryRow>, cars: map<string, CarInfo>, carId: string, from: Int64, to: Int64, f: QueryFaults): Result<seq<CarState>, AdminError>
  {
    var rows := CarHistoryRows(db, carId, from, to);
    var k := Reached(|rows|, f.lostAt);
    if f.existsFails then Failure(DatabaseError)
    else if carId !in cars then Failure(CarNotFound)
    else if f.queryFails || ScanFails(f, k) then Failure(DatabaseError)
    else Success(States(rows[..k]))
  }

  /** GetCarsHistory's outcome on the tables. */
  function CarsHistoryResult(db: seq<HistoryRow>, cars: map<string, CarInfo>, from: Int64, to: Int64, activated: bool, f: QueryFaults): Result<map<string, seq<CarHistoryPoint>>, AdminError>
  {
    var rows := CarsHistoryRows(db, cars, from, to, activated);
    var k := Reached(|rows|, f.lostAt);
    assert AllKnown(rows[..k], cars);
    if f.queryFails || ScanFails(f, k) then Failure(DatabaseError)
    else Success(Group(rows[..k], cars))
  }

  /**
   * A connection lost part-way through the rows is not an error: GetCarHistory
   * succeeds with the states of the earlier rows only.
   */
  lemma LostConnectionTruncates(db: seq<HistoryRow>, cars: map<string, CarInfo>, carId: string, from: Int64, to: Int64, k: nat)
    requires carId in cars && k < |CarHistoryRows(db, carId, from, to)|
    ensures var r := CarHistoryResult(db, cars, carId, from, to, QueryFaults(false, false, {}, Some(k)));
      && r.Success? && |r.value| == k
      && r.value == States(CarHistoryRows(db, carId, from, to)[..k])
  {
  }

  /**
   * A connection lost part-way through the all-cars rows is not an error
   * either: GetCarsHistory succeeds with the groups of the rows read so far,
   * and those are the leading cars in car order, the last of them possibly
   * cut short.
   */
  lemma {:induction false} LostConnectionKeepsLeadingCars(db: seq<HistoryRow>, cars: map<string, CarInfo>, from: Int64, to: Int64, activated: bool, k: nat)
    requires k < |CarsHistoryRows(db, cars, from, to, activated)|
    ensures var rows := CarsHistoryRows(db, cars, from, to, activated);
      && AllKnown(rows[..k], cars)
      && CarsHistoryResult(db, cars, from, to, activated, QueryFaults(false, false, {}, Some(k))) == Success(Group(rows[..k], cars))
      && forall i, j :: 0 <= i < k <= j < |rows| ==> CarRank(rows[i]) <= CarRank(rows[j])
  {
    var rows := CarsHistoryRows(db, cars, from, to, activated);
    assert AllKnown(rows[..k], cars);
    forall i, j | 0 <= i < k <= j < |rows|
      ensures CarRank(rows[i]) <= CarRank(rows[j])
    {
      assert NotAfter(rows[i], rows[j], true);
    }
  }

  /** An unknown car is reported before the history is queried, whatever the query would do. */
  lemma UnknownCarIsNotFound(db: seq<HistoryRow>, cars: map<string, CarInfo>, carId: string, from: Int64, to: Int64, f: QueryFaults)
    requires !f.existsFails && carId !in cars
    ensures CarHistoryResult(db, cars, carId, from, to, f) == Failure(CarNotFound)
  {
  }

  class HistoryRepository {
    const db: Database

    constructor(db: Database)
      ensures this.db == db
    {
      this.db := db;
    }

    /**
     * The scan loop: one state per row reached, in row order; a failing scan
     * discards what was read, a lost connection ends the loop with it.
     */
    method ScanStates(rows: seq<HistoryRow>, scanFailures: set<nat>, lostAt: Option<nat>) returns (r: Result<seq<CarState>, AdminError>)
      ensures var k := Reached(|rows|, lostAt);
        (exists i :: i in scanFailures && i < k) ==> r == Failure(DatabaseError)
      ensures var k := Reached(|rows|, lostAt);
        (forall i :: i in scanFailures ==> i >= k) ==> r == Success(States(rows[..k]))
    {
      var history: seq<CarState> := [];
      var i := 0;
      while i < |rows| && lostAt != Some(i)
        invariant 0 <= i <= Reached(|rows|, lostAt)
        invariant forall k :: k in scanFailures ==> k >= i
        invariant history == States(rows[..i])
      {
        if i in scanFailures {
          return Failure(DatabaseError);
        }
        history := history + [ToState(rows[i])];
        i := i + 1;
      }
      return Success(history);
    }

    method GetCarHistory(carId: string, from: Int64, to: Int64, f: QueryFaults) returns (r: Result<seq<CarState>, AdminError>)
      ensures r == CarHistoryResult(db.history, db.cars, carId, from, to, f)
    {
      if f.existsFails {
        return Failure(DatabaseError);
      }
      if carId !in db.cars {
        return Failure(CarNotFound);
      }
      if f.queryFails {
        return Failure(DatabaseError);
      }
      var rows := CarHistoryRows(db.history, carId, from, to);
      r := ScanStates(rows, f.scanFailures, f.lostAt);
    }

    /**
     * The grouping loop: each scanned row reached is appended to its car's
     * list; a failing scan discards the map, a lost connection ends the loop
     * with it.
     */
    method GroupRows(rows: seq<HistoryRow>, cars: map<string, CarInfo>, scanFailures: set<nat>, lostAt: Option<nat>)
      returns (r: Result<map<string, seq<CarHistoryPoint>>, AdminError>)
      requires AllKnown(rows, cars)
      ensures var k := Reached(|rows|, lostAt);
        (exists i :: i in scanFailures && i < k) ==> r == Failure(DatabaseError)
      ensures var k := Reached(|rows|, lostAt);
        (forall i :: i in scanFailures ==> i >= k) ==> r.Success? && AllKnown(rows[..k], cars) && r.value == Group(rows[..k], cars)
    {
      var history: map<string, seq<CarHistoryPoint>> := map[];
      var i := 0;
      while i < |rows| && lostAt != Some(i)
        invariant 0 <= i <= Reached(|rows|, lostAt)
        invariant forall k :: k in scanFailures ==> k >= i
        invariant AllKnown(rows[..i], cars)
        invariant history == Group(rows[..i], cars)
      {
        if i in scanFailures {
          return Failure(DatabaseError);
        }
        var row := rows[i];
        var list := if row.carId in history then history[row.carId] else [];
        history := history[row.carId := list + [ToPoint(row, cars[row.carId])]];
        assert rows[..i + 1][..i] == rows[..i];
        i := i + 1;
      }
      return Success(history);
    }

    method GetCarsHistory(from: Int64, to: Int64, activated: bool, f: QueryFaults) returns (r: Result<map<string, seq<CarHistoryPoint>>, AdminError>)
      ensures r == CarsHistoryResult(db.history, db.cars, from, to, activated, f)
    {
      if f.queryFails {
        return Failure(DatabaseError);
      }
      var rows := CarsHistoryRows(db.history, db.cars, from, to, activated);
      r := GroupRows(rows, db.cars, f.scanFailures, f.lostAt);
    }
  }
}
