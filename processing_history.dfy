/**
 * The stream processor's history writer
 * (processing/internal/repository/postgres_repo.go): one INSERT per record
 * into the telemetry history, projecting the columns the table has.
 */
module ProcessingHistory {
  import opened Wrappers
  import opened Records
  import opened HistoryTables

  /** The row a record becomes; the timestamp is the time Kafka received it. */
  function ToRow(t: CarTelemetry): (row: HistoryRow)
    ensures row.carId == t.carId && row.timestamp == t.receivedAt
  {
    HistoryRow(t.carId, t.snap.lat, t.snap.lon, t.snap.fuel, t.snap.speed, t.snap.engineOn,
      t.snap.locked, t.snap.activated, t.snap.rpm, t.snap.handbrake, t.snap.odo, t.receivedAt)
  }

  /** Brand, model, year and fuel type are not persisted: records differing only there give the same row. */
  lemma ToRowDropsDescription(t: CarTelemetry, brand: string, model: string, year: Int32, fuelType: string)
    ensures ToRow(t.(snap := t.snap.(brand := brand, model := model, yearOfManufacture := year, fuelType := fuelType))) == ToRow(t)
  {
  }

  /** Every other field is persisted: records with the same row agree on all of them. */
  lemma {:induction false} ToRowKeepsState(a: CarTelemetry, b: CarTelemetry)
    requires ToRow(a) == ToRow(b)
    ensures a.carId == b.carId && a.receivedAt == b.receivedAt
    ensures a.snap.(brand := "", model := "", yearOfManufacture := 0, fuelType := "")
         == b.snap.(brand := "", model := "", yearOfManufacture := 0, fuelType := "")
  {
    assert ToRow(a).lat == ToRow(b).lat && ToRow(a).odo == ToRow(b).odo;
  }

  class HistoryWriter {
    const db: Database

    constructor(db: Database)
      ensures this.db == db
    {
      this.db := db;
    }

    /**
     * SaveTelemetry: exactly one row appended (no upsert, no deduplication),
     * or an error and none. The car id is cast to uuid in the INSERT, so an
     * id that is not a uuid fails like a failing insert.
     */
    method SaveTelemetry(t: CarTelemetry, insertFails: bool) returns (err: Option<string>)
      modifies db
      ensures err.Some? <==> insertFails || !IsUuid(t.carId)
      ensures err.Some? ==> db.history == old(db.history)
      ensures err.None? ==> db.history == old(db.history) + [ToRow(t)]
      ensures db.cars == old(db.cars)
    {
      if insertFails || !IsUuid(t.carId) {
        return Some("error saving car state to postgres");
      }
      db.history := db.history + [ToRow(t)];
      err := None;
    }
  }
}
