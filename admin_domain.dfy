/**
 * The admin service's read models and its domain errors
 * (admin/internal/domain/models.go and errors.go).
 */
module AdminDomain {
  import opened Records

  /** A currently active car, as listed by GetCarsNow. */
  datatype CarShort = CarShort(id: string, brand: string, model: string, lat: real, lon: real, speed: Int32)

  /** One history row of a single car. */
  datatype CarState = CarState(
    lat: real, lon: real, fuel: real, speed: Int32, engineOn: bool, locked: bool,
    activated: bool, rpm: Int32, handbrake: bool, time: Int64)

  /** One history row in the all-cars history, joined with the car's brand and model. */
  datatype CarHistoryPoint = CarHistoryPoint(brand: string, model: string, lat: real, lon: real, speed: Int32, time: Int64)

  /**
   * The three sentinel errors, and any other error, which carries its
   * message. Handlers compare errors against the sentinels only.
   */
  datatype AdminError = CarNotFound | InvalidTimeRange | InvalidCarId | Other(message: string)

  /** An error from the database driver, whose text the model does not fix. */
  const DatabaseError := Other("database error")
}
