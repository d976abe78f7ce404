/**
 * The change comparator shared by the ingestion service and the stream
 * processor (hasDataChanged and floatsEqual in
 * telemetry/internal/service/telemetryService.go and
 * processing/internal/service/service.go).
 */
module Comparator {
  import opened Wrappers
  import opened Records

  /** The absolute tolerance under which two floating-point readings count as equal. */
  const Epsilon: real := 0.000001

  function Abs(x: real): real { if x < 0.0 then -x else x }

  /** floatsEqual: |a - b| < 1e-6. */
  function FloatsEqual(a: real, b: real): (eq: bool)
    ensures eq <==> -Epsilon < a - b < Epsilon
  {
    Abs(a - b) < Epsilon
  }

  /** The fields of a snapshot, naming what a comparison can find different. */
  datatype Field =
    | Brand | Model | YearOfManufacture | Odo | Lat | Lon | Fuel | FuelType
    | Speed | EngineOn | Locked | Activated | Rpm | Handbrake

  /** Whether one field tells the two snapshots apart: exactly, or beyond the tolerance for the three real fields. */
  predicate FieldDiffers(p: Snapshot, c: Snapshot, f: Field)
  {
    match f
    case Brand => p.brand != c.brand
    case Model => p.model != c.model
    case YearOfManufacture => p.yearOfManufacture != c.yearOfManufacture
    case Odo => p.odo != c.odo
    case Lat => Abs(p.lat - c.lat) >= Epsilon
    case Lon => Abs(p.lon - c.lon) >= Epsilon
    case Fuel => Abs(p.fuel - c.fuel) >= Epsilon
    case FuelType => p.fuelType != c.fuelType
    case Speed => p.speed != c.speed
    case EngineOn => p.engineOn != c.engineOn
    case Locked => p.locked != c.locked
    case Activated => p.activated != c.activated
    case Rpm => p.rpm != c.rpm
    case Handbrake => p.handbrake != c.handbrake
  }

  /**
   * hasDataChanged: a missing previous state always counts as a change;
   * otherwise any single differing field does.
   */
  function HasDataChanged(previous: Option<Snapshot>, current: Snapshot): (changed: bool)
    ensures previous.None? ==> changed
    ensures previous == Some(current) ==> !changed
  {
    match previous
    case None => true
    case Some(p) =>
      p.brand != current.brand
      || p.model != current.model
      || p.yearOfManufacture != current.yearOfManufacture
      || p.odo != current.odo
      || !FloatsEqual(p.lat, current.lat)
      || !FloatsEqual(p.lon, current.lon)
      || !FloatsEqual(p.fuel, current.fuel)
      || p.fuelType != current.fuelType
      || p.speed != current.speed
      || p.engineOn != current.engineOn
      || p.locked != current.locked
      || p.activated != current.activated
      || p.rpm != current.rpm
      || p.handbrake != current.handbrake
  }

  /** A previous state is reported as changed exactly when some field tells it apart from the current one. */
  lemma ChangedIffSomeFieldDiffers(p: Snapshot, c: Snapshot)
    ensures HasDataChanged(Some(p), c) <==> exists f :: FieldDiffers(p, c, f)
  {
    if HasDataChanged(Some(p), c) {
      var f :=
        if p.brand != c.brand then Brand
        else if p.model != c.model then Model
        else if p.yearOfManufacture != c.yearOfManufacture then YearOfManufacture
        else if p.odo != c.odo then Odo
        else if !FloatsEqual(p.lat, c.lat) then Lat
        else if !FloatsEqual(p.lon, c.lon) then Lon
        else if !FloatsEqual(p.fuel, c.fuel) then Fuel
        else if p.fuelType != c.fuelType then FuelType
        else if p.speed != c.speed then Speed
        else if p.engineOn != c.engineOn then EngineOn
        else if p.locked != c.locked then Locked
        else if p.activated != c.activated then Activated
        else if p.rpm != c.rpm then Rpm
        else Handbrake;
      assert FieldDiffers(p, c, f);
    } else {
      forall f ensures !FieldDiffers(p, c, f) {
        match f
        case Lat => assert FloatsEqual(p.lat, c.lat);
        case Lon => assert FloatsEqual(p.lon, c.lon);
        case Fuel => assert FloatsEqual(p.fuel, c.fuel);
        case _ =>
      }
    }
  }

  /** The comparison does not depend on which snapshot came first. */
  lemma {:induction false} ChangeIsSymmetric(a: Snapshot, b: Snapshot)
    ensures HasDataChanged(Some(a), b) == HasDataChanged(Some(b), a)
  {
    ChangedIffSomeFieldDiffers(a, b);
    ChangedIffSomeFieldDiffers(b, a);
    forall f ensures FieldDiffers(a, b, f) == FieldDiffers(b, a, f) {
      assert Abs(a.lat - b.lat) == Abs(b.lat - a.lat);
      assert Abs(a.lon - b.lon) == Abs(b.lon - a.lon);
      assert Abs(a.fuel - b.fuel) == Abs(b.fuel - a.fuel);
    }
  }

  /** Jitter below the tolerance in the position and fuel readings is not a change. */
  lemma JitterIsNoChange(s: Snapshot, dLat: real, dLon: real, dFuel: real)
    requires Abs(dLat) < Epsilon && Abs(dLon) < Epsilon && Abs(dFuel) < Epsilon
    ensures !HasDataChanged(Some(s), s.(lat := s.lat + dLat, lon := s.lon + dLon, fuel := s.fuel + dFuel))
  {
  }

  /**
   * The tolerance is not transitive: two readings each within 1e-6 of a third
   * may still be 1e-6 apart, so a slow drift is eventually reported.
   */
  lemma ToleranceIsNotTransitive()
    ensures var s := ZeroSnapshot;
      && !HasDataChanged(Some(s), s.(lat := 0.0000006))
      && !HasDataChanged(Some(s.(lat := 0.0000006)), s.(lat := 0.0000012))
      && HasDataChanged(Some(s), s.(lat := 0.0000012))
  {
  }
}
