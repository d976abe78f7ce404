/**
 * The stateless violation classifier of the ingestion service
 * (telemetry/internal/service/violationService.go): one telemetry record in,
 * the list of rule violations it shows out.
 */
module RuleEngine {
  import opened Records
  import opened TelemetryConfig

  /** Reading a limit from the configuration goes through Go's int32 conversion, which truncates. */
  function SpeedLimitOf(cfg: ViolationsConfig): Int32 { Wrap32(cfg.speedLimit) }
  function RpmLimitOf(cfg: ViolationsConfig): Int32 { Wrap32(cfg.driftRpmLimit) }

  predicate Speeding(cur: Snapshot, cfg: ViolationsConfig) { cur.speed > SpeedLimitOf(cfg) }
  predicate Drifting(cur: Snapshot, cfg: ViolationsConfig) { cur.rpm > RpmLimitOf(cfg) && cur.handbrake }
  predicate LowOnFuel(cur: Snapshot, cfg: ViolationsConfig) { cur.fuel < cfg.lowFuelLimit }
  predicate Stolen(cur: Snapshot) { !cur.activated && !cur.locked && cur.engineOn && cur.speed != 0 }

  /** The excess speed, computed in int32 arithmetic as the source does. */
  function Margin(cur: Snapshot, cfg: ViolationsConfig): Int32 { Wrap32(cur.speed - SpeedLimitOf(cfg)) }

  /**
   * The speeding tier of an excess: below 20 is low, above 20 and up to 40 is
   * medium, and everything else is high, which includes an excess of exactly 20.
   */
  function SpeedKind(margin: Int32): (k: ViolationKind)
    ensures k == SpeedingLow <==> margin < 20
    ensures k == SpeedingMedium <==> 20 < margin <= 40
    ensures k == SpeedingHigh <==> margin == 20 || margin > 40
  {
    if margin < 20 then SpeedingLow
    else if margin > 20 && margin <= 40 then SpeedingMedium
    else SpeedingHigh
  }

  /** createSpeedViolation */
  function CreateSpeedViolation(cfg: ViolationsConfig, carId: string, cur: Snapshot): (v: Violation)
    ensures v.carId == carId && v.data == cur
    ensures IsSpeedingKind(v.kind)
  {
    Violation(SpeedKind(Margin(cur, cfg)), carId, cur)
  }

  predicate IsSpeedingKind(k: ViolationKind)
  {
    k == SpeedingLow || k == SpeedingMedium || k == SpeedingHigh
  }

  /** The position of each rule in the output: speeding, drift, low fuel, stolen car. */
  function Rank(k: ViolationKind): nat
  {
    match k
    case SpeedingLow => 0
    case SpeedingMedium => 0
    case SpeedingHigh => 0
    case Drift => 1
    case LowFuel => 2
    case StealedAuto => 3
  }

  predicate Emits(vs: seq<Violation>, k: ViolationKind)
  {
    exists i :: 0 <= i < |vs| && vs[i].kind == k
  }

  /** The violation a rule contributes: one when its condition holds, none otherwise. */
  function When(cond: bool, v: Violation): (vs: seq<Violation>)
    ensures |vs| <= 1
    ensures forall i :: 0 <= i < |vs| ==> vs[i] == v
  {
    if cond then [v] else []
  }

  /**
   * CheckViolations: the rules in their fixed order (speeding, drift, low fuel,
   * stolen car), each contributing at most one violation, each carrying the
   * car id and a copy of the record.
   */
  function CheckViolations(carId: string, cur: Snapshot, cfg: ViolationsConfig): (vs: seq<Violation>)
    ensures |vs| <= 4
    ensures forall i :: 0 <= i < |vs| ==> vs[i].carId == carId && vs[i].data == cur
  {
    When(Speeding(cur, cfg), CreateSpeedViolation(cfg, carId, cur))
    + When(Drifting(cur, cfg), Violation(Drift, carId, cur))
    + When(LowOnFuel(cur, cfg), Violation(LowFuel, carId, cur))
    + When(Stolen(cur), Violation(StealedAuto, carId, cur))
  }

  predicate Ascending(vs: seq<Violation>)
  {
    forall i, j :: 0 <= i < j < |vs| ==> Rank(vs[i].kind) < Rank(vs[j].kind)
  }

  /**
   * Appending the piece of a rule ranked above every violation so far keeps
   * the list ascending, and no rank in it exceeds that rule's.
   */
  lemma AscendingAppend(xs: seq<Violation>, cond: bool, v: Violation)
    requires Ascending(xs)
    requires forall i :: 0 <= i < |xs| ==> Rank(xs[i].kind) < Rank(v.kind)
    ensures Ascending(xs + When(cond, v))
    ensures forall i :: 0 <= i < |xs + When(cond, v)| ==> Rank((xs + When(cond, v))[i].kind) <= Rank(v.kind)
  {
    var out := xs + When(cond, v);
    forall i, j | 0 <= i < j < |out|
      ensures Rank(out[i].kind) < Rank(out[j].kind)
    {
      assert out[i] == xs[i];
      if j < |xs| {
        assert out[j] == xs[j];
      }
    }
    forall i | 0 <= i < |out|
      ensures Rank(out[i].kind) <= Rank(v.kind)
    {
      if i < |xs| {
        assert out[i] == xs[i];
      }
    }
  }

  /** Four optional pieces of ranks 0 to 3, joined in that order, are rank-ascending. */
  lemma {:induction false} PiecesAscending(p: bool, q: bool, r: bool, t: bool, v0: Violation, v1: Violation, v2: Violation, v3: Violation)
    requires Rank(v0.kind) == 0 && Rank(v1.kind) == 1 && Rank(v2.kind) == 2 && Rank(v3.kind) == 3
    ensures Ascending(When(p, v0) + When(q, v1) + When(r, v2) + When(t, v3))
  {
    var a := When(p, v0);
    AscendingAppend(a, q, v1);
    AscendingAppend(a + When(q, v1), r, v2);
    AscendingAppend(a + When(q, v1) + When(r, v2), t, v3);
  }

  /** The output follows the rule order, so no kind, and no speeding tier, appears twice. */
  lemma {:induction false} ViolationsInRuleOrder(carId: string, cur: Snapshot, cfg: ViolationsConfig)
    ensures Ascending(CheckViolations(carId, cur, cfg))
  {
    PiecesAscending(Speeding(cur, cfg), Drifting(cur, cfg), LowOnFuel(cur, cfg), Stolen(cur),
      CreateSpeedViolation(cfg, carId, cur), Violation(Drift, carId, cur),
      Violation(LowFuel, carId, cur), Violation(StealedAuto, carId, cur));
  }

  /** A speeding violation is emitted exactly when speed exceeds the limit, first, with the tier of the excess. */
  lemma {:induction false} SpeedingRule(carId: string, cur: Snapshot, cfg: ViolationsConfig)
    ensures var vs := CheckViolations(carId, cur, cfg);
      && ((exists i :: 0 <= i < |vs| && IsSpeedingKind(vs[i].kind)) <==> Speeding(cur, cfg))
      && (Speeding(cur, cfg) ==> vs[0].kind == SpeedKind(Margin(cur, cfg)))
  {
    var vs := CheckViolations(carId, cur, cfg);
    if Speeding(cur, cfg) {
      assert IsSpeedingKind(vs[0].kind);
    } else {
      ViolationsInRuleOrder(carId, cur, cfg);
    }
  }

  /** A drift violation is emitted exactly when rpm exceeds the drift limit with the handbrake on. */
  lemma {:induction false} DriftRule(carId: string, cur: Snapshot, cfg: ViolationsConfig)
    ensures Emits(CheckViolations(carId, cur, cfg), Drift) <==> Drifting(cur, cfg)
  {
    var a := When(Speeding(cur, cfg), CreateSpeedViolation(cfg, carId, cur));
    var vs := CheckViolations(carId, cur, cfg);
    if Drifting(cur, cfg) {
      assert vs[|a|].kind == Drift;
    }
  }

  /** A low-fuel violation is emitted exactly when fuel is below the limit. */
  lemma {:induction false} LowFuelRule(carId: string, cur: Snapshot, cfg: ViolationsConfig)
    ensures Emits(CheckViolations(carId, cur, cfg), LowFuel) <==> LowOnFuel(cur, cfg)
  {
    var a := When(Speeding(cur, cfg), CreateSpeedViolation(cfg, carId, cur));
    var b := When(Drifting(cur, cfg), Violation(Drift, carId, cur));
    var vs := CheckViolations(carId, cur, cfg);
    if LowOnFuel(cur, cfg) {
      assert vs[|a| + |b|].kind == LowFuel;
    }
  }

  /** A stolen-car violation is emitted exactly for a car that is neither activated nor locked yet runs and moves. */
  lemma {:induction false} StolenRule(carId: string, cur: Snapshot, cfg: ViolationsConfig)
    ensures Emits(CheckViolations(carId, cur, cfg), StealedAuto) <==> Stolen(cur)
  {
    var vs := CheckViolations(carId, cur, cfg);
    if Stolen(cur) {
      assert vs[|vs| - 1].kind == StealedAuto;
    }
  }

  /** No condition, no violation. */
  lemma {:induction false} NoViolations(carId: string, cur: Snapshot, cfg: ViolationsConfig)
    ensures CheckViolations(carId, cur, cfg) == []
      <==> !Speeding(cur, cfg) && !Drifting(cur, cfg) && !LowOnFuel(cur, cfg) && !Stolen(cur)
  {
  }

  /** The tiers are not monotone in the excess: 20 over is high while 21 over is medium. */
  lemma SpeedTierAtTwenty()
    ensures SpeedKind(19) == SpeedingLow
    ensures SpeedKind(20) == SpeedingHigh
    ensures SpeedKind(21) == SpeedingMedium
    ensures SpeedKind(40) == SpeedingMedium
    ensures SpeedKind(41) == SpeedingHigh
  {
  }

  /** With the default limits (110 km/h, 5000 rpm, 2.0 fuel), 135 km/h on a parked-but-running unlocked car yields speeding then stolen. */
  lemma DefaultLimitsExample(cur: Snapshot)
    requires cur.speed == 135 && cur.rpm == 0 && cur.fuel == 50.0
    requires !cur.activated && !cur.locked && cur.engineOn
    ensures var vs := CheckViolations("car-1", cur, DefaultViolations);
      |vs| == 2 && vs[0].kind == SpeedingMedium && vs[1].kind == StealedAuto
  {
  }
}
