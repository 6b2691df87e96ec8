/** The modular powertrain: gear logic, engine torque, clutch power and fuel of one step. */
module Powertrain {
  import opened Planar

  /** Radians per second in one revolution per minute. */
  const RPM_TO_RAD_S: real := 0.10471975511965977
  const DIRECTION_CHANGE_SPEED_MPS: real := 0.5
  const CLUTCH_MARGIN_RAD_S: real := 0.000001
  const MAXIMUM_STEP_S: real := 0.1

  datatype TorqueCurvePoint = TorqueCurvePoint(rpm: real, torque: real)

  datatype EngineParameters = EngineParameters(
    idleRpm: real, maxRpm: real, rotationalInertia: real, responseTime: real, idleFuelLph: real, bsfc: real,
    torqueCurve: seq<TorqueCurvePoint>)

  datatype TransmissionParameters = TransmissionParameters(
    forwardRatios: seq<real>, reverseRatio: real, maxInputTorque: real, efficiency: real,
    upshiftRpm: real, downshiftRpm: real, shiftDuration: real)

  datatype DrivetrainParameters = DrivetrainParameters(finalDriveRatio: real, frontTorqueFraction: real,
    efficiency: real)

  datatype FuelTankParameters = FuelTankParameters(capacity: real, initialFuel: real, fuelDensity: real)

  datatype PowertrainParameters = PowertrainParameters(
    engine: EngineParameters, transmission: TransmissionParameters, drivetrain: DrivetrainParameters,
    fuelTank: FuelTankParameters)

  datatype PowertrainInput = PowertrainInput(
    throttle: real, direction: int, vehicleSpeed: real, frontWheelSpeed: real, rearWheelSpeed: real,
    torqueInhibited: bool)

  datatype PowertrainState = PowertrainState(
    engineRpm: real, filteredThrottle: real, forwardGear: nat, pendingForwardGear: nat, shiftRemaining: real,
    selectedDirection: int, remainingFuel: real, fuelFlow: real, combustionTorque: real, transmissionInputTorque: real,
    crankPower: real, frontAxleTorque: real, rearAxleTorque: real, shifting: bool, driveInhibited: bool)

  // ---- Parameters ----

  ghost predicate RisingCurve(curve: seq<TorqueCurvePoint>) {
    && (forall i :: 0 <= i < |curve| ==> 0.0 <= curve[i].rpm <= 100000.0 && 0.0 <= curve[i].torque <= 10000000.0)
    && (forall i, j :: 0 <= i < j < |curve| ==> curve[i].rpm < curve[j].rpm)
  }

  ghost predicate FallingRatios(ratios: seq<real>) {
    && (forall i :: 0 <= i < |ratios| ==> 0.0001 <= ratios[i] <= 1000.0)
    && (forall i, j :: 0 <= i < j < |ratios| ==> ratios[i] > ratios[j])
  }

  predicate ScalarsAreValid(p: PowertrainParameters) {
    var e, t, d, f := p.engine, p.transmission, p.drivetrain, p.fuelTank;
    && 1.0 <= e.idleRpm < e.maxRpm <= 100000.0
    && 0.00001 <= e.rotationalInertia <= 1000000.0 && 0.0001 <= e.responseTime <= 60.0
    && 0.0 <= e.idleFuelLph <= 100000.0 && 1.0 <= e.bsfc <= 100000.0
    && 2 <= |e.torqueCurve| <= 256 && 1 <= |t.forwardRatios| <= 32
    && 0.0001 <= t.reverseRatio <= 1000.0 && 0.0001 <= t.maxInputTorque <= 10000000.0
    && 0.0001 <= t.efficiency <= 1.0 && e.idleRpm < t.downshiftRpm < t.upshiftRpm < e.maxRpm
    && 0.0 < t.shiftDuration <= 10.0
    && 0.0001 <= d.finalDriveRatio <= 1000.0 && 0.0 <= d.frontTorqueFraction <= 1.0 && 0.0001 <= d.efficiency <= 1.0
    && 0.00001 <= f.capacity <= 1000000.0 && 0.0 <= f.initialFuel <= f.capacity && 0.001 <= f.fuelDensity <= 10.0
  }

  ghost predicate ValidParameters(p: PowertrainParameters) {
    && ScalarsAreValid(p)
    && RisingCurve(p.engine.torqueCurve)
    && (exists i :: 0 <= i < |p.engine.torqueCurve| && p.engine.torqueCurve[i].torque > 0.0)
    && p.engine.torqueCurve[0].rpm <= p.engine.idleRpm
    && p.engine.torqueCurve[|p.engine.torqueCurve| - 1].rpm >= p.engine.maxRpm
    && FallingRatios(p.transmission.forwardRatios)
  }

  method CurveIsValid(curve: seq<TorqueCurvePoint>) returns (valid: bool, positiveTorque: bool)
    ensures valid <==> RisingCurve(curve)
    ensures valid ==> (positiveTorque <==> exists i :: 0 <= i < |curve| && curve[i].torque > 0.0)
  {
    var previousRpm := -1.0;
    positiveTorque := false;
    for i := 0 to |curve|
      invariant RisingCurve(curve[..i]) && previousRpm == (if i == 0 then -1.0 else curve[i - 1].rpm)
      invariant positiveTorque <==> exists j :: 0 <= j < i && curve[j].torque > 0.0
    {
      var point := curve[i];
      if !(0.0 <= point.rpm <= 100000.0) || point.rpm <= previousRpm || !(0.0 <= point.torque <= 10000000.0) {
        return false, positiveTorque;
      }
      previousRpm := point.rpm;
      positiveTorque := positiveTorque || point.torque > 0.0;
      CurveGrows(curve, i);
    }
    assert curve[..|curve|] == curve;
    valid := true;
  }

  method RatiosAreValid(ratios: seq<real>) returns (valid: bool)
    ensures valid <==> FallingRatios(ratios)
  {
    var previousRatio := 1001.0;
    for i := 0 to |ratios|
      invariant FallingRatios(ratios[..i]) && previousRatio == (if i == 0 then 1001.0 else ratios[i - 1])
    {
      var ratio := ratios[i];
      if !(0.0001 <= ratio <= 1000.0) || ratio >= previousRatio {
        return false;
      }
      previousRatio := ratio;
      RatiosGrow(ratios, i);
    }
    assert ratios[..|ratios|] == ratios;
    valid := true;
  }

  method ParametersAreValid(p: PowertrainParameters) returns (valid: bool)
    ensures valid <==> ValidParameters(p)
  {
    hide RisingCurve, FallingRatios;
    if !ScalarsAreValid(p) {
      return false;
    }
    var curve := p.engine.torqueCurve;
    var rising, positiveTorque := CurveIsValid(curve);
    if !rising || !positiveTorque || curve[0].rpm > p.engine.idleRpm || curve[|curve| - 1].rpm < p.engine.maxRpm {
      return false;
    }
    valid := RatiosAreValid(p.transmission.forwardRatios);
  }

  lemma {:induction false} CurveGrows(curve: seq<TorqueCurvePoint>, i: nat)
    requires i < |curve| && RisingCurve(curve[..i])
    requires 0.0 <= curve[i].rpm <= 100000.0 && 0.0 <= curve[i].torque <= 10000000.0
    requires i > 0 ==> curve[i - 1].rpm < curve[i].rpm
    ensures RisingCurve(curve[..i + 1])
  {
    var less, more := curve[..i], curve[..i + 1];
    assert forall k :: 0 <= k < i ==> more[k] == less[k] == curve[k];
    assert i > 0 ==> less[i - 1] == curve[i - 1];
  }

  lemma {:induction false} RatiosGrow(ratios: seq<real>, i: nat)
    requires i < |ratios| && FallingRatios(ratios[..i]) && 0.0001 <= ratios[i] <= 1000.0
    requires i > 0 ==> ratios[i - 1] > ratios[i]
    ensures FallingRatios(ratios[..i + 1])
  {
    var less, more := ratios[..i], ratios[..i + 1];
    assert forall k :: 0 <= k < i ==> more[k] == less[k] == ratios[k];
    assert i > 0 ==> less[i - 1] == ratios[i - 1];
  }

  // ---- Engine torque ----

  /** The first point beyond a speed. */
  function UpperBound(curve: seq<TorqueCurvePoint>, rpm: real, from: nat): (i: nat)
    requires from <= |curve|
    ensures from <= i <= |curve| && (i < |curve| ==> rpm < curve[i].rpm)
    ensures forall j :: from <= j < i ==> curve[j].rpm <= rpm
    decreases |curve| - from
  {
    if from == |curve| || rpm < curve[from].rpm then from else UpperBound(curve, rpm, from + 1)
  }

  function InterpolateEngineTorque(curve: seq<TorqueCurvePoint>, rpm: real): real {
    if curve == [] then 0.0
    else if rpm <= curve[0].rpm then curve[0].torque
    else if rpm >= curve[|curve| - 1].rpm then curve[|curve| - 1].torque
    else
      var upper := UpperBound(curve, rpm, 0);
      assert 0 < upper < |curve|;
      var lower := curve[upper - 1];
      var alpha := (rpm - lower.rpm) / (curve[upper].rpm - lower.rpm);
      lower.torque + Times(alpha, curve[upper].torque - lower.torque)
  }

  lemma {:induction false} Between(x: real, low: real, high: real, a: real, b: real)
    requires low <= x < high
    ensures var y := a + Times((x - low) / (high - low), b - a);
      Min(a, b) <= y <= Max(a, b) && (x == low ==> y == a)
  {
    var alpha := (x - low) / (high - low);
    assert 0.0 <= alpha <= 1.0 by {
      FractionBounds(x - low, high - low);
    }
    hide Times;
    TimesBounds(alpha, b - a);
    assert x == low ==> alpha == 0.0;
  }

  lemma {:induction false} TimesBounds(alpha: real, x: real)
    requires 0.0 <= alpha <= 1.0
    ensures x >= 0.0 ==> 0.0 <= Times(alpha, x) <= x
    ensures x <= 0.0 ==> x <= Times(alpha, x) <= 0.0
    ensures alpha == 0.0 ==> Times(alpha, x) == 0.0
  {
    TimesPositive(alpha, x);
    TimesPositive(1.0 - alpha, x);
    assert Times(1.0 - alpha, x) == x - Times(alpha, x);
  }

  /** The interpolation passes through every point and never leaves the range of its two neighbours. */
  lemma {:induction false} TorqueIsOnTheCurve(curve: seq<TorqueCurvePoint>, rpm: real)
    requires RisingCurve(curve) && curve != []
    ensures InterpolateEngineTorque(curve, rpm) >= 0.0
    ensures forall i :: 0 <= i < |curve| && rpm == curve[i].rpm ==>
      InterpolateEngineTorque(curve, rpm) == curve[i].torque
    ensures forall i :: 0 <= i < |curve| - 1 && curve[i].rpm <= rpm <= curve[i + 1].rpm ==>
      Min(curve[i].torque, curve[i + 1].torque) <= InterpolateEngineTorque(curve, rpm)
        <= Max(curve[i].torque, curve[i + 1].torque)
  {
    if curve[0].rpm < rpm < curve[|curve| - 1].rpm {
      var upper := UpperBound(curve, rpm, 0);
      var lower := curve[upper - 1];
      Between(rpm, lower.rpm, curve[upper].rpm, lower.torque, curve[upper].torque);
      forall i | 0 <= i < |curve| - 1 && curve[i].rpm <= rpm <= curve[i + 1].rpm
        ensures i == upper - 1 || (i == upper - 2 && rpm == lower.rpm)
      {
      }
    }
    hide Times;
  }

  // ---- Gears ----

  predicate GearInRange(p: PowertrainParameters, gear: nat) {
    1 <= gear <= |p.transmission.forwardRatios|
  }

  /** The engine speed that a wheel speed means in a gear. */
  function ShaftRpm(p: PowertrainParameters, wheelSpeed: real, ratio: real): real {
    Times(Times(wheelSpeed, ratio), p.drivetrain.finalDriveRatio) / RPM_TO_RAD_S
  }

  function ForwardRatio(p: PowertrainParameters, gear: nat): real
    requires GearInRange(p, gear)
  {
    p.transmission.forwardRatios[gear - 1]
  }

  /** The automatic's choice: up only if that stays above the downshift speed, down only if below the upshift speed. */
  function NextGear(p: PowertrainParameters, gear: nat, shaftRpm: real): nat
    requires GearInRange(p, gear) && ForwardRatio(p, gear) != 0.0
  {
    var t := p.transmission;
    if shaftRpm >= t.upshiftRpm && gear < |t.forwardRatios| then
      if Times(shaftRpm, ForwardRatio(p, gear + 1)) / ForwardRatio(p, gear) > t.downshiftRpm then gear + 1 else gear
    else if shaftRpm < t.downshiftRpm && gear > 1 then
      if Times(shaftRpm, ForwardRatio(p, gear - 1)) / ForwardRatio(p, gear) < t.upshiftRpm then gear - 1 else gear
    else gear
  }

  function MeanWheelSpeed(p: PowertrainParameters, input: PowertrainInput): real {
    Times(input.frontWheelSpeed, p.drivetrain.frontTorqueFraction)
    + Times(input.rearWheelSpeed, 1.0 - p.drivetrain.frontTorqueFraction)
  }

  function WrongDirection(input: PowertrainInput): bool {
    input.direction != 0 && input.direction as real * input.vehicleSpeed < -DIRECTION_CHANGE_SPEED_MPS
  }

  function RatioInUse(p: PowertrainParameters, direction: int, gear: nat): real
    requires GearInRange(p, gear)
  {
    if direction < 0 then p.transmission.reverseRatio else ForwardRatio(p, gear)
  }

  /** A changed selection starts in first gear with a full shift, except in neutral. */
  function AfterSelection(p: PowertrainParameters, s: PowertrainState, input: PowertrainInput): PowertrainState {
    if s.selectedDirection == input.direction then s
    else s.(selectedDirection := input.direction, forwardGear := 1, pendingForwardGear := 1,
            shiftRemaining := if input.direction == 0 then 0.0 else p.transmission.shiftDuration)
  }

  /** A running shift counts down and engages its gear when it is done. */
  function AfterCountdown(s: PowertrainState, dt: real): PowertrainState {
    if s.shiftRemaining > 0.0 then
      var remaining := Max(0.0, s.shiftRemaining - dt);
      s.(shifting := true, shiftRemaining := remaining,
         forwardGear := if remaining <= 0.0 then s.pendingForwardGear else s.forwardGear)
    else s.(shifting := false)
  }

  function AfterGears(
    p: PowertrainParameters, s: PowertrainState, input: PowertrainInput, dt: real): (next: PowertrainState)
    requires ValidRatios(p) && GearInRange(p, s.forwardGear) && GearInRange(p, s.pendingForwardGear)
    ensures GearInRange(p, next.forwardGear) && GearInRange(p, next.pendingForwardGear)
    ensures next == s.(forwardGear := next.forwardGear, pendingForwardGear := next.pendingForwardGear,
      shiftRemaining := next.shiftRemaining, selectedDirection := next.selectedDirection,
      shifting := next.shifting, driveInhibited := next.driveInhibited)
  {
    var inhibited := s.(driveInhibited := input.torqueInhibited || WrongDirection(input));
    var counted := AfterCountdown(AfterSelection(p, inhibited, input), dt);
    if input.direction > 0 && !counted.shifting && !counted.driveInhibited then
      var shaftRpm := ShaftRpm(p, Abs(MeanWheelSpeed(p, input)), ForwardRatio(p, counted.forwardGear));
      var gear := NextGear(p, counted.forwardGear, shaftRpm);
      if gear == counted.forwardGear then counted
      else counted.(pendingForwardGear := gear, shiftRemaining := p.transmission.shiftDuration, shifting := true)
    else counted
  }

  predicate ValidRatios(p: PowertrainParameters) {
    && 1 <= |p.transmission.forwardRatios| && p.transmission.reverseRatio > 0.0
    && (forall i :: 0 <= i < |p.transmission.forwardRatios| ==> p.transmission.forwardRatios[i] > 0.0)
    && p.transmission.downshiftRpm < p.transmission.upshiftRpm
  }

  // ---- Engine, clutch and fuel ----

  /** What the crank does in one step, before the tank is asked. */
  datatype Crank = Crank(throttle: real, combustion: real, oldOmega: real, nextOmega: real, inputTorque: real)

  function MeanOmega(c: Crank): real {
    0.5 * (c.oldOmega + c.nextOmega)
  }

  /** The transmission gets what combustion leaves after spinning up the rotor, cut to the clutch's power ratio. */
  function InputTorque(p: PowertrainParameters, available: real, meanOmega: real, shaftOmega: real): real
    requires shaftOmega >= 0.0
  {
    Min(p.transmission.maxInputTorque,
        Times(available, meanOmega / Max(meanOmega, shaftOmega + CLUTCH_MARGIN_RAD_S)))
  }

  /** The shaft's angular speed as the clutch sees it. */
  function ShaftOmega(p: PowertrainParameters, s: PowertrainState, input: PowertrainInput): (omega: real)
    requires ValidParameters(p) && GearInRange(p, s.forwardGear)
    ensures omega >= 0.0
  {
    var speed, ratio := Abs(MeanWheelSpeed(p, input)), RatioInUse(p, input.direction, s.forwardGear);
    TimesPositive(speed, ratio);
    TimesPositive(Times(speed, ratio), p.drivetrain.finalDriveRatio);
    Times(Times(speed, ratio), p.drivetrain.finalDriveRatio)
  }

  function Engaged(s: PowertrainState, input: PowertrainInput): bool {
    input.direction != 0 && !s.driveInhibited && !s.shifting
  }

  /** The engine follows its target through finite inertia, within the torque available in either direction. */
  function OmegaChange(
    e: EngineParameters, oldOmega: real, targetOmega: real, torque: real, driving: real, dt: real): real
    requires e.rotationalInertia > 0.0 && e.idleRpm > 0.0 && dt > 0.0
  {
    var damping := Max(1.0, torque) / (e.idleRpm * RPM_TO_RAD_S);
    PositiveQuotient(Max(1.0, torque), e.idleRpm * RPM_TO_RAD_S);
    TimesPositive(dt, damping);
    var desired := Times(targetOmega - oldOmega, Times(dt, damping) / (e.rotationalInertia + Times(dt, damping)));
    Max(-(Times(Max(1.0, torque), dt) / e.rotationalInertia), Min(desired, Times(driving, dt) / e.rotationalInertia))
  }

  /** `response` gives the first-order filter's share for dt over the response time. */
  function TurnCrank(
    p: PowertrainParameters, s: PowertrainState, input: PowertrainInput, dt: real, response: real -> real): Crank
    requires ValidParameters(p) && GearInRange(p, s.forwardGear) && dt > 0.0
  {
    var e := p.engine;
    var fueled := s.remainingFuel > 0.0;
    var shaftOmega := ShaftOmega(p, s, input);
    var limited := Engaged(s, input) && shaftOmega / RPM_TO_RAD_S >= e.maxRpm;
    var target := if !fueled || s.driveInhibited || s.shifting || limited then 0.0 else Clamp(input.throttle, 0.0, 1.0);
    var throttle := s.filteredThrottle + Times(target - s.filteredThrottle, response(dt / e.responseTime));
    var torque := InterpolateEngineTorque(e.torqueCurve, s.engineRpm);
    var combustion := if fueled && !s.driveInhibited && !s.shifting && !limited then Times(throttle, torque) else 0.0;
    var oldOmega, idleOmega, maxOmega := s.engineRpm * RPM_TO_RAD_S, e.idleRpm * RPM_TO_RAD_S, e.maxRpm * RPM_TO_RAD_S;
    var targetOmega :=
      if !fueled then 0.0
      else if Engaged(s, input) then Clamp(shaftOmega, idleOmega, maxOmega)
      else idleOmega + Times(if s.shifting || s.driveInhibited then 0.0 else throttle, maxOmega - idleOmega);
    var governor := if fueled && oldOmega < idleOmega then InterpolateEngineTorque(e.torqueCurve, e.idleRpm) else 0.0;
    var delta := OmegaChange(e, oldOmega, targetOmega, torque, combustion + governor, dt);
    var nextOmega := Clamp(oldOmega + delta, 0.0, maxOmega);
    var spinUp := Max(0.0, Times(nextOmega - oldOmega, e.rotationalInertia) / dt);
    var available := Max(0.0, combustion - spinUp);
    var inputTorque := if Engaged(s, input) && fueled && !limited
                       then InputTorque(p, available, 0.5 * (oldOmega + nextOmega), shaftOmega) else 0.0;
    Crank(throttle, combustion, oldOmega, nextOmega, inputTorque)
  }

  /** Litres per hour that idling and the crank's power ask for. */
  function RequestedFlow(p: PowertrainParameters, crankPower: real): real
    requires p.fuelTank.fuelDensity > 0.0
  {
    p.engine.idleFuelLph + Times(p.engine.bsfc, crankPower) / (1000.0 * p.fuelTank.fuelDensity)
  }

  /** The part of the requested litres that the tank still holds. */
  function FuelFraction(remaining: real, litres: real): real {
    if litres > 0.0 then Min(1.0, remaining / litres) else 1.0
  }

  /** The last litres give a time-averaged part of the step's torque, power and spin-up. */
  function BurnFuel(
    p: PowertrainParameters, s: PowertrainState, c: Crank, input: PowertrainInput, dt: real): PowertrainState
    requires ValidParameters(p) && GearInRange(p, s.forwardGear)
  {
    var fueled := s.remainingFuel > 0.0;
    var crankPower := Times(c.combustion, MeanOmega(c)) / 1000.0;
    var requested := RequestedFlow(p, crankPower);
    var litres := Times(requested, dt) / 3600.0;
    var fraction := if fueled then FuelFraction(s.remainingFuel, litres) else 1.0;
    var inputTorque := Times(c.inputTorque, fraction);
    var omega := if fraction < 1.0 && c.nextOmega > c.oldOmega
                 then c.oldOmega + Times(c.nextOmega - c.oldOmega, fraction) else c.nextOmega;
    var axle := AxleTorque(p, s, input, inputTorque);
    s.(engineRpm := omega / RPM_TO_RAD_S, filteredThrottle := c.throttle,
       remainingFuel := if fueled then Max(0.0, s.remainingFuel - litres) else s.remainingFuel,
       fuelFlow := if fueled then Times(requested, fraction) else 0.0,
       combustionTorque := Times(c.combustion, fraction), transmissionInputTorque := inputTorque,
       crankPower := Times(crankPower, fraction),
       frontAxleTorque := Times(axle, p.drivetrain.frontTorqueFraction),
       rearAxleTorque := Times(axle, 1.0 - p.drivetrain.frontTorqueFraction))
  }

  function AxleTorque(p: PowertrainParameters, s: PowertrainState, input: PowertrainInput, inputTorque: real): real
    requires GearInRange(p, s.forwardGear)
  {
    var geared := Times(Times(inputTorque, RatioInUse(p, input.direction, s.forwardGear)),
      p.drivetrain.finalDriveRatio);
    Times(input.direction as real, Times(Times(geared, p.transmission.efficiency), p.drivetrain.efficiency))
  }

  /** What the source demands of a step; anything else is refused without effect. */
  predicate StepIsValid(p: PowertrainParameters, s: PowertrainState, input: PowertrainInput, dt: real) {
    && 0.0 < dt <= MAXIMUM_STEP_S && -1 <= input.direction <= 1
    && GearInRange(p, s.forwardGear) && GearInRange(p, s.pendingForwardGear)
  }

  lemma RatiosOfValid(p: PowertrainParameters)
    requires ValidParameters(p)
    ensures ValidRatios(p)
  {
  }

  function Advance(
    p: PowertrainParameters, s: PowertrainState, input: PowertrainInput, dt: real, response: real -> real)
    : PowertrainState
    requires ValidParameters(p) && StepIsValid(p, s, input, dt)
  {
    RatiosOfValid(p);
    var geared := AfterGears(p, s, input, dt);
    BurnFuel(p, geared, TurnCrank(p, geared, input, dt, response), input, dt)
  }

  /** The gear logic step by step; engine and fuel follow from the gear that is engaged. */
  method AdvancePowertrain(
    p: PowertrainParameters, s: PowertrainState, input: PowertrainInput, dt: real, response: real -> real)
    returns (next: PowertrainState, accepted: bool)
    requires ValidParameters(p)
    ensures accepted <==> StepIsValid(p, s, input, dt)
    ensures next == if accepted then Advance(p, s, input, dt, response) else s
  {
    hide TurnCrank, BurnFuel, ShaftRpm, Times, NextGear;
    if !StepIsValid(p, s, input, dt) {
      return s, false;
    }
    RatiosOfValid(p);
    next := s.(shifting := false, driveInhibited := input.torqueInhibited || WrongDirection(input));
    if next.selectedDirection != input.direction {
      next := next.(selectedDirection := input.direction, forwardGear := 1, pendingForwardGear := 1,
                    shiftRemaining := if input.direction == 0 then 0.0 else p.transmission.shiftDuration);
    }
    if next.shiftRemaining > 0.0 {
      next := next.(shifting := true, shiftRemaining := Max(0.0, next.shiftRemaining - dt));
      if next.shiftRemaining <= 0.0 {
        next := next.(forwardGear := next.pendingForwardGear);
      }
    }
    if input.direction > 0 && !next.shifting && !next.driveInhibited {
      var shaftRpm := ShaftRpm(p, Abs(MeanWheelSpeed(p, input)), ForwardRatio(p, next.forwardGear));
      var gear := NextGear(p, next.forwardGear, shaftRpm);
      if gear != next.forwardGear {
        next := next.(pendingForwardGear := gear, shiftRemaining := p.transmission.shiftDuration, shifting := true);
      }
    }
    assert next == AfterGears(p, s, input, dt);
    var crank := TurnCrank(p, next, input, dt, response);
    next := BurnFuel(p, next, crank, input, dt);
    accepted := true;
  }

  // ---- Neither power nor fuel is created ----

  /** The facts that every step keeps. */
  ghost predicate ValidState(p: PowertrainParameters, s: PowertrainState) {
    && s.engineRpm >= 0.0 && 0.0 <= s.filteredThrottle <= 1.0
    && GearInRange(p, s.forwardGear) && GearInRange(p, s.pendingForwardGear)
    && s.shiftRemaining >= 0.0 && s.remainingFuel >= 0.0
  }

  /** A first-order filter never overshoots. */
  ghost predicate IsFilter(response: real -> real) {
    forall x :: x > 0.0 ==> 0.0 <= response(x) <= 1.0
  }

  lemma {:induction false} FilterStays(throttle: real, target: real, share: real)
    requires 0.0 <= throttle <= 1.0 && 0.0 <= target <= 1.0 && 0.0 <= share <= 1.0
    ensures 0.0 <= throttle + Times(target - throttle, share) <= 1.0
  {
    TimesBounds(share, target - throttle);
    assert Times(share, target - throttle) == Times(target - throttle, share);
    hide Times;
  }

  /** The crank's quantities are non-negative, and the clutch passes on at most the combustion power. */
  ghost predicate SoundCrank(c: Crank, shaftOmega: real) {
    && 0.0 <= c.throttle <= 1.0 && c.combustion >= 0.0 && c.oldOmega >= 0.0 && c.nextOmega >= 0.0
    && c.inputTorque >= 0.0
    && Times(c.inputTorque, shaftOmega) <= Times(c.combustion, MeanOmega(c))
  }

  lemma {:induction false} ClutchPower(
    p: PowertrainParameters, combustion: real, available: real, meanOmega: real, shaftOmega: real)
    requires p.transmission.maxInputTorque > 0.0 && 0.0 <= available <= combustion && meanOmega >= 0.0
      && shaftOmega >= 0.0
    ensures var torque := InputTorque(p, available, meanOmega, shaftOmega);
      torque >= 0.0 && Times(torque, shaftOmega) <= Times(combustion, meanOmega)
  {
    var slower := Max(meanOmega, shaftOmega + CLUTCH_MARGIN_RAD_S);
    var share := meanOmega / slower;
    FractionBounds(meanOmega, slower);
    var torque := InputTorque(p, available, meanOmega, shaftOmega);
    TimesPositive(available, share);
    SlipLoses(available, meanOmega, shaftOmega, slower);
    TimesOrder(shaftOmega, torque, Times(available, share));
    TimesCommutes(shaftOmega, torque);
    TimesCommutes(shaftOmega, Times(available, share));
    TimesOrder(meanOmega, available, combustion);
    TimesCommutes(meanOmega, available);
    TimesCommutes(meanOmega, combustion);
    hide Times;
  }

  lemma {:induction false} SlipLoses(available: real, meanOmega: real, shaftOmega: real, slower: real)
    requires available >= 0.0 && meanOmega >= 0.0 && 0.0 <= shaftOmega <= slower && slower > 0.0
    ensures Times(Times(available, meanOmega / slower), shaftOmega) <= Times(available, meanOmega)
  {
    var share := meanOmega / slower;
    assert Times(share, slower) == meanOmega;
    FractionOf(meanOmega, slower);
    TimesOrder(share, shaftOmega, slower);
    TimesOrder(available, Times(share, shaftOmega), meanOmega);
    assert Times(Times(available, share), shaftOmega) == Times(available, Times(share, shaftOmega));
    hide Times;
  }

  lemma FractionOf(x: real, y: real)
    requires x >= 0.0 && y > 0.0
    ensures x / y >= 0.0
  {
  }

  lemma {:induction false} CrankIsSound(
    p: PowertrainParameters, s: PowertrainState, input: PowertrainInput, dt: real, response: real -> real)
    requires ValidParameters(p) && ValidState(p, s) && dt > 0.0 && IsFilter(response)
    ensures SoundCrank(TurnCrank(p, s, input, dt, response), ShaftOmega(p, s, input))
    ensures s.remainingFuel <= 0.0 || !Engaged(s, input) ==> TurnCrank(p, s, input, dt, response).inputTorque == 0.0
    ensures s.remainingFuel <= 0.0 ==> TurnCrank(p, s, input, dt, response).combustion == 0.0
  {
    hide Times, InterpolateEngineTorque, RisingCurve, FallingRatios, OmegaChange, InputTorque, ShaftOmega,
      ValidParameters;
    EngineFacts(p, s.engineRpm);
    PositiveQuotient(dt, p.engine.responseTime);
    var e := p.engine;
    var share := response(dt / e.responseTime);
    FilterStays(s.filteredThrottle, Clamp(input.throttle, 0.0, 1.0), share);
    FilterStays(s.filteredThrottle, 0.0, share);
    var c := TurnCrank(p, s, input, dt, response);
    TimesPositive(c.throttle, InterpolateEngineTorque(e.torqueCurve, s.engineRpm));
    var shaftOmega := ShaftOmega(p, s, input);
    var spinUp := Max(0.0, Times(c.nextOmega - c.oldOmega, e.rotationalInertia) / dt);
    ClutchPower(p, c.combustion, Max(0.0, c.combustion - spinUp), MeanOmega(c), shaftOmega);
    TimesPositive(c.combustion, MeanOmega(c));
    ZeroTimes(shaftOmega);
  }

  /** Kinetic energy of the engine's rotor. */
  function RotorEnergy(inertia: real, omega: real): real {
    0.5 * Times(inertia, Times(omega, omega))
  }

  /** The torque that speeds the rotor up over one step. */
  function SpinUpTorque(e: EngineParameters, c: Crank, dt: real): real
    requires dt > 0.0
  {
    Max(0.0, Times(c.nextOmega - c.oldOmega, e.rotationalInertia) / dt)
  }

  /** Above idle the rotor speeds up by no more than combustion can turn it. */
  lemma {:induction false} SpinUpWithinCombustion(
    e: EngineParameters, oldOmega: real, targetOmega: real, torque: real, driving: real, dt: real, maxOmega: real)
    requires e.rotationalInertia > 0.0 && e.idleRpm > 0.0 && dt > 0.0 && driving >= 0.0 && oldOmega >= 0.0
      && maxOmega >= 0.0
    ensures var next := Clamp(oldOmega + OmegaChange(e, oldOmega, targetOmega, torque, driving, dt), 0.0, maxOmega);
      Max(0.0, Times(next - oldOmega, e.rotationalInertia) / dt) <= driving
  {
    var delta := OmegaChange(e, oldOmega, targetOmega, torque, driving, dt);
    var next := Clamp(oldOmega + delta, 0.0, maxOmega);
    var limit := Times(driving, dt) / e.rotationalInertia;
    TimesPositive(driving, dt);
    QuotientTimes(Times(driving, dt), e.rotationalInertia);
    NegativeLimit(torque, dt, e.rotationalInertia);
    TimesOrder(e.rotationalInertia, next - oldOmega, limit);
    TimesCommutes(e.rotationalInertia, next - oldOmega);
    TimesCommutes(e.rotationalInertia, limit);
    QuotientOrder(Times(next - oldOmega, e.rotationalInertia), Times(driving, dt), dt);
    ProductOverFactor(dt, driving);
    TimesCommutes(dt, driving);
    hide Times, OmegaChange;
  }

  lemma {:induction false} NegativeLimit(torque: real, dt: real, inertia: real)
    requires dt > 0.0 && inertia > 0.0
    ensures -(Times(Max(1.0, torque), dt) / inertia) < 0.0
  {
    TimesPositive(Max(1.0, torque), dt);
    PositiveQuotient(Times(Max(1.0, torque), dt), inertia);
  }

  lemma QuotientOrder(x: real, y: real, z: real)
    requires z > 0.0
    ensures x <= y ==> x / z <= y / z
  {
  }

  lemma {:induction false} SpinUpWork(inertia: real, oldOmega: real, nextOmega: real, dt: real)
    requires dt > 0.0
    ensures Times(Times(Times(nextOmega - oldOmega, inertia) / dt, 0.5 * (oldOmega + nextOmega)), dt)
         == RotorEnergy(inertia, nextOmega) - RotorEnergy(inertia, oldOmega)
  {
    var torque := Times(nextOmega - oldOmega, inertia) / dt;
    QuotientTimes(Times(nextOmega - oldOmega, inertia), dt);
    assert Times(Times(torque, 0.5 * (oldOmega + nextOmega)), dt)
      == Times(Times(torque, dt), 0.5 * (oldOmega + nextOmega));
    RotorGain(inertia, oldOmega, nextOmega);
    hide Times;
  }

  lemma RotorGain(inertia: real, oldOmega: real, nextOmega: real)
    ensures Times(Times(nextOmega - oldOmega, inertia), 0.5 * (oldOmega + nextOmega))
         == RotorEnergy(inertia, nextOmega) - RotorEnergy(inertia, oldOmega)
  {
  }

  /**
   * Above idle, combustion work over a step pays for both the clutch's work and the energy the rotor gains; what is
   * left is lost in the slipping clutch.
   */
  lemma {:induction false} CombustionPaysForTheRotor(
    p: PowertrainParameters, s: PowertrainState, input: PowertrainInput, dt: real, response: real -> real)
    requires ValidParameters(p) && ValidState(p, s) && dt > 0.0 && IsFilter(response) && s.engineRpm >= p.engine.idleRpm
    ensures var c := TurnCrank(p, s, input, dt, response);
      c.nextOmega >= c.oldOmega ==>
        Times(Times(c.inputTorque, ShaftOmega(p, s, input)), dt)
        + (RotorEnergy(p.engine.rotationalInertia, c.nextOmega) - RotorEnergy(p.engine.rotationalInertia, c.oldOmega))
        <= Times(Times(c.combustion, MeanOmega(c)), dt)
  {
    hide Times, InterpolateEngineTorque, RisingCurve, FallingRatios, OmegaChange, InputTorque, ShaftOmega,
      ValidParameters, RotorEnergy;
    EngineFacts(p, s.engineRpm);
    CrankIsSound(p, s, input, dt, response);
    var e := p.engine;
    var c := TurnCrank(p, s, input, dt, response);
    var shaftOmega := ShaftOmega(p, s, input);
    var spinUp := SpinUpTorque(e, c, dt);
    var torque := InterpolateEngineTorque(e.torqueCurve, s.engineRpm);
    var fueled := s.remainingFuel > 0.0;
    var targetOmega :=
      if !fueled then 0.0
      else if Engaged(s, input) then Clamp(shaftOmega, e.idleRpm * RPM_TO_RAD_S, e.maxRpm * RPM_TO_RAD_S)
      else e.idleRpm * RPM_TO_RAD_S
           + Times(if s.shifting || s.driveInhibited then 0.0 else c.throttle,
                   e.maxRpm * RPM_TO_RAD_S - e.idleRpm * RPM_TO_RAD_S);
    SpinUpWithinCombustion(e, c.oldOmega, targetOmega, torque, c.combustion, dt, e.maxRpm * RPM_TO_RAD_S);
    if c.nextOmega >= c.oldOmega {
      TimesPositive(c.nextOmega - c.oldOmega, e.rotationalInertia);
      QuotientTimes(Times(c.nextOmega - c.oldOmega, e.rotationalInertia), dt);
      SpinUpWork(e.rotationalInertia, c.oldOmega, c.nextOmega, dt);
      ClutchPower(p, c.combustion - spinUp, c.combustion - spinUp, MeanOmega(c), shaftOmega);
      ZeroTimes(shaftOmega);
      TimesPositive(c.combustion - spinUp, MeanOmega(c));
      PowerShares(c.combustion, spinUp, MeanOmega(c), Times(c.inputTorque, shaftOmega), dt);
    }
  }

  lemma {:induction false} PowerShares(combustion: real, spinUp: real, omega: real, clutchPower: real, dt: real)
    requires dt > 0.0 && clutchPower <= Times(combustion - spinUp, omega)
    ensures Times(clutchPower, dt) + Times(Times(spinUp, omega), dt) <= Times(Times(combustion, omega), dt)
  {
    TimesOrder(dt, clutchPower, Times(combustion - spinUp, omega));
    assert Times(dt, Times(combustion - spinUp, omega))
      == Times(Times(combustion, omega), dt) - Times(Times(spinUp, omega), dt);
    TimesCommutes(dt, clutchPower);
    hide Times;
  }

  lemma {:induction false} EngineFacts(p: PowertrainParameters, rpm: real)
    requires ValidParameters(p)
    ensures p.engine.rotationalInertia > 0.0 && p.engine.responseTime > 0.0 && 0.0 < p.engine.idleRpm < p.engine.maxRpm
    ensures p.transmission.maxInputTorque > 0.0
    ensures InterpolateEngineTorque(p.engine.torqueCurve, rpm) >= 0.0
  {
    TorqueIsOnTheCurve(p.engine.torqueCurve, rpm);
  }

  /** Mechanical power delivered to the wheels, in watts. */
  function WheelPower(s: PowertrainState, input: PowertrainInput): real {
    Times(s.frontAxleTorque, input.frontWheelSpeed) + Times(s.rearAxleTorque, input.rearWheelSpeed)
  }

  lemma SplitPower(axle: real, share: real, front: real, rear: real)
    ensures Times(Times(axle, share), front) + Times(Times(axle, 1.0 - share), rear)
         == Times(axle, Times(front, share) + Times(rear, 1.0 - share))
  {
  }

  lemma AbsTimes(x: real, y: real)
    ensures Abs(Times(x, y)) == Times(Abs(x), Abs(y))
  {
  }

  lemma {:induction false} EfficiencyLoses(x: real, efficiency: real)
    requires x >= 0.0 && 0.0 <= efficiency <= 1.0
    ensures 0.0 <= Times(x, efficiency) <= x
  {
    TimesPositive(x, efficiency);
    TimesPositive(x, 1.0 - efficiency);
    assert Times(x, 1.0 - efficiency) == x - Times(x, efficiency);
    hide Times;
  }

  /** Gears trade torque for speed, and efficiencies only lose: the axle's power is at most the clutch's. */
  lemma {:induction false} AxlePower(
    p: PowertrainParameters, s: PowertrainState, input: PowertrainInput, inputTorque: real)
    requires ValidParameters(p) && GearInRange(p, s.forwardGear) && inputTorque >= 0.0 && -1 <= input.direction <= 1
    ensures Abs(Times(AxleTorque(p, s, input, inputTorque), MeanWheelSpeed(p, input)))
         <= Times(inputTorque, ShaftOmega(p, s, input))
  {
    hide RisingCurve, FallingRatios, MeanWheelSpeed;
    var ratio, final, speed :=
      RatioInUse(p, input.direction, s.forwardGear), p.drivetrain.finalDriveRatio, Abs(MeanWheelSpeed(p, input));
    assert ratio > 0.0 && final > 0.0 by {
      RatiosOfValid(p);
    }
    var geared := Times(Times(inputTorque, ratio), final);
    TimesPositive(inputTorque, ratio);
    TimesPositive(Times(inputTorque, ratio), final);
    var after := Times(Times(geared, p.transmission.efficiency), p.drivetrain.efficiency);
    EfficiencyLoses(geared, p.transmission.efficiency);
    EfficiencyLoses(Times(geared, p.transmission.efficiency), p.drivetrain.efficiency);
    SignLoses(input.direction, after);
    AbsTimes(AxleTorque(p, s, input, inputTorque), MeanWheelSpeed(p, input));
    TimesOrder(speed, Abs(AxleTorque(p, s, input, inputTorque)), geared);
    TimesCommutes(speed, Abs(AxleTorque(p, s, input, inputTorque)));
    GearedPower(inputTorque, ratio, final, speed);
    hide Times, ValidParameters;
  }

  lemma {:induction false} SignLoses(direction: int, x: real)
    requires -1 <= direction <= 1 && x >= 0.0
    ensures Abs(Times(direction as real, x)) <= x
  {
    if direction == 0 {
      assert Times(0.0, x) == 0.0;
    } else if direction == 1 {
      assert Times(1.0, x) == x;
    } else {
      assert Times(-1.0, x) == -x;
    }
  }

  lemma GearedPower(torque: real, ratio: real, final: real, speed: real)
    ensures Times(speed, Times(Times(torque, ratio), final)) == Times(torque, Times(Times(speed, ratio), final))
  {
  }

  lemma {:induction false} ScaledPower(torque: real, fraction: real, omega: real, power: real)
    requires 0.0 <= fraction && Times(torque, omega) <= power
    ensures Times(Times(torque, fraction), omega) <= Times(power, fraction)
  {
    TimesOrder(fraction, Times(torque, omega), power);
    assert Times(Times(torque, fraction), omega) == Times(fraction, Times(torque, omega));
    assert Times(fraction, power) == Times(power, fraction);
    hide Times;
  }

  lemma {:induction false} FlowNotNegative(p: PowertrainParameters, crankPower: real, dt: real)
    requires ValidParameters(p) && crankPower >= 0.0 && dt > 0.0
    ensures RequestedFlow(p, crankPower) >= 0.0 && Times(RequestedFlow(p, crankPower), dt) / 3600.0 >= 0.0
  {
    TimesPositive(p.engine.bsfc, crankPower);
    FractionOf(Times(p.engine.bsfc, crankPower), 1000.0 * p.fuelTank.fuelDensity);
    TimesPositive(RequestedFlow(p, crankPower), dt);
    hide Times;
  }

  /** What leaves the tank is what flowed, and the tank never goes below empty. */
  lemma {:induction false} TankBalance(remaining: real, requested: real, dt: real)
    requires remaining > 0.0 && requested >= 0.0 && dt > 0.0
    ensures var litres := Times(requested, dt) / 3600.0;
      var fraction := FuelFraction(remaining, litres);
      && 0.0 <= fraction <= 1.0
      && remaining - Max(0.0, remaining - litres) == Times(Times(requested, fraction), dt) / 3600.0
  {
    var litres := Times(requested, dt) / 3600.0;
    var fraction := FuelFraction(remaining, litres);
    TimesPositive(requested, dt);
    assert Times(Times(requested, fraction), dt) == Times(Times(requested, dt), fraction);
    ScaledLitres(Times(requested, dt), fraction);
    if litres > 0.0 {
      FractionOf(remaining, litres);
      ShareOfLitres(remaining, litres);
      assert Times(litres, 1.0) == litres;
      if remaining >= litres {
        AtLeastOne(remaining, litres);
      } else {
        FractionBounds(remaining, litres);
      }
    } else {
      assert litres == 0.0 && Times(litres, 1.0) == 0.0;
    }
    hide Times;
  }

  lemma AtLeastOne(x: real, y: real)
    requires x >= y > 0.0
    ensures x / y >= 1.0
  {
  }

  lemma ShareOfLitres(remaining: real, litres: real)
    requires litres > 0.0
    ensures Times(litres, remaining / litres) == remaining
  {
  }

  lemma ScaledLitres(x: real, fraction: real)
    ensures Times(x, fraction) / 3600.0 == Times(x / 3600.0, fraction)
  {
  }

  /** What a valid step keeps and accounts for. */
  ghost predicate SoundStep(
    p: PowertrainParameters, s: PowertrainState, input: PowertrainInput, dt: real, next: PowertrainState) {
    && ValidState(p, next) && next.fuelFlow >= 0.0 && next.crankPower >= 0.0
    && s.remainingFuel - next.remainingFuel == Times(next.fuelFlow, dt) / 3600.0
    && Abs(WheelPower(next, input)) <= 1000.0 * next.crankPower
    && (next.shifting ==>
      next.frontAxleTorque == 0.0 && next.rearAxleTorque == 0.0 && next.transmissionInputTorque == 0.0)
  }

  lemma {:induction false} GearsKeepTheRest(
    p: PowertrainParameters, s: PowertrainState, input: PowertrainInput, dt: real)
    requires ValidParameters(p) && ValidState(p, s) && StepIsValid(p, s, input, dt)
    ensures ValidRatios(p) && ValidState(p, AfterGears(p, s, input, dt))
  {
    RatiosOfValid(p);
    hide ShaftRpm, NextGear, Times, RisingCurve, FallingRatios;
  }

  lemma {:induction false} RotorSpeed(c: Crank, fraction: real)
    requires c.oldOmega >= 0.0 && c.nextOmega >= 0.0 && 0.0 <= fraction
    ensures var omega := if fraction < 1.0 && c.nextOmega > c.oldOmega
                         then c.oldOmega + Times(c.nextOmega - c.oldOmega, fraction) else c.nextOmega;
      omega / RPM_TO_RAD_S >= 0.0
  {
    TimesPositive(c.nextOmega - c.oldOmega, fraction);
    hide Times;
  }

  /** The wheels get at most the power that the crank reports, in every direction and gear. */
  lemma {:induction false} BurnIsSound(
    p: PowertrainParameters, s: PowertrainState, c: Crank, input: PowertrainInput, dt: real)
    requires ValidParameters(p) && ValidState(p, s) && StepIsValid(p, s, input, dt)
    requires SoundCrank(c, ShaftOmega(p, s, input)) && (s.shifting ==> c.inputTorque == 0.0)
    requires s.remainingFuel <= 0.0 ==> c.combustion == 0.0
    ensures SoundStep(p, s, input, dt, BurnFuel(p, s, c, input, dt))
  {
    assert p.fuelTank.fuelDensity > 0.0;
    hide Times, ShaftOmega, MeanWheelSpeed, RatioInUse, FuelFraction, RequestedFlow, ValidParameters, AxleTorque;
    var next := BurnFuel(p, s, c, input, dt);
    var crankPower := Times(c.combustion, MeanOmega(c)) / 1000.0;
    TimesPositive(c.combustion, MeanOmega(c));
    FlowNotNegative(p, crankPower, dt);
    var requested := RequestedFlow(p, crankPower);
    var litres := Times(requested, dt) / 3600.0;
    var fraction := if s.remainingFuel > 0.0 then FuelFraction(s.remainingFuel, litres) else 1.0;
    if s.remainingFuel > 0.0 {
      TankBalance(s.remainingFuel, requested, dt);
    } else {
      ZeroTimes(dt);
    }
    var inputTorque := Times(c.inputTorque, fraction);
    TimesPositive(c.inputTorque, fraction);
    TimesPositive(crankPower, fraction);
    TimesPositive(requested, fraction);
    RotorSpeed(c, fraction);
    SplitPower(AxleTorque(p, s, input, inputTorque), p.drivetrain.frontTorqueFraction, input.frontWheelSpeed,
      input.rearWheelSpeed);
    WheelMean(p, input);
    AxlePower(p, s, input, inputTorque);
    ScaledPower(c.inputTorque, fraction, ShaftOmega(p, s, input), Times(c.combustion, MeanOmega(c)));
    ScaledThousand(Times(c.combustion, MeanOmega(c)), fraction);
    if s.shifting {
      ZeroTimes(fraction);
      NoAxleTorque(p, s, input);
      ZeroTimes(p.drivetrain.frontTorqueFraction);
      ZeroTimes(1.0 - p.drivetrain.frontTorqueFraction);
    }
    assert ValidState(p, next);
    assert next.fuelFlow >= 0.0;
    assert next.crankPower >= 0.0;
    assert s.remainingFuel - next.remainingFuel == Times(next.fuelFlow, dt) / 3600.0;
    assert Abs(WheelPower(next, input)) <= 1000.0 * next.crankPower;
  }

  lemma WheelMean(p: PowertrainParameters, input: PowertrainInput)
    ensures MeanWheelSpeed(p, input) == Times(input.frontWheelSpeed, p.drivetrain.frontTorqueFraction)
                                      + Times(input.rearWheelSpeed, 1.0 - p.drivetrain.frontTorqueFraction)
  {
  }

  lemma ScaledThousand(power: real, fraction: real)
    ensures Times(power, fraction) == 1000.0 * Times(power / 1000.0, fraction)
  {
  }

  lemma {:induction false} NoAxleTorque(p: PowertrainParameters, s: PowertrainState, input: PowertrainInput)
    requires GearInRange(p, s.forwardGear)
    ensures AxleTorque(p, s, input, 0.0) == 0.0
  {
    ZeroTimes(RatioInUse(p, input.direction, s.forwardGear));
    ZeroTimes(p.drivetrain.finalDriveRatio);
    ZeroTimes(p.transmission.efficiency);
    ZeroTimes(p.drivetrain.efficiency);
    assert Times(input.direction as real, 0.0) == 0.0;
    hide Times;
  }

  /** No step creates power or fuel, and no step drives while it shifts. */
  lemma {:induction false} StepIsSound(
    p: PowertrainParameters, s: PowertrainState, input: PowertrainInput, dt: real, response: real -> real)
    requires ValidParameters(p) && ValidState(p, s) && StepIsValid(p, s, input, dt) && IsFilter(response)
    ensures SoundStep(p, s, input, dt, Advance(p, s, input, dt, response))
  {
    hide BurnFuel, TurnCrank, SoundCrank, ShaftOmega, Times, WheelPower, ValidParameters;
    GearsKeepTheRest(p, s, input, dt);
    var geared := AfterGears(p, s, input, dt);
    CrankIsSound(p, geared, input, dt, response);
    BurnIsSound(p, geared, TurnCrank(p, geared, input, dt, response), input, dt);
  }

  // ---- Runs ----

  datatype DriveTick = DriveTick(input: PowertrainInput, dt: real)

  predicate TickIsValid(tick: DriveTick) {
    0.0 < tick.dt <= MAXIMUM_STEP_S && -1 <= tick.input.direction <= 1
  }

  ghost predicate CanRun(p: PowertrainParameters, s: PowertrainState, ticks: seq<DriveTick>) {
    && ValidParameters(p) && GearInRange(p, s.forwardGear) && GearInRange(p, s.pendingForwardGear)
    && forall k :: 0 <= k < |ticks| ==> TickIsValid(ticks[k])
  }

  lemma {:induction false} StepKeepsGears(
    p: PowertrainParameters, s: PowertrainState, input: PowertrainInput, dt: real, response: real -> real)
    requires ValidParameters(p) && StepIsValid(p, s, input, dt)
    ensures var next := Advance(p, s, input, dt, response);
      && ValidRatios(p)
      && next.forwardGear == AfterGears(p, s, input, dt).forwardGear
      && next.pendingForwardGear == AfterGears(p, s, input, dt).pendingForwardGear
      && next.shiftRemaining == AfterGears(p, s, input, dt).shiftRemaining
      && next.selectedDirection == AfterGears(p, s, input, dt).selectedDirection
      && next.shifting == AfterGears(p, s, input, dt).shifting
  {
    RatiosOfValid(p);
    hide TurnCrank, AfterGears, Times, RequestedFlow, FuelFraction, AxleTorque;
  }

  /** The state after the first `k` ticks. */
  function Driven(p: PowertrainParameters, s: PowertrainState, ticks: seq<DriveTick>, k: nat, response: real -> real)
    : (later: PowertrainState)
    requires CanRun(p, s, ticks) && k <= |ticks|
    ensures GearInRange(p, later.forwardGear) && GearInRange(p, later.pendingForwardGear)
  {
    if k == 0 then s
    else
      var before := Driven(p, s, ticks, k - 1, response);
      StepKeepsGears(p, before, ticks[k - 1].input, ticks[k - 1].dt, response);
      Advance(p, before, ticks[k - 1].input, ticks[k - 1].dt, response)
  }

  /** Litres that flowed during the first `k` ticks. */
  function Burnt(
    p: PowertrainParameters, s: PowertrainState, ticks: seq<DriveTick>, k: nat, response: real -> real): real
    requires CanRun(p, s, ticks) && k <= |ticks|
  {
    if k == 0 then 0.0
    else
      Burnt(p, s, ticks, k - 1, response)
      + Times(Driven(p, s, ticks, k, response).fuelFlow, ticks[k - 1].dt) / 3600.0
  }

  /**
   * Over every run the throttle stays in [0, 1], the tank never goes below empty, the fuel that is gone is the fuel
   * that flowed, and on every tick the wheels get at most the crank's power.
   */
  lemma {:induction false} RunIsSound(
    p: PowertrainParameters, s: PowertrainState, ticks: seq<DriveTick>, k: nat, response: real -> real)
    requires CanRun(p, s, ticks) && k <= |ticks| && ValidState(p, s) && IsFilter(response)
    ensures ValidState(p, Driven(p, s, ticks, k, response))
    ensures s.remainingFuel - Driven(p, s, ticks, k, response).remainingFuel == Burnt(p, s, ticks, k, response)
    ensures k > 0 ==>
      SoundStep(p, Driven(p, s, ticks, k - 1, response), ticks[k - 1].input, ticks[k - 1].dt,
        Driven(p, s, ticks, k, response))
  {
    hide ValidParameters, Advance, WheelPower, Times, ValidState;
    if k > 0 {
      RunIsSound(p, s, ticks, k - 1, response);
      StepIsSound(p, Driven(p, s, ticks, k - 1, response), ticks[k - 1].input, ticks[k - 1].dt, response);
    }
  }

  // ---- The gearbox does not hunt ----

  /** Uninhibited Drive at constant wheel speeds. */
  ghost predicate SteadyDrive(ticks: seq<DriveTick>, front: real, rear: real) {
    forall k :: 0 <= k < |ticks| ==>
      && ticks[k].input.direction == 1 && !ticks[k].input.torqueInhibited
      && ticks[k].input.vehicleSpeed >= -DIRECTION_CHANGE_SPEED_MPS
      && ticks[k].input.frontWheelSpeed == front && ticks[k].input.rearWheelSpeed == rear
  }

  ghost predicate SettledInDrive(s: PowertrainState) {
    s.selectedDirection == 1 && s.shiftRemaining == 0.0 && s.pendingForwardGear == s.forwardGear
  }

  /** The engine speed in a gear at the given wheel speeds. */
  function RpmInGear(p: PowertrainParameters, gear: nat, front: real, rear: real): real
    requires GearInRange(p, gear)
  {
    ShaftRpm(p, Abs(MeanWheelSpeed(p, PowertrainInput(0.0, 1, 0.0, front, rear, false))), ForwardRatio(p, gear))
  }

  lemma {:induction false} ProjectedRpm(p: PowertrainParameters, gear: nat, other: nat, front: real, rear: real)
    requires ValidRatios(p) && GearInRange(p, gear) && GearInRange(p, other)
    ensures Times(RpmInGear(p, gear, front, rear), ForwardRatio(p, other)) / ForwardRatio(p, gear)
      == RpmInGear(p, other, front, rear)
  {
    var speed := Abs(MeanWheelSpeed(p, PowertrainInput(0.0, 1, 0.0, front, rear, false)));
    RatioCancels(speed, p.drivetrain.finalDriveRatio, ForwardRatio(p, gear), ForwardRatio(p, other));
    hide Times, MeanWheelSpeed;
  }

  lemma {:induction false} RatioCancels(speed: real, final: real, ratio: real, other: real)
    requires ratio > 0.0
    ensures Times(Times(Times(speed, ratio), final) / RPM_TO_RAD_S, other) / ratio
      == Times(Times(speed, other), final) / RPM_TO_RAD_S
  {
    assert Times(Times(Times(speed, ratio), final) / RPM_TO_RAD_S, other)
        == Times(ratio, Times(Times(speed, other), final) / RPM_TO_RAD_S);
    ProductOverFactor(ratio, Times(Times(speed, other), final) / RPM_TO_RAD_S);
    hide Times;
  }

  lemma ProductOverFactor(x: real, y: real)
    requires x > 0.0
    ensures Times(x, y) / x == y
  {
  }

  /** While going up the next gear never calls for a downshift, and while going down never for an upshift. */
  ghost predicate Going(p: PowertrainParameters, s: PowertrainState, way: int, front: real, rear: real)
    requires GearInRange(p, s.pendingForwardGear)
  {
    && s.selectedDirection == 1 && s.shiftRemaining >= 0.0
    && (s.shiftRemaining == 0.0 ==> s.pendingForwardGear == s.forwardGear)
    && -1 <= way <= 1
    && (way == 1 ==> RpmInGear(p, s.pendingForwardGear, front, rear) > p.transmission.downshiftRpm)
    && (way == -1 ==> RpmInGear(p, s.pendingForwardGear, front, rear) < p.transmission.upshiftRpm)
  }

  /** One tick of steady driving either keeps the gear or moves it by one, the way it was already going. */
  lemma {:induction false} SteadyTick(
    p: PowertrainParameters, s: PowertrainState, tick: DriveTick, way: int, front: real, rear: real) returns (next: int)
    requires ValidParameters(p) && GearInRange(p, s.forwardGear) && GearInRange(p, s.pendingForwardGear)
      && TickIsValid(tick)
    requires Going(p, s, way, front, rear) && SteadyDrive([tick], front, rear) && ValidRatios(p)
    ensures var after := AfterGears(p, s, tick.input, tick.dt);
      && -1 <= next <= 1 && Going(p, after, next, front, rear) && (way != 0 ==> next == way)
      && (after.pendingForwardGear == s.pendingForwardGear
          || (next != 0 && after.pendingForwardGear == s.pendingForwardGear + next && after.shifting
            && s.shiftRemaining == 0.0))
  {
    assert [tick][0] == tick;
    var speed := MeanWheelSpeed(p, PowertrainInput(0.0, 1, 0.0, front, rear, false));
    assert MeanWheelSpeed(p, tick.input) == speed;
    assert p.transmission.shiftDuration > 0.0;
    var gear := s.forwardGear;
    if s.shiftRemaining == 0.0 {
      if gear < |p.transmission.forwardRatios| {
        ProjectedRpm(p, gear, gear + 1, front, rear);
      }
      if gear > 1 {
        ProjectedRpm(p, gear, gear - 1, front, rear);
      }
    }
    hide Times, ShaftRpm, MeanWheelSpeed, RisingCurve, FallingRatios, ValidParameters;
    var after := AfterGears(p, s, tick.input, tick.dt);
    next := if after.pendingForwardGear > s.pendingForwardGear then 1
            else if after.pendingForwardGear < s.pendingForwardGear then -1 else way;
  }

  /** The number of shifts started in the first `k` ticks. */
  function Shifts(
    p: PowertrainParameters, s: PowertrainState, ticks: seq<DriveTick>, k: nat, response: real -> real): nat
    requires CanRun(p, s, ticks) && k <= |ticks|
  {
    if k == 0 then 0
    else
      var before, after := Driven(p, s, ticks, k - 1, response), Driven(p, s, ticks, k, response);
      Shifts(p, s, ticks, k - 1, response) + (if after.pendingForwardGear != before.pendingForwardGear then 1 else 0)
  }

  /** The gear stays, or moves by one along `way` with a shift that gives no torque. */
  ghost predicate StepsAlong(before: PowertrainState, after: PowertrainState, way: int) {
    || after.pendingForwardGear == before.pendingForwardGear
    || (after.pendingForwardGear == before.pendingForwardGear + way && after.shifting)
  }

  ghost predicate AllAlong(
    p: PowertrainParameters, s: PowertrainState, ticks: seq<DriveTick>, k: nat, response: real -> real, way: int)
    requires CanRun(p, s, ticks) && k <= |ticks|
  {
    forall j: nat :: 0 < j <= k ==>
      StepsAlong(Driven(p, s, ticks, j - 1, response), Driven(p, s, ticks, j, response), way)
  }

  function Progress(way: int, shifts: nat): int {
    if way == 1 then shifts else if way == -1 then -(shifts as int) else 0
  }

  lemma {:induction false} OneWay(
    p: PowertrainParameters, s: PowertrainState, ticks: seq<DriveTick>, k: nat, response: real -> real, front: real,
    rear: real)
    returns (way: int)
    requires CanRun(p, s, ticks) && k <= |ticks| && SettledInDrive(s) && SteadyDrive(ticks, front, rear)
    ensures -1 <= way <= 1 && Going(p, Driven(p, s, ticks, k, response), way, front, rear)
    ensures AllAlong(p, s, ticks, k, response, way) && (way == 0 ==> Shifts(p, s, ticks, k, response) == 0)
    ensures Driven(p, s, ticks, k, response).pendingForwardGear
      == s.pendingForwardGear + Progress(way, Shifts(p, s, ticks, k, response))
  {
    hide ValidParameters, Advance, AfterGears, RpmInGear, NextGear, AllAlong, Going, SteadyDrive, Driven;
    if k == 0 {
      way := 0;
      StartsSettled(p, s, ticks, response, front, rear);
    } else {
      var before := OneWay(p, s, ticks, k - 1, response, front, rear);
      var state, tick := Driven(p, s, ticks, k - 1, response), ticks[k - 1];
      OneTickSteady(ticks, k - 1, front, rear);
      NextDriven(p, s, ticks, k, response);
      way := SteadyTick(p, state, tick, before, front, rear);
      GoingByGears(p, AfterGears(p, state, tick.input, tick.dt), Driven(p, s, ticks, k, response), way, front, rear);
      OneMoreAlong(p, s, ticks, k, response, before, way);
    }
  }

  lemma {:induction false} StartsSettled(
    p: PowertrainParameters, s: PowertrainState, ticks: seq<DriveTick>, response: real -> real, front: real, rear: real)
    requires CanRun(p, s, ticks) && SettledInDrive(s)
    ensures Driven(p, s, ticks, 0, response) == s
    ensures Going(p, s, 0, front, rear) && AllAlong(p, s, ticks, 0, response, 0)
  {
    hide RpmInGear;
  }

  lemma OneTickSteady(ticks: seq<DriveTick>, k: nat, front: real, rear: real)
    requires k < |ticks| && SteadyDrive(ticks, front, rear)
    ensures SteadyDrive([ticks[k]], front, rear)
  {
  }

  lemma {:induction false} NextDriven(
    p: PowertrainParameters, s: PowertrainState, ticks: seq<DriveTick>, k: nat, response: real -> real)
    requires CanRun(p, s, ticks) && 0 < k <= |ticks|
    ensures ValidRatios(p)
    ensures var before, tick, after :=
      Driven(p, s, ticks, k - 1, response), ticks[k - 1], Driven(p, s, ticks, k, response);
      var geared := AfterGears(p, before, tick.input, tick.dt);
      && after.forwardGear == geared.forwardGear && after.pendingForwardGear == geared.pendingForwardGear
      && after.shiftRemaining == geared.shiftRemaining && after.selectedDirection == geared.selectedDirection
      && after.shifting == geared.shifting
  {
    hide AfterGears, Advance;
    StepKeepsGears(p, Driven(p, s, ticks, k - 1, response), ticks[k - 1].input, ticks[k - 1].dt, response);
  }

  /** Nothing has moved while no way was taken, so the way of a first shift holds for the whole past. */
  lemma {:induction false} OneMoreAlong(
    p: PowertrainParameters, s: PowertrainState, ticks: seq<DriveTick>, k: nat, response: real -> real, before: int,
    way: int)
    requires CanRun(p, s, ticks) && 0 < k <= |ticks| && AllAlong(p, s, ticks, k - 1, response, before)
    requires before != 0 ==> way == before
    requires StepsAlong(Driven(p, s, ticks, k - 1, response), Driven(p, s, ticks, k, response), way)
    ensures AllAlong(p, s, ticks, k, response, way)
  {
    hide Driven;
  }

  lemma {:induction false} GoingByGears(
    p: PowertrainParameters, a: PowertrainState, b: PowertrainState, way: int, front: real, rear: real)
    requires GearInRange(p, a.pendingForwardGear) && Going(p, a, way, front, rear)
    requires a.forwardGear == b.forwardGear && a.pendingForwardGear == b.pendingForwardGear
    requires a.shiftRemaining == b.shiftRemaining && a.selectedDirection == b.selectedDirection
    ensures Going(p, b, way, front, rear)
  {
    hide RpmInGear;
  }

  /**
   * From a settled state in uninhibited Drive at constant wheel speeds, all shifts go the same way, each by one gear
   * and without drive torque, and there are fewer of them than gears.
   */
  lemma {:induction false} GearboxDoesNotHunt(
    p: PowertrainParameters, s: PowertrainState, ticks: seq<DriveTick>, response: real -> real, front: real, rear: real)
    requires CanRun(p, s, ticks) && SettledInDrive(s) && SteadyDrive(ticks, front, rear)
    requires ValidState(p, s) && IsFilter(response)
    ensures exists way :: -1 <= way <= 1 && AllAlong(p, s, ticks, |ticks|, response, way)
    ensures forall j :: 0 < j <= |ticks| && Driven(p, s, ticks, j, response).shifting ==>
      Driven(p, s, ticks, j, response).frontAxleTorque == 0.0 && Driven(p, s, ticks, j, response).rearAxleTorque == 0.0
    ensures Shifts(p, s, ticks, |ticks|, response) <= |p.transmission.forwardRatios| - 1
  {
    hide ValidParameters, Driven, RpmInGear, ValidState, WheelPower, Times, Shifts, AllAlong, Advance;
    var way := OneWay(p, s, ticks, |ticks|, response, front, rear);
    forall j | 0 < j <= |ticks|
      ensures Driven(p, s, ticks, j, response).shifting ==>
        Driven(p, s, ticks, j, response).frontAxleTorque == 0.0
          && Driven(p, s, ticks, j, response).rearAxleTorque == 0.0
    {
      RunIsSound(p, s, ticks, j, response);
    }
  }
}
