/** What the powertrain really delivers: direction, torque, power and fuel of a step, and when it drives or shifts. */
module DriveResponse {
  import opened Planar
  import opened Powertrain

  // ---- The torque curve ----

  lemma LinearShare(x: real, low: real, high: real, a: real, b: real)
    requires low < high
    ensures Times(Times((x - low) / (high - low), b - a), high - low) == Times(b - a, x - low)
  {
  }

  /** Between two neighbouring points the torque is linear in the speed; beyond the ends it is constant. */
  lemma {:induction false} TorqueIsLinear(curve: seq<TorqueCurvePoint>, rpm: real, i: nat)
    requires RisingCurve(curve) && i + 1 < |curve|
    ensures var low, high := curve[i], curve[i + 1];
      low.rpm <= rpm <= high.rpm ==>
        Times(InterpolateEngineTorque(curve, rpm) - low.torque, high.rpm - low.rpm)
        == Times(high.torque - low.torque, rpm - low.rpm)
    ensures rpm <= curve[0].rpm ==> InterpolateEngineTorque(curve, rpm) == curve[0].torque
    ensures rpm >= curve[|curve| - 1].rpm ==> InterpolateEngineTorque(curve, rpm) == curve[|curve| - 1].torque
  {
    var low, high := curve[i], curve[i + 1];
    hide Times;
    if low.rpm < rpm < high.rpm {
      var upper := UpperBound(curve, rpm, 0);
      assert upper == i + 1;
      LinearShare(rpm, low.rpm, high.rpm, low.torque, high.torque);
    } else if rpm == low.rpm || rpm == high.rpm {
      TorqueIsOnTheCurve(curve, rpm);
      TimesZero(high.torque - low.torque);
      ZeroTimes(high.rpm - low.rpm);
    }
  }

  // ---- The axles ----

  lemma {:induction false} GearedTorque(
    p: PowertrainParameters, s: PowertrainState, input: PowertrainInput, torque: real)
    requires ValidParameters(p) && GearInRange(p, s.forwardGear)
    ensures Times(input.direction as real, AxleTorque(p, s, input, torque))
         == Times(Times(input.direction as real, input.direction as real),
              Times(Gain(p, input.direction, s.forwardGear), torque))
    ensures Gain(p, input.direction, s.forwardGear) > 0.0
  {
    var ratio, final := RatioInUse(p, input.direction, s.forwardGear), p.drivetrain.finalDriveRatio;
    assert ratio > 0.0 && final > 0.0 by {
      RatiosOfValid(p);
    }
    hide RatioInUse, ValidParameters, Times;
    GainedTorque(input.direction as real, torque, ratio, final, p.transmission.efficiency, p.drivetrain.efficiency);
    EfficienciesPositive(p);
    TimesPositive(ratio, final);
    TimesPositive(p.transmission.efficiency, p.drivetrain.efficiency);
    TimesPositive(Times(ratio, final), Times(p.transmission.efficiency, p.drivetrain.efficiency));
  }

  lemma EfficienciesPositive(p: PowertrainParameters)
    requires ValidParameters(p)
    ensures p.transmission.efficiency > 0.0 && p.drivetrain.efficiency > 0.0
    ensures 0.0 <= p.drivetrain.frontTorqueFraction <= 1.0
  {
  }

  /** Torque at the axles for each unit at the gearbox. */
  function Gain(p: PowertrainParameters, direction: int, gear: nat): real
    requires GearInRange(p, gear)
  {
    Times(Times(RatioInUse(p, direction, gear), p.drivetrain.finalDriveRatio),
      Times(p.transmission.efficiency, p.drivetrain.efficiency))
  }

  lemma GainedTorque(d: real, torque: real, ratio: real, final: real, first: real, second: real)
    ensures Times(d, Times(d, Times(Times(Times(Times(torque, ratio), final), first), second)))
         == Times(Times(d, d), Times(Times(Times(ratio, final), Times(first, second)), torque))
  {
  }

  lemma SharedSign(d: real, axle: real, share: real)
    ensures Times(d, Times(axle, share)) == Times(Times(d, axle), share)
  {
  }

  /**
   * The axles push the selected way: never against it, and really along it where torque comes in and the axle has a
   * share. Together they get the gearbox torque through both ratios and both efficiencies.
   */
  lemma {:induction false} AxlesPushTheSelectedWay(
    p: PowertrainParameters, s: PowertrainState, c: Crank, input: PowertrainInput, dt: real)
    requires ValidParameters(p) && GearInRange(p, s.forwardGear) && -1 <= input.direction <= 1
    requires BurnFuel(p, s, c, input, dt).transmissionInputTorque >= 0.0
    ensures var next, d, share :=
      BurnFuel(p, s, c, input, dt), input.direction as real, p.drivetrain.frontTorqueFraction;
      && Times(d, next.frontAxleTorque) >= 0.0 && Times(d, next.rearAxleTorque) >= 0.0
      && (input.direction != 0 && next.transmissionInputTorque > 0.0 && share > 0.0 ==>
            Times(d, next.frontAxleTorque) > 0.0)
      && (input.direction != 0 && next.transmissionInputTorque > 0.0 && share < 1.0 ==>
            Times(d, next.rearAxleTorque) > 0.0)
      && (input.direction != 0 ==>
            Times(d, next.frontAxleTorque + next.rearAxleTorque)
            == Times(Gain(p, input.direction, s.forwardGear), next.transmissionInputTorque))
  {
    hide Times, RatioInUse, FuelFraction, RequestedFlow, ValidParameters, AxleTorque, Gain;
    var next, d, share := BurnFuel(p, s, c, input, dt), input.direction as real, p.drivetrain.frontTorqueFraction;
    var axle, torque := AxleTorque(p, s, input, next.transmissionInputTorque), next.transmissionInputTorque;
    EfficienciesPositive(p);
    GearedTorque(p, s, input, torque);
    TimesPositive(Gain(p, input.direction, s.forwardGear), torque);
    UnitSquare(input.direction, Times(Gain(p, input.direction, s.forwardGear), torque));
    SharedSign(d, axle, share);
    SharedSign(d, axle, 1.0 - share);
    TimesPositive(Times(d, axle), share);
    TimesPositive(Times(d, axle), 1.0 - share);
    TimesDistributes(d, Times(axle, share), Times(axle, 1.0 - share));
    WholeShare(axle, share);
  }

  lemma UnitSquare(direction: int, x: real)
    requires -1 <= direction <= 1
    ensures Times(Times(direction as real, direction as real), x) == if direction == 0 then 0.0 else x
  {
  }

  lemma WholeShare(axle: real, share: real)
    ensures Times(axle, share) + Times(axle, 1.0 - share) == axle
  {
  }

  /** With the wheels turning the selected way, they get exactly the clutch power less both efficiencies. */
  lemma {:induction false} WheelPowerIsExact(
    p: PowertrainParameters, s: PowertrainState, c: Crank, input: PowertrainInput, dt: real)
    requires ValidParameters(p) && GearInRange(p, s.forwardGear) && (input.direction == 1 || input.direction == -1)
    requires Times(input.direction as real, MeanWheelSpeed(p, input)) >= 0.0
    ensures var next := BurnFuel(p, s, c, input, dt);
      WheelPower(next, input)
      == Times(Times(p.transmission.efficiency, p.drivetrain.efficiency),
           Times(next.transmissionInputTorque, ShaftOmega(p, s, input)))
  {
    hide Times, RatioInUse, FuelFraction, RequestedFlow, ValidParameters, MeanWheelSpeed;
    var next, d, mean := BurnFuel(p, s, c, input, dt), input.direction as real, MeanWheelSpeed(p, input);
    var ratio, final := RatioInUse(p, input.direction, s.forwardGear), p.drivetrain.finalDriveRatio;
    SplitPower(AxleTorque(p, s, input, next.transmissionInputTorque), p.drivetrain.frontTorqueFraction,
      input.frontWheelSpeed, input.rearWheelSpeed);
    WheelMean(p, input);
    SignedSpeed(input.direction, mean);
    PowerThroughGears(d, next.transmissionInputTorque, ratio, final, p.transmission.efficiency, p.drivetrain.efficiency,
      mean, Abs(mean));
  }

  lemma SignedSpeed(direction: int, speed: real)
    requires (direction == 1 || direction == -1) && Times(direction as real, speed) >= 0.0
    ensures Times(direction as real, speed) == Abs(speed)
  {
  }

  lemma PowerThroughGears(
    d: real, torque: real, ratio: real, final: real, first: real, second: real, mean: real, speed: real)
    requires Times(d, mean) == speed
    ensures Times(Times(d, Times(Times(Times(Times(torque, ratio), final), first), second)), mean)
         == Times(Times(first, second), Times(torque, Times(Times(speed, ratio), final)))
  {
  }

  // ---- The clutch ----

  /** The share of the available torque that keeps the shaft's power within the crank's. */
  lemma {:induction false} SlipShare(available: real, meanOmega: real, shaftOmega: real)
    requires available >= 0.0 && meanOmega >= 0.0 && shaftOmega >= 0.0
    ensures var fast := shaftOmega + CLUTCH_MARGIN_RAD_S;
      var torque := Times(available, meanOmega / Max(meanOmega, fast));
      if meanOmega >= fast then torque == available else Times(torque, fast) == Times(available, meanOmega)
  {
    var fast := shaftOmega + CLUTCH_MARGIN_RAD_S;
    if meanOmega >= fast {
      SameQuotient(meanOmega);
      TimesOne(available);
    } else {
      QuotientTimes(meanOmega, fast);
      Reassociate(available, meanOmega / fast, fast);
    }
    hide Times;
  }

  lemma SameQuotient(x: real)
    requires x > 0.0
    ensures x / x == 1.0
  {
  }

  lemma Reassociate(x: real, y: real, z: real)
    ensures Times(Times(x, y), z) == Times(x, Times(y, z))
  {
  }

  /**
   * The gearbox gets all the available torque when the crank is faster than the shaft, and otherwise all the available
   * power, up to the torque that the gearbox can take.
   */
  lemma {:induction false} ClutchPassesAllItCan(
    p: PowertrainParameters, available: real, meanOmega: real, shaftOmega: real)
    requires available >= 0.0 && meanOmega >= 0.0 && shaftOmega >= 0.0
    ensures var torque, fast := InputTorque(p, available, meanOmega, shaftOmega), shaftOmega + CLUTCH_MARGIN_RAD_S;
      && torque <= p.transmission.maxInputTorque
      && (torque == p.transmission.maxInputTorque
          || if meanOmega >= fast then torque == available else Times(torque, fast) == Times(available, meanOmega))
  {
    SlipShare(available, meanOmega, shaftOmega);
    hide Times;
  }

  // ---- The engine ----

  /** The engine burns: there is fuel, and neither a gate nor a shift nor the limiter cuts it. */
  predicate Burns(p: PowertrainParameters, s: PowertrainState, input: PowertrainInput)
    requires ValidParameters(p) && GearInRange(p, s.forwardGear)
  {
    && s.remainingFuel > 0.0 && !s.driveInhibited && !s.shifting
    && !(Engaged(s, input) && ShaftOmega(p, s, input) / RPM_TO_RAD_S >= p.engine.maxRpm)
  }

  lemma FilterShare(throttle: real, target: real, share: real)
    ensures throttle + Times(target - throttle, share) - target == Times(throttle - target, 1.0 - share)
  {
  }

  /**
   * The throttle closes in on the pedal by the filter's share, or on zero while the engine is cut; torque follows it.
   */
  lemma {:induction false} EngineFollowsThePedal(
    p: PowertrainParameters, s: PowertrainState, input: PowertrainInput, dt: real, response: real -> real)
    requires ValidParameters(p) && GearInRange(p, s.forwardGear) && dt > 0.0
    ensures var c, share := TurnCrank(p, s, input, dt, response), response(dt / p.engine.responseTime);
      var pedal := if Burns(p, s, input) then Clamp(input.throttle, 0.0, 1.0) else 0.0;
      && c.throttle - pedal == Times(s.filteredThrottle - pedal, 1.0 - share)
      && c.oldOmega == s.engineRpm * RPM_TO_RAD_S
      && c.combustion == if Burns(p, s, input)
                         then Times(c.throttle, InterpolateEngineTorque(p.engine.torqueCurve, s.engineRpm)) else 0.0
  {
    EngineFacts(p, s.engineRpm);
    hide Times, InterpolateEngineTorque, RisingCurve, FallingRatios, OmegaChange, InputTorque, ShaftOmega,
      ValidParameters;
    var pedal := if Burns(p, s, input) then Clamp(input.throttle, 0.0, 1.0) else 0.0;
    FilterShare(s.filteredThrottle, pedal, response(dt / p.engine.responseTime));
  }

  lemma {:induction false} PartOfGap(gap: real, x: real, inertia: real)
    requires x > 0.0 && inertia > 0.0
    ensures var step := Times(gap, x / (inertia + x));
      && (gap > 0.0 ==> 0.0 < step < gap) && (gap < 0.0 ==> gap < step < 0.0) && (gap == 0.0 ==> step == 0.0)
  {
    var share := x / (inertia + x);
    ProperShare(x, inertia + x);
    TimesPositive(gap, share);
    TimesPositive(-gap, share);
    TimesPositive(gap, 1.0 - share);
    TimesPositive(-gap, 1.0 - share);
    GapParts(gap, share);
    hide Times;
  }

  lemma {:induction false} ProperShare(x: real, y: real)
    requires 0.0 < x < y
    ensures 0.0 < x / y < 1.0
  {
    QuotientTimes(x, y);
    TimesCommutes(x / y, y);
    TimesOrder(y, 1.0, x / y);
    TimesOne(y);
    hide Times;
  }

  lemma GapParts(gap: real, share: real)
    ensures Times(gap, 1.0 - share) == gap - Times(gap, share)
    ensures Times(-gap, share) == -Times(gap, share) && Times(-gap, 1.0 - share) == -gap + Times(gap, share)
  {
  }

  lemma {:induction false} PositiveLimit(torque: real, dt: real, inertia: real)
    requires dt > 0.0 && inertia > 0.0 && torque >= 0.0
    ensures Times(torque, dt) / inertia >= 0.0 && (torque > 0.0 ==> Times(torque, dt) / inertia > 0.0)
  {
    TimesPositive(torque, dt);
    QuotientTimes(Times(torque, dt), inertia);
    hide Times;
  }

  /** The rotor moves towards its target and never past it; speeding up it stands still only without any torque. */
  lemma {:induction false} RotorNeverOvershoots(
    e: EngineParameters, oldOmega: real, targetOmega: real, torque: real, driving: real, dt: real)
    requires e.rotationalInertia > 0.0 && e.idleRpm > 0.0 && dt > 0.0 && driving >= 0.0
    ensures var delta := OmegaChange(e, oldOmega, targetOmega, torque, driving, dt);
      && (targetOmega >= oldOmega ==> 0.0 <= delta <= targetOmega - oldOmega)
      && (targetOmega <= oldOmega ==> targetOmega - oldOmega <= delta <= 0.0)
      && (targetOmega > oldOmega ==> (delta > 0.0 <==> driving > 0.0))
      && (targetOmega < oldOmega ==> delta < 0.0)
  {
    hide Times;
    var damping := Max(1.0, torque) / (e.idleRpm * RPM_TO_RAD_S);
    PositiveQuotient(Max(1.0, torque), e.idleRpm * RPM_TO_RAD_S);
    TimesPositive(dt, damping);
    PartOfGap(targetOmega - oldOmega, Times(dt, damping), e.rotationalInertia);
    NegativeLimit(torque, dt, e.rotationalInertia);
    PositiveLimit(driving, dt, e.rotationalInertia);
    ZeroTimes(dt);
    NothingOver(e.rotationalInertia);
  }

  /** The speed that the rotor is drawn to: the shaft's within idle and limit when engaged, the pedal's when not. */
  function RotorTarget(p: PowertrainParameters, s: PowertrainState, input: PowertrainInput, throttle: real): real
    requires ValidParameters(p) && GearInRange(p, s.forwardGear)
  {
    var idle, limit := p.engine.idleRpm * RPM_TO_RAD_S, p.engine.maxRpm * RPM_TO_RAD_S;
    if s.remainingFuel <= 0.0 then 0.0
    else if Engaged(s, input) then Clamp(ShaftOmega(p, s, input), idle, limit)
    else idle + Times(if s.shifting || s.driveInhibited then 0.0 else throttle, limit - idle)
  }

  lemma {:induction false} TargetInRange(p: PowertrainParameters, s: PowertrainState, input: PowertrainInput, x: real)
    requires ValidParameters(p) && GearInRange(p, s.forwardGear) && 0.0 <= x <= 1.0
    ensures 0.0 <= RotorTarget(p, s, input, x) <= p.engine.maxRpm * RPM_TO_RAD_S
  {
    EngineFacts(p, 0.0);
    var idle, limit := p.engine.idleRpm * RPM_TO_RAD_S, p.engine.maxRpm * RPM_TO_RAD_S;
    TimesPositive(x, limit - idle);
    TimesOrder(limit - idle, x, 1.0);
    TimesOne(limit - idle);
    TimesCommutes(x, limit - idle);
    TimesZero(0.0);
    ZeroTimes(limit - idle);
    hide Times, ValidParameters, ShaftOmega;
  }

  /**
   * The crank follows its target: it ends between the old speed and the target, slows down whenever it is above, and
   * speeds up exactly with combustion, or below idle with the governor.
   */
  lemma {:induction false} CrankFollowsItsTarget(
    p: PowertrainParameters, s: PowertrainState, input: PowertrainInput, dt: real, response: real -> real)
    requires ValidParameters(p) && ValidState(p, s) && dt > 0.0 && IsFilter(response)
    ensures var c := TurnCrank(p, s, input, dt, response);
      var target, before := RotorTarget(p, s, input, c.throttle), c.oldOmega;
      var governed := s.remainingFuel > 0.0 && before < p.engine.idleRpm * RPM_TO_RAD_S
        && InterpolateEngineTorque(p.engine.torqueCurve, p.engine.idleRpm) > 0.0;
      && (target >= before ==> before <= c.nextOmega <= target)
      && (target <= before ==> target <= c.nextOmega <= before)
      && (target < before ==> c.nextOmega < before)
      && (target > before ==> (c.nextOmega > before <==> c.combustion > 0.0 || governed))
  {
    EngineFacts(p, s.engineRpm);
    EngineFacts(p, p.engine.idleRpm);
    CrankIsSound(p, s, input, dt, response);
    var e, c := p.engine, TurnCrank(p, s, input, dt, response);
    TargetInRange(p, s, input, c.throttle);
    var governor := if s.remainingFuel > 0.0 && c.oldOmega < e.idleRpm * RPM_TO_RAD_S
                    then InterpolateEngineTorque(e.torqueCurve, e.idleRpm) else 0.0;
    RotorNeverOvershoots(e, c.oldOmega, RotorTarget(p, s, input, c.throttle),
      InterpolateEngineTorque(e.torqueCurve, s.engineRpm), c.combustion + governor, dt);
    hide Times, InterpolateEngineTorque, RisingCurve, FallingRatios, OmegaChange, InputTorque, ShaftOmega,
      ValidParameters;
  }

  lemma NothingOver(x: real)
    requires x > 0.0
    ensures 0.0 / x == 0.0
  {
  }

  // ---- When the gearbox shifts ----

  /** The engine speed that the present wheel speeds mean in a gear. */
  function RpmAt(p: PowertrainParameters, input: PowertrainInput, gear: nat): real
    requires GearInRange(p, gear)
  {
    RpmInGear(p, gear, input.frontWheelSpeed, input.rearWheelSpeed)
  }

  /** Drive is selected and settled, and nothing gates it. */
  predicate MayShift(s: PowertrainState, input: PowertrainInput, dt: real) {
    && input.direction > 0 && s.selectedDirection == input.direction && s.shiftRemaining <= 0.0
    && !input.torqueInhibited && input.direction as real * input.vehicleSpeed >= -0.5
  }

  lemma {:induction false} GearChoice(p: PowertrainParameters, gear: nat, input: PowertrainInput)
    requires ValidParameters(p) && ValidRatios(p) && GearInRange(p, gear)
    ensures var next, t := NextGear(p, gear, RpmAt(p, input, gear)), p.transmission;
      && (next == gear + 1 <==>
            gear < |t.forwardRatios| && RpmAt(p, input, gear) >= t.upshiftRpm
              && RpmAt(p, input, gear + 1) > t.downshiftRpm)
      && (next + 1 == gear <==>
            gear > 1 && RpmAt(p, input, gear) < t.downshiftRpm && RpmAt(p, input, gear - 1) < t.upshiftRpm)
      && (next == gear || next == gear + 1 || next + 1 == gear)
  {
    if gear < |p.transmission.forwardRatios| {
      ProjectedRpm(p, gear, gear + 1, input.frontWheelSpeed, input.rearWheelSpeed);
    }
    if gear > 1 {
      ProjectedRpm(p, gear, gear - 1, input.frontWheelSpeed, input.rearWheelSpeed);
    }
    hide Times, RpmInGear, RisingCurve, FallingRatios;
  }

  /**
   * A settled automatic starts an upshift exactly at the upshift speed, if the next gear keeps the engine above the
   * downshift speed; a downshift exactly below that, if the lower gear keeps it below the upshift speed.
   */
  lemma {:induction false} ShiftsExactly(p: PowertrainParameters, s: PowertrainState, input: PowertrainInput, dt: real)
    requires ValidParameters(p) && ValidState(p, s) && StepIsValid(p, s, input, dt) && ValidRatios(p)
    requires MayShift(s, input, dt)
    ensures var next, gear, t := AfterGears(p, s, input, dt), s.forwardGear, p.transmission;
      var up := gear < |t.forwardRatios| && RpmAt(p, input, gear) >= t.upshiftRpm
        && RpmAt(p, input, gear + 1) > t.downshiftRpm;
      var down := gear > 1 && RpmAt(p, input, gear) < t.downshiftRpm && RpmAt(p, input, gear - 1) < t.upshiftRpm;
      && next.forwardGear == gear && next.shifting == (up || down)
      && (up ==> next.pendingForwardGear == gear + 1) && (down ==> next.pendingForwardGear == gear - 1)
      && next.shiftRemaining == if up || down then t.shiftDuration else s.shiftRemaining
  {
    GearChoice(p, s.forwardGear, input);
    assert MeanWheelSpeed(p, input)
        == MeanWheelSpeed(p, PowertrainInput(0.0, 1, 0.0, input.frontWheelSpeed, input.rearWheelSpeed, false));
    hide Times, NextGear, MeanWheelSpeed, RisingCurve, FallingRatios;
  }

  /** A running shift lasts exactly its time: until then the old gear stays, then the pending one is engaged. */
  lemma {:induction false} ShiftTakesItsTime(
    p: PowertrainParameters, s: PowertrainState, input: PowertrainInput, dt: real)
    requires ValidParameters(p) && ValidRatios(p) && StepIsValid(p, s, input, dt)
    requires s.selectedDirection == input.direction && s.shiftRemaining > 0.0
    ensures var next := AfterGears(p, s, input, dt);
      && next.shifting && next.pendingForwardGear == s.pendingForwardGear
      && next.shiftRemaining == Max(0.0, s.shiftRemaining - dt)
      && next.forwardGear == if dt >= s.shiftRemaining then s.pendingForwardGear else s.forwardGear
  {
    hide Times, NextGear, RisingCurve, FallingRatios;
  }

  /** A changed selection starts from first gear, with a whole shift unless it is neutral. */
  lemma {:induction false} SelectionStartsInFirst(
    p: PowertrainParameters, s: PowertrainState, input: PowertrainInput, dt: real)
    requires ValidParameters(p) && ValidRatios(p) && StepIsValid(p, s, input, dt)
      && s.selectedDirection != input.direction
    ensures var next := AfterGears(p, s, input, dt);
      && next.selectedDirection == input.direction && next.forwardGear == 1 && next.pendingForwardGear == 1
      && next.shifting == (input.direction != 0)
      && next.shiftRemaining == if input.direction == 0 then 0.0 else Max(0.0, p.transmission.shiftDuration - dt)
  {
    hide Times, NextGear, RisingCurve, FallingRatios;
  }

  // ---- A whole step ----

  /** The gearbox gets torque: selected, fuelled and ungated, with combustion to spare and a turning crank. */
  predicate Drives(p: PowertrainParameters, s: PowertrainState, input: PowertrainInput, c: Crank, dt: real)
    requires ValidParameters(p) && GearInRange(p, s.forwardGear) && dt > 0.0
  {
    input.direction != 0 && Burns(p, s, input) && c.combustion > SpinUpTorque(p.engine, c, dt) && MeanOmega(c) > 0.0
  }

  lemma {:induction false} CrankDrivesExactly(
    p: PowertrainParameters, s: PowertrainState, input: PowertrainInput, dt: real, response: real -> real)
    requires ValidParameters(p) && ValidState(p, s) && dt > 0.0 && IsFilter(response)
    ensures var c := TurnCrank(p, s, input, dt, response);
      c.inputTorque > 0.0 <==> Drives(p, s, input, c, dt)
  {
    EngineFacts(p, s.engineRpm);
    CrankIsSound(p, s, input, dt, response);
    hide Times, InterpolateEngineTorque, RisingCurve, FallingRatios, OmegaChange, InputTorque, ShaftOmega,
      ValidParameters;
    var c := TurnCrank(p, s, input, dt, response);
    var available := Max(0.0, c.combustion - SpinUpTorque(p.engine, c, dt));
    PassedTorque(p, available, MeanOmega(c), ShaftOmega(p, s, input));
  }

  lemma {:induction false} PassedTorque(p: PowertrainParameters, available: real, meanOmega: real, shaftOmega: real)
    requires p.transmission.maxInputTorque > 0.0 && available >= 0.0 && meanOmega >= 0.0 && shaftOmega >= 0.0
    ensures InputTorque(p, available, meanOmega, shaftOmega) > 0.0 <==> available > 0.0 && meanOmega > 0.0
  {
    var faster := Max(meanOmega, shaftOmega + CLUTCH_MARGIN_RAD_S);
    QuotientTimes(meanOmega, faster);
    TimesPositive(available, meanOmega / faster);
    ZeroTimes(meanOmega / faster);
    TimesZero(available);
    NothingOver(faster);
    hide Times;
  }

  lemma {:induction false} BurntTorque(
    p: PowertrainParameters, s: PowertrainState, c: Crank, input: PowertrainInput, dt: real)
    requires ValidParameters(p) && ValidState(p, s) && dt > 0.0 && SoundCrank(c, ShaftOmega(p, s, input))
    ensures var next := BurnFuel(p, s, c, input, dt);
      && next.transmissionInputTorque >= 0.0 && next.crankPower >= 0.0
      && (next.transmissionInputTorque > 0.0 <==> c.inputTorque > 0.0)
  {
    assert p.fuelTank.fuelDensity > 0.0;
    hide Times, ShaftOmega, MeanWheelSpeed, RatioInUse, RequestedFlow, ValidParameters, AxleTorque;
    var crankPower := Times(c.combustion, MeanOmega(c)) / 1000.0;
    TimesPositive(c.combustion, MeanOmega(c));
    FlowNotNegative(p, crankPower, dt);
    var litres := Times(RequestedFlow(p, crankPower), dt) / 3600.0;
    if s.remainingFuel > 0.0 && litres > 0.0 {
      QuotientTimes(s.remainingFuel, litres);
    }
    var fraction := if s.remainingFuel > 0.0 then FuelFraction(s.remainingFuel, litres) else 1.0;
    TimesPositive(c.inputTorque, fraction);
    ZeroTimes(fraction);
    TimesPositive(crankPower, fraction);
  }

  /**
   * A step drives exactly when a way is selected, nothing gates or limits the engine, and combustion has more than the
   * rotor takes; and then it drives the selected way, with the exact balance of power at the wheels.
   */
  lemma {:induction false} StepDrivesTheSelectedWay(
    p: PowertrainParameters, s: PowertrainState, input: PowertrainInput, dt: real, response: real -> real)
    requires ValidParameters(p) && ValidState(p, s) && StepIsValid(p, s, input, dt) && IsFilter(response)
    requires ValidRatios(p)
    ensures var next, geared, d :=
      Advance(p, s, input, dt, response), AfterGears(p, s, input, dt), input.direction as real;
      var c, share := TurnCrank(p, geared, input, dt, response), p.drivetrain.frontTorqueFraction;
      && (next.transmissionInputTorque > 0.0 <==> Drives(p, geared, input, c, dt))
      && Times(d, next.frontAxleTorque) >= 0.0 && Times(d, next.rearAxleTorque) >= 0.0
      && (Drives(p, geared, input, c, dt) && share > 0.0 ==> Times(d, next.frontAxleTorque) > 0.0)
      && (Drives(p, geared, input, c, dt) && share < 1.0 ==> Times(d, next.rearAxleTorque) > 0.0)
      && (input.direction != 0 && Times(d, MeanWheelSpeed(p, input)) >= 0.0 ==>
            WheelPower(next, input)
            == Times(Times(p.transmission.efficiency, p.drivetrain.efficiency),
                 Times(next.transmissionInputTorque, ShaftOmega(p, geared, input))))
  {
    hide BurnFuel, TurnCrank, SoundCrank, ShaftOmega, Times, WheelPower, ValidParameters, MeanWheelSpeed, Drives,
      AfterGears;
    GearsKeepTheRest(p, s, input, dt);
    var geared := AfterGears(p, s, input, dt);
    var c := TurnCrank(p, geared, input, dt, response);
    CrankIsSound(p, geared, input, dt, response);
    CrankDrivesExactly(p, geared, input, dt, response);
    BurntTorque(p, geared, c, input, dt);
    DrivesSomeWay(p, geared, input, c, dt);
    AxlesPushTheSelectedWay(p, geared, c, input, dt);
    if input.direction != 0 && Times(input.direction as real, MeanWheelSpeed(p, input)) >= 0.0 {
      WheelPowerIsExact(p, geared, c, input, dt);
    }
  }

  lemma DrivesSomeWay(p: PowertrainParameters, s: PowertrainState, input: PowertrainInput, c: Crank, dt: real)
    requires ValidParameters(p) && GearInRange(p, s.forwardGear) && dt > 0.0
    ensures Drives(p, s, input, c, dt) ==> input.direction != 0
  {
  }

  // ---- Fuel ----

  lemma FlowInGrams(p: PowertrainParameters, power: real)
    requires p.fuelTank.fuelDensity > 0.0
    ensures Times(RequestedFlow(p, power) - p.engine.idleFuelLph, 1000.0 * p.fuelTank.fuelDensity)
         == Times(p.engine.bsfc, power)
  {
  }

  /**
   * While the tank lasts, the flow is the idle flow and the specific consumption of the crank's power, which is the
   * combustion torque at the mean speed; and the engine turns at the crank's new speed.
   */
  lemma {:induction false} FuelPaysForPower(
    p: PowertrainParameters, s: PowertrainState, c: Crank, input: PowertrainInput, dt: real)
    requires ValidParameters(p) && GearInRange(p, s.forwardGear)
    requires BurnFuel(p, s, c, input, dt).remainingFuel > 0.0
    ensures var next := BurnFuel(p, s, c, input, dt);
      && next.combustionTorque == c.combustion && next.transmissionInputTorque == c.inputTorque
      && 1000.0 * next.crankPower == Times(c.combustion, MeanOmega(c))
      && Times(next.fuelFlow - p.engine.idleFuelLph, 1000.0 * p.fuelTank.fuelDensity)
         == Times(p.engine.bsfc, next.crankPower)
      && next.engineRpm == c.nextOmega / RPM_TO_RAD_S && next.filteredThrottle == c.throttle
  {
    assert p.fuelTank.fuelDensity > 0.0;
    hide Times, AxleTorque, RequestedFlow, ValidParameters;
    var crankPower := Times(c.combustion, MeanOmega(c)) / 1000.0;
    var requested := RequestedFlow(p, crankPower);
    var litres := Times(requested, dt) / 3600.0;
    if s.remainingFuel > 0.0 && litres > 0.0 {
      AtLeastOne(s.remainingFuel, litres);
    }
    TimesOne(c.inputTorque);
    TimesOne(c.combustion);
    TimesOne(crankPower);
    TimesOne(requested);
    FlowInGrams(p, crankPower);
  }
}
