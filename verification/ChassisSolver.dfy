/** The chassis shell on the ground: sampled contact planes, bounded pose correction, lift, and the velocity solve. */
module ChassisSolver {
  import opened Options
  import opened Planar

  const QUERY_LIFT_M: real := 4.0
  const QUERY_DEPTH_M: real := 24.0
  const PENETRATION_TOLERANCE_M: real := 0.000001
  const CONTACT_SLOP_M: real := 0.0001
  const NORMAL_EPSILON: real := 0.000000001
  const MASS_EPSILON: real := 0.000000000001
  const POSITION_ITERATIONS: nat := 32
  const VELOCITY_ITERATIONS: nat := 32
  const MAXIMUM_TRANSLATION_STEP_M: real := 0.15
  const MAXIMUM_ROTATION_STEP_RAD: real := 0.03490658503988659
  const CONVERGED_DELTA: real := 0.00000001

  datatype Vector3 = Vector3(x: real, y: real, z: real)

  function Dot3(a: Vector3, b: Vector3): real {
    Times(a.x, b.x) + Times(a.y, b.y) + Times(a.z, b.z)
  }

  function Cross3(a: Vector3, b: Vector3): Vector3 {
    Vector3(Times(a.y, b.z) - Times(a.z, b.y), Times(a.z, b.x) - Times(a.x, b.z), Times(a.x, b.y) - Times(a.y, b.x))
  }

  /** Sine and cosine from outside, of which only the Pythagorean identity matters. */
  datatype Trigonometry = Trigonometry(sine: real -> real, cosine: real -> real)

  ghost predicate Circular(trig: Trigonometry) {
    forall x :: Square(trig.sine(x)) + Square(trig.cosine(x)) == 1.0
  }

  datatype ChassisPose = ChassisPose(
    east: real, north: real, up: real, heading: real, pitch: real, roll: real,
    upVelocity: real, pitchRate: real, rollRate: real)

  datatype ChassisBox = ChassisBox(
    centerUpOffset: real, halfLength: real, halfWidth: real, halfHeight: real, mass: real,
    rollInertia: real, pitchInertia: real, yawInertia: real, centerForwardOffset: real)

  ghost predicate ValidBox(box: ChassisBox) {
    && box.halfLength > 0.0 && box.halfWidth > 0.0 && box.halfHeight > 0.0 && box.mass > 0.0
    && box.rollInertia > 0.0 && box.pitchInertia > 0.0 && box.yawInertia > 0.0
  }

  datatype BodyBasis = BodyBasis(forward: Vector3, right: Vector3, up: Vector3)

  function MakeBodyBasis(trig: Trigonometry, heading: real, pitch: real, roll: real): BodyBasis {
    var hs, hc := trig.sine(heading), trig.cosine(heading);
    var ps, pc := trig.sine(pitch), trig.cosine(pitch);
    var rs, rc := trig.sine(roll), trig.cosine(roll);
    var pitchUp := Vector3(Times(-ps, hs), Times(-ps, hc), pc);
    BodyBasis(
      Vector3(Times(pc, hs), Times(pc, hc), ps),
      Vector3(Times(rc, hc) - Times(rs, pitchUp.x), Times(rc, -hs) - Times(rs, pitchUp.y), Times(-rs, pitchUp.z)),
      Vector3(Times(rs, hc) + Times(rc, pitchUp.x), Times(rs, -hs) + Times(rc, pitchUp.y), Times(rc, pitchUp.z)))
  }

  function BasisOf(trig: Trigonometry, pose: ChassisPose): BodyBasis {
    MakeBodyBasis(trig, pose.heading, pose.pitch, pose.roll)
  }

  function WorldOffset(basis: BodyBasis, local: Vector3): Vector3 {
    Vector3(
      Times(local.x, basis.forward.x) + Times(local.y, basis.right.x) + Times(local.z, basis.up.x),
      Times(local.x, basis.forward.y) + Times(local.y, basis.right.y) + Times(local.z, basis.up.y),
      Times(local.x, basis.forward.z) + Times(local.y, basis.right.z) + Times(local.z, basis.up.z))
  }

  function HorizontalRight(trig: Trigonometry, heading: real): Vector3 {
    Vector3(trig.cosine(heading), -trig.sine(heading), 0.0)
  }

  function EffectivePitchInertia(trig: Trigonometry, box: ChassisBox, roll: real): real {
    Times(box.pitchInertia, Square(trig.cosine(roll))) + Times(box.yawInertia, Square(trig.sine(roll)))
  }

  lemma {:induction false} PitchInertiaPositive(trig: Trigonometry, box: ChassisBox, roll: real)
    requires Circular(trig) && ValidBox(box)
    ensures EffectivePitchInertia(trig, box, roll) > 0.0
  {
    hide Times, Square;
    var c, s := Square(trig.cosine(roll)), Square(trig.sine(roll));
    assert c >= 0.0 && s >= 0.0 && (c > 0.0 || s > 0.0);
    TimesPositive(box.pitchInertia, c);
    TimesPositive(box.yawInertia, s);
  }

  // ---- Contact planes ----

  datatype ContactConstraint = ContactConstraint(localOffset: Vector3, normal: Vector3, point: Vector3)

  datatype GroundHit = GroundHit(point: Vector3, normal: Vector3)

  /** The signed distance of a shell point from its plane. */
  function Clearance(pose: ChassisPose, basis: BodyBasis, c: ContactConstraint): real {
    var offset := WorldOffset(basis, c.localOffset);
    Times(c.normal.x, pose.east + offset.x - c.point.x) + Times(c.normal.y, pose.north + offset.y - c.point.y)
    + Times(c.normal.z, pose.up + offset.z - c.point.z)
  }

  lemma {:induction false} LiftedClearance(pose: ChassisPose, basis: BodyBasis, c: ContactConstraint, lift: real)
    ensures Clearance(pose.(up := pose.up + lift), basis, c) == Clearance(pose, basis, c) + Times(c.normal.z, lift)
  {
    hide Times, WorldOffset;
    TimesDistributes(c.normal.z, pose.up + WorldOffset(basis, c.localOffset).z - c.point.z, lift);
  }

  /** Eight corners, four side centres, bottom and top, shifted along the body. */
  function ShellSamples(box: ChassisBox): (samples: seq<Vector3>)
    ensures |samples| == 14
  {
    var l, w, f := box.halfLength, box.halfWidth, box.centerForwardOffset;
    var low, high, middle :=
      box.centerUpOffset - box.halfHeight, box.centerUpOffset + box.halfHeight, box.centerUpOffset;
    [Vector3(f - l, -w, low), Vector3(f - l, -w, high), Vector3(f - l, w, low), Vector3(f - l, w, high),
     Vector3(f + l, -w, low), Vector3(f + l, -w, high), Vector3(f + l, w, low), Vector3(f + l, w, high),
     Vector3(f - l, 0.0, middle), Vector3(f + l, 0.0, middle), Vector3(f, -w, middle), Vector3(f, w, middle),
     Vector3(f, 0.0, low), Vector3(f, 0.0, high)]
  }

  /** The plane under one shell point: none without a hit or with a normal that is degenerate or not facing up. */
  function PlaneUnder(
    trig: Trigonometry, pose: ChassisPose, local: Vector3, query: (Vector3, real) -> Option<GroundHit>,
    length: Vector3 -> real)
    : Option<ContactConstraint>
  {
    var offset := WorldOffset(BasisOf(trig, pose), local);
    var hit := query(Vector3(pose.east + offset.x, pose.north + offset.y, pose.up + offset.z + QUERY_LIFT_M),
      QUERY_DEPTH_M);
    if hit.None? then None
    else
      var normal, size := hit.value.normal, length(hit.value.normal);
      if size <= NORMAL_EPSILON || normal.z <= 0.0 then None
      else Some(ContactConstraint(local, Vector3(normal.x / size, normal.y / size, normal.z / size), hit.value.point))
  }

  /** The planes found under the shell at a pose. */
  ghost predicate IsSampled(
    trig: Trigonometry, pose: ChassisPose, box: ChassisBox, query: (Vector3, real) -> Option<GroundHit>,
    length: Vector3 -> real, c: ContactConstraint)
  {
    exists k :: 0 <= k < 14 && var plane := PlaneUnder(trig, pose, ShellSamples(box)[k], query, length);
      plane.Some? && plane.value == c && Clearance(pose, BasisOf(trig, pose), c) <= CONTACT_SLOP_M
  }

  /** The shell point lies below its plane by exactly `depth`. */
  ghost predicate PenetratesBy(trig: Trigonometry, pose: ChassisPose, plane: Option<ContactConstraint>, depth: real) {
    plane.Some? && -Clearance(pose, BasisOf(trig, pose), plane.value) == depth
  }

  /** No plane is penetrated more deeply, and one is exactly so if any is at all. */
  ghost predicate DeepestPenetration(
    trig: Trigonometry, pose: ChassisPose, box: ChassisBox, query: (Vector3, real) -> Option<GroundHit>,
    length: Vector3 -> real, depth: real)
  {
    && depth >= 0.0
    && (forall k :: 0 <= k < 14 ==> var plane := PlaneUnder(trig, pose, ShellSamples(box)[k], query, length);
          plane.Some? ==> -Clearance(pose, BasisOf(trig, pose), plane.value) <= depth)
    && (depth > 0.0 ==>
          exists k :: 0 <= k < 14 &&
            PenetratesBy(trig, pose, PlaneUnder(trig, pose, ShellSamples(box)[k], query, length), depth))
  }

  /** Exactly the planes within the contact slop, and the deepest penetration of any plane. */
  method SampleConstraints(
    trig: Trigonometry, pose: ChassisPose, box: ChassisBox, query: (Vector3, real) -> Option<GroundHit>,
    length: Vector3 -> real)
    returns (constraints: seq<ContactConstraint>, maximumPenetration: real)
    ensures forall c :: c in constraints <==> IsSampled(trig, pose, box, query, length, c)
    ensures DeepestPenetration(trig, pose, box, query, length, maximumPenetration)
  {
    hide PlaneUnder, Clearance, ShellSamples;
    constraints, maximumPenetration := [], 0.0;
    var samples := ShellSamples(box);
    for k := 0 to |samples|
      invariant forall c ::
        c in constraints <==> exists j :: 0 <= j < k && var plane := PlaneUnder(trig, pose, samples[j], query, length);
        plane.Some? && plane.value == c && Clearance(pose, BasisOf(trig, pose), c) <= CONTACT_SLOP_M
      invariant maximumPenetration >= 0.0
      invariant forall j :: 0 <= j < k ==> var plane := PlaneUnder(trig, pose, samples[j], query, length);
        plane.Some? ==> -Clearance(pose, BasisOf(trig, pose), plane.value) <= maximumPenetration
      invariant maximumPenetration > 0.0 ==>
        exists j :: 0 <= j < k
          && PenetratesBy(trig, pose, PlaneUnder(trig, pose, samples[j], query, length), maximumPenetration)
    {
      var plane := PlaneUnder(trig, pose, samples[k], query, length);
      if plane.Some? {
        var clearance := Clearance(pose, BasisOf(trig, pose), plane.value);
        maximumPenetration := Max(maximumPenetration, Max(0.0, -clearance));
        if clearance <= CONTACT_SLOP_M {
          constraints := constraints + [plane.value];
        }
      }
    }
  }

  // ---- Generalised coordinates: heave, roll, pitch ----

  datatype Rates = Rates(up: real, roll: real, pitch: real)
  datatype Masses = Masses(heave: real, roll: real, pitch: real)

  ghost predicate Positive(m: Masses) {
    m.heave > 0.0 && m.roll > 0.0 && m.pitch > 0.0
  }

  function MassesOf(trig: Trigonometry, box: ChassisBox, roll: real): Masses {
    Masses(box.mass, box.rollInertia, EffectivePitchInertia(trig, box, roll))
  }

  function Energy(m: Masses, r: Rates): real {
    0.5 * Times(m.heave, Times(r.up, r.up)) + 0.5 * Times(m.roll, Times(r.roll, r.roll))
    + 0.5 * Times(m.pitch, Times(r.pitch, r.pitch))
  }

  /** How fast a shell point leaves its plane, per unit of each coordinate's rate. */
  function Jacobian(trig: Trigonometry, pose: ChassisPose, c: ContactConstraint): Rates {
    var basis := BasisOf(trig, pose);
    var offset := WorldOffset(basis, c.localOffset);
    Rates(c.normal.z, Dot3(c.normal, Cross3(basis.forward, offset)),
          Dot3(c.normal, Cross3(HorizontalRight(trig, pose.heading), offset)))
  }

  function Against(j: Rates, r: Rates): real {
    Times(j.up, r.up) + Times(j.roll, r.roll) + Times(j.pitch, r.pitch)
  }

  /** The rates that a unit impulse along a Jacobian produces. */
  function Response(m: Masses, j: Rates): Rates
    requires m.heave != 0.0 && m.roll != 0.0 && m.pitch != 0.0
  {
    Rates(j.up / m.heave, j.roll / m.roll, j.pitch / m.pitch)
  }

  function InverseEffectiveMass(m: Masses, j: Rates): real
    requires m.heave != 0.0 && m.roll != 0.0 && m.pitch != 0.0
  {
    Against(j, Response(m, j))
  }

  function Moved(r: Rates, response: Rates, amount: real): Rates {
    Rates(r.up + Times(amount, response.up), r.roll + Times(amount, response.roll),
      r.pitch + Times(amount, response.pitch))
  }

  // ---- Pose correction and lift ----

  const NO_RATES := Rates(0.0, 0.0, 0.0)

  ghost function InverseMassAt(trig: Trigonometry, pose: ChassisPose, box: ChassisBox, c: ContactConstraint): real
    requires Circular(trig) && ValidBox(box)
  {
    PitchInertiaPositive(trig, box, pose.roll);
    InverseEffectiveMass(MassesOf(trig, box, pose.roll), Jacobian(trig, pose, c))
  }

  /** The contact lies deeper than the tolerance, and the body can move out of it. */
  ghost predicate Penetrates(trig: Trigonometry, pose: ChassisPose, box: ChassisBox, c: ContactConstraint)
    requires Circular(trig) && ValidBox(box)
  {
    Clearance(pose, BasisOf(trig, pose), c) < -PENETRATION_TOLERANCE_M
      && InverseMassAt(trig, pose, box, c) > MASS_EPSILON
  }

  /** The response to the impulse that gives one contact the rate `gain`, on top of `sum`. */
  ghost function Pushed(m: Masses, sum: Rates, j: Rates, gain: real): Rates
    requires Positive(m) && InverseEffectiveMass(m, j) > 0.0
  {
    Moved(sum, Response(m, j), gain / InverseEffectiveMass(m, j))
  }

  /** The push of one contact closes its penetration to first order, and no smaller motion does. */
  lemma {:induction false} PushIsLeast(m: Masses, j: Rates, gain: real, other: Rates)
    requires Positive(m) && InverseEffectiveMass(m, j) > 0.0
    ensures var push := Pushed(m, NO_RATES, j, gain);
      && Against(j, push) == gain
      && (Against(j, other) == gain ==> Energy(m, push) <= Energy(m, other))
  {
    hide Energy, Against, Response, Moved, Times;
    var inverse := InverseEffectiveMass(m, j);
    var impulse := gain / inverse;
    QuotientTimes(gain, inverse);
    RateAfterImpulse(j, NO_RATES, Response(m, j), impulse);
    RestIsStill(m, j);
    if Against(j, other) == gain {
      EnergyAfterImpulse(m, NO_RATES, j, impulse);
      EnergyAfterImpulse(m, other, j, -impulse);
      EnergyNotNegative(m, Moved(other, Response(m, j), -impulse));
      TimesZero(impulse);
      HalfTheWork(impulse, inverse);
    }
  }

  lemma HalfTheWork(impulse: real, inverse: real)
    ensures Times(Times(impulse, impulse), inverse) == Times(impulse, Times(impulse, inverse))
    ensures Times(Times(-impulse, -impulse), inverse) == Times(impulse, Times(impulse, inverse))
    ensures Times(-impulse, Times(impulse, inverse)) == -Times(impulse, Times(impulse, inverse))
  {
  }

  lemma RestIsStill(m: Masses, j: Rates)
    ensures Against(j, NO_RATES) == 0.0 && Energy(m, NO_RATES) == 0.0
  {
  }

  lemma {:induction false} EnergyNotNegative(m: Masses, r: Rates)
    requires Positive(m)
    ensures Energy(m, r) >= 0.0
  {
    TimesPositive(m.heave, Square(r.up));
    TimesPositive(m.roll, Square(r.roll));
    TimesPositive(m.pitch, Square(r.pitch));
    hide Times;
  }

  /** The pushes of all penetrating contacts together. */
  ghost function PushSum(
    trig: Trigonometry, pose: ChassisPose, box: ChassisBox, constraints: seq<ContactConstraint>): Rates
    requires Circular(trig) && ValidBox(box)
  {
    if constraints == [] then NO_RATES
    else
      var sum, c := PushSum(trig, pose, box, constraints[..|constraints| - 1]), constraints[|constraints| - 1];
      if !Penetrates(trig, pose, box, c) then sum
      else
        PitchInertiaPositive(trig, box, pose.roll);
        Pushed(MassesOf(trig, box, pose.roll), sum, Jacobian(trig, pose, c), -Clearance(pose, BasisOf(trig, pose), c))
  }

  ghost function PushCount(
    trig: Trigonometry, pose: ChassisPose, box: ChassisBox, constraints: seq<ContactConstraint>): nat
    requires Circular(trig) && ValidBox(box)
  {
    if constraints == [] then 0
    else
      PushCount(trig, pose, box, constraints[..|constraints| - 1])
      + if Penetrates(trig, pose, box, constraints[|constraints| - 1]) then 1 else 0
  }

  lemma {:induction false} NothingToPush(
    trig: Trigonometry, pose: ChassisPose, box: ChassisBox, constraints: seq<ContactConstraint>)
    requires Circular(trig) && ValidBox(box)
    ensures PushCount(trig, pose, box, constraints) == 0
        <==> forall k :: 0 <= k < |constraints| ==> !Penetrates(trig, pose, box, constraints[k])
  {
    hide Penetrates;
    if constraints != [] {
      var most := constraints[..|constraints| - 1];
      NothingToPush(trig, pose, box, most);
      assert forall k :: 0 <= k < |most| ==> constraints[k] == most[k];
    }
  }

  function Within(value: real, limit: real): real
    requires limit >= 0.0
  {
    Clamp(value, -limit, limit)
  }

  /** The average push, inside the trust region. */
  ghost function CorrectedPose(
    trig: Trigonometry, pose: ChassisPose, box: ChassisBox, constraints: seq<ContactConstraint>)
    : ChassisPose
    requires Circular(trig) && ValidBox(box)
  {
    var count := PushCount(trig, pose, box, constraints);
    if count == 0 then pose
    else
      var sum, share := PushSum(trig, pose, box, constraints), 1.0 / count as real;
      pose.(up := pose.up + Within(Times(sum.up, share), MAXIMUM_TRANSLATION_STEP_M),
            roll := pose.roll + Within(Times(sum.roll, share), MAXIMUM_ROTATION_STEP_RAD),
            pitch := pose.pitch + Within(Times(sum.pitch, share), MAXIMUM_ROTATION_STEP_RAD))
  }

  /** One averaged, bounded correction step; zero contacts mean that nothing penetrates beyond the tolerance. */
  method PositionStep(trig: Trigonometry, pose: ChassisPose, box: ChassisBox, constraints: seq<ContactConstraint>)
    returns (next: ChassisPose, count: nat)
    requires Circular(trig) && ValidBox(box)
    ensures next == CorrectedPose(trig, pose, box, constraints) && count == PushCount(trig, pose, box, constraints)
    ensures next == pose.(up := next.up, roll := next.roll, pitch := next.pitch)
    ensures Abs(next.up - pose.up) <= MAXIMUM_TRANSLATION_STEP_M
    ensures Abs(next.roll - pose.roll) <= MAXIMUM_ROTATION_STEP_RAD
    ensures Abs(next.pitch - pose.pitch) <= MAXIMUM_ROTATION_STEP_RAD
    ensures count == 0 <==> forall k :: 0 <= k < |constraints| ==> !Penetrates(trig, pose, box, constraints[k])
  {
    hide Clearance, Jacobian, Times, EffectivePitchInertia, Moved, InverseEffectiveMass;
    PitchInertiaPositive(trig, box, pose.roll);
    var masses := MassesOf(trig, box, pose.roll);
    var sum := NO_RATES;
    count := 0;
    for k := 0 to |constraints|
      invariant sum == PushSum(trig, pose, box, constraints[..k])
      invariant count == PushCount(trig, pose, box, constraints[..k])
    {
      assert constraints[..k + 1][..k] == constraints[..k];
      var clearance := Clearance(pose, BasisOf(trig, pose), constraints[k]);
      if clearance >= -PENETRATION_TOLERANCE_M {
        continue;
      }
      var jacobian := Jacobian(trig, pose, constraints[k]);
      var inverse := InverseEffectiveMass(masses, jacobian);
      if inverse <= MASS_EPSILON {
        continue;
      }
      sum := Moved(sum, Response(masses, jacobian), -clearance / inverse);
      count := count + 1;
    }
    assert constraints[..|constraints|] == constraints;
    NothingToPush(trig, pose, box, constraints);
    if count == 0 {
      return pose, 0;
    }
    var share := 1.0 / count as real;
    next := pose.(
      up := pose.up + Within(Times(sum.up, share), MAXIMUM_TRANSLATION_STEP_M),
      roll := pose.roll + Within(Times(sum.roll, share), MAXIMUM_ROTATION_STEP_RAD),
      pitch := pose.pitch + Within(Times(sum.pitch, share), MAXIMUM_ROTATION_STEP_RAD));
  }

  /** The pose after `n` corrections. */
  ghost function Corrections(
    trig: Trigonometry, pose: ChassisPose, box: ChassisBox, constraints: seq<ContactConstraint>, n: nat): ChassisPose
    requires Circular(trig) && ValidBox(box)
  {
    if n == 0 then pose else CorrectedPose(trig, Corrections(trig, pose, box, constraints, n - 1), box, constraints)
  }

  /**
   * Corrections as long as something penetrates, at most 32. Only height, roll and pitch change, each within the trust
   * region; unless all corrections are used up, nothing penetrates any more.
   */
  method CorrectPose(trig: Trigonometry, pose: ChassisPose, box: ChassisBox, constraints: seq<ContactConstraint>)
    returns (next: ChassisPose, corrected: bool, ghost steps: nat)
    requires Circular(trig) && ValidBox(box)
    ensures next == Corrections(trig, pose, box, constraints, steps) && steps <= POSITION_ITERATIONS
    ensures steps < POSITION_ITERATIONS ==>
      forall k :: 0 <= k < |constraints| ==> !Penetrates(trig, next, box, constraints[k])
    ensures corrected <==> steps > 0
    ensures corrected <==> exists k :: 0 <= k < |constraints| && Penetrates(trig, pose, box, constraints[k])
    ensures next == pose.(up := next.up, roll := next.roll, pitch := next.pitch) && (!corrected ==> next == pose)
    ensures Abs(next.up - pose.up) <= POSITION_ITERATIONS as real * MAXIMUM_TRANSLATION_STEP_M
    ensures Abs(next.roll - pose.roll) <= POSITION_ITERATIONS as real * MAXIMUM_ROTATION_STEP_RAD
    ensures Abs(next.pitch - pose.pitch) <= POSITION_ITERATIONS as real * MAXIMUM_ROTATION_STEP_RAD
  {
    hide CorrectedPose, PushCount, Penetrates;
    next, corrected, steps := pose, false, 0;
    for iteration := 0 to POSITION_ITERATIONS
      invariant steps == iteration && next == Corrections(trig, pose, box, constraints, steps)
      invariant corrected <==> steps > 0
      invariant steps > 0 ==> exists k :: 0 <= k < |constraints| && Penetrates(trig, pose, box, constraints[k])
      invariant next == pose.(up := next.up, roll := next.roll, pitch := next.pitch) && (!corrected ==> next == pose)
      invariant Abs(next.up - pose.up) <= iteration as real * MAXIMUM_TRANSLATION_STEP_M
      invariant Abs(next.roll - pose.roll) <= iteration as real * MAXIMUM_ROTATION_STEP_RAD
      invariant Abs(next.pitch - pose.pitch) <= iteration as real * MAXIMUM_ROTATION_STEP_RAD
    {
      var moved, count := PositionStep(trig, next, box, constraints);
      if count == 0 {
        break;
      }
      next, corrected, steps := moved, true, steps + 1;
    }
  }

  /** The least lift that leaves every up-facing plane with at least the tolerance of clearance. */
  method LiftClear(trig: Trigonometry, pose: ChassisPose, constraints: seq<ContactConstraint>)
    returns (next: ChassisPose, lift: real)
    ensures lift >= 0.0 && next == pose.(up := pose.up + lift)
    ensures forall c :: c in constraints && c.normal.z > NORMAL_EPSILON ==>
      Clearance(next, BasisOf(trig, next), c) >= PENETRATION_TOLERANCE_M
    ensures lift > 0.0 ==> Touches(trig, next, constraints)
  {
    hide Clearance, MakeBodyBasis;
    lift := 0.0;
    for k := 0 to |constraints|
      invariant lift >= 0.0
      invariant forall j :: 0 <= j < k && constraints[j].normal.z > NORMAL_EPSILON ==>
        NeededLift(trig, pose, constraints[j]) <= lift
      invariant lift > 0.0 ==>
        exists j :: 0 <= j < k && constraints[j].normal.z > NORMAL_EPSILON
          && NeededLift(trig, pose, constraints[j]) == lift
    {
      if constraints[k].normal.z > NORMAL_EPSILON {
        lift := Max(lift, NeededLift(trig, pose, constraints[k]));
      }
    }
    next := pose.(up := pose.up + lift);
    forall c | c in constraints && c.normal.z > NORMAL_EPSILON
      ensures Clearance(next, BasisOf(trig, next), c) >= PENETRATION_TOLERANCE_M
    {
      var j :| 0 <= j < |constraints| && constraints[j] == c;
      assert NeededLift(trig, pose, constraints[j]) <= lift;
      EnoughLift(trig, pose, c, lift);
    }
    if lift > 0.0 {
      ghost var j :|
        0 <= j < |constraints| && constraints[j].normal.z > NORMAL_EPSILON
          && NeededLift(trig, pose, constraints[j]) == lift;
      EnoughLift(trig, pose, constraints[j], lift);
    }
  }

  /** Some up-facing plane is at exactly the tolerance. */
  ghost predicate Touches(trig: Trigonometry, pose: ChassisPose, constraints: seq<ContactConstraint>) {
    exists k :: 0 <= k < |constraints| && constraints[k].normal.z > NORMAL_EPSILON
             && Clearance(pose, BasisOf(trig, pose), constraints[k]) == PENETRATION_TOLERANCE_M
  }

  function NeededLift(trig: Trigonometry, pose: ChassisPose, c: ContactConstraint): real
    requires c.normal.z > NORMAL_EPSILON
  {
    (-Clearance(pose, BasisOf(trig, pose), c) + PENETRATION_TOLERANCE_M) / c.normal.z
  }

  lemma {:induction false} EnoughLift(trig: Trigonometry, pose: ChassisPose, c: ContactConstraint, lift: real)
    requires c.normal.z > NORMAL_EPSILON && NeededLift(trig, pose, c) <= lift
    ensures Clearance(pose.(up := pose.up + lift), BasisOf(trig, pose), c) >= PENETRATION_TOLERANCE_M
    ensures NeededLift(trig, pose, c) == lift ==>
      Clearance(pose.(up := pose.up + lift), BasisOf(trig, pose), c) == PENETRATION_TOLERANCE_M
  {
    hide Clearance, MakeBodyBasis;
    LiftedClearance(pose, BasisOf(trig, pose), c, lift);
    ProductOfQuotient(-Clearance(pose, BasisOf(trig, pose), c) + PENETRATION_TOLERANCE_M, c.normal.z);
    TimesOrder(c.normal.z, NeededLift(trig, pose, c), lift);
    hide Times;
  }

  // ---- The velocity solve ----

  datatype VelocityConstraint = VelocityConstraint(jacobian: Rates, inverseEffectiveMass: real)

  ghost predicate Solvable(m: Masses, constraints: seq<VelocityConstraint>) {
    && Positive(m)
    && forall k :: 0 <= k < |constraints| ==>
         && constraints[k].inverseEffectiveMass == InverseEffectiveMass(m, constraints[k].jacobian)
         && constraints[k].inverseEffectiveMass > 0.0
  }

  /** The rates that all the impulses together produce. */
  function Effect(m: Masses, constraints: seq<VelocityConstraint>, impulses: seq<real>): Rates
    requires |impulses| == |constraints| && m.heave != 0.0 && m.roll != 0.0 && m.pitch != 0.0
  {
    if constraints == [] then Rates(0.0, 0.0, 0.0)
    else
      var n := |constraints| - 1;
      Moved(Effect(m, constraints[..n], impulses[..n]), Response(m, constraints[n].jacobian), impulses[n])
  }

  function Plus(a: Rates, b: Rates): Rates {
    Rates(a.up + b.up, a.roll + b.roll, a.pitch + b.pitch)
  }

  lemma {:induction false} ZeroEffect(m: Masses, constraints: seq<VelocityConstraint>, impulses: seq<real>)
    requires |impulses| == |constraints| && Positive(m) && forall k :: 0 <= k < |impulses| ==> impulses[k] == 0.0
    ensures Effect(m, constraints, impulses) == Rates(0.0, 0.0, 0.0)
  {
    hide Response;
    if constraints != [] {
      ZeroEffect(m, constraints[..|constraints| - 1], impulses[..|constraints| - 1]);
    }
  }

  lemma MovedTwice(r: Rates, a: Rates, x: real, b: Rates, y: real)
    ensures Moved(Moved(r, a, x), b, y) == Moved(Moved(r, b, y), a, x)
    ensures Moved(Moved(r, a, x), a, y) == Moved(r, a, x + y)
  {
  }

  /** Changing one impulse changes the effect by that constraint's response. */
  lemma {:induction false} EffectOfChange(
    m: Masses, constraints: seq<VelocityConstraint>, impulses: seq<real>, i: nat, next: real)
    requires |impulses| == |constraints| && i < |impulses| && Positive(m)
    ensures Effect(m, constraints, impulses[i := next])
         == Moved(Effect(m, constraints, impulses), Response(m, constraints[i].jacobian), next - impulses[i])
  {
    hide Response, Moved;
    var n := |constraints| - 1;
    var changed := impulses[i := next];
    var shorter, last := Effect(m, constraints[..n], impulses[..n]), Response(m, constraints[n].jacobian);
    if i == n {
      assert changed[..n] == impulses[..n];
      MovedTwice(shorter, last, impulses[n], last, next - impulses[n]);
    } else {
      EffectOfChange(m, constraints[..n], impulses[..n], i, next);
      assert changed[..n] == impulses[..n][i := next];
      MovedTwice(shorter, Response(m, constraints[i].jacobian), next - impulses[i], last, impulses[n]);
    }
  }

  lemma PlusMoved(a: Rates, b: Rates, response: Rates, amount: real)
    ensures Plus(a, Moved(b, response, amount)) == Moved(Plus(a, b), response, amount)
    ensures Plus(a, Rates(0.0, 0.0, 0.0)) == a
  {
  }

  lemma CoordinateEnergy(m: real, v: real, q: real, d: real)
    ensures 0.5 * Times(m, Times(v + Times(d, q), v + Times(d, q)))
         == 0.5 * Times(m, Times(v, v)) + Times(d, Times(Times(m, q), v))
           + 0.5 * Times(Times(d, d), Times(Times(m, q), q))
  {
  }

  lemma SumOfProducts(d: real, x: real, y: real, z: real)
    ensures Times(d, x + y + z) == Times(d, x) + Times(d, y) + Times(d, z)
  {
  }

  /** Energy after an impulse: linear in the approach rate, quadratic in the impulse. */
  lemma {:induction false} EnergyAfterImpulse(m: Masses, r: Rates, j: Rates, d: real)
    requires Positive(m)
    ensures Energy(m, Moved(r, Response(m, j), d))
         == Energy(m, r) + Times(d, Against(j, r)) + 0.5 * Times(Times(d, d), InverseEffectiveMass(m, j))
  {
    hide Times;
    var q := Response(m, j);
    ProductOfQuotient(j.up, m.heave);
    ProductOfQuotient(j.roll, m.roll);
    ProductOfQuotient(j.pitch, m.pitch);
    CoordinateEnergy(m.heave, r.up, q.up, d);
    CoordinateEnergy(m.roll, r.roll, q.roll, d);
    CoordinateEnergy(m.pitch, r.pitch, q.pitch, d);
    SumOfProducts(d, Times(j.up, r.up), Times(j.roll, r.roll), Times(j.pitch, r.pitch));
    SumOfProducts(Times(d, d), Times(j.up, q.up), Times(j.roll, q.roll), Times(j.pitch, q.pitch));
  }

  /** The projected step loses energy whenever it does anything, cut off at zero or not. */
  lemma {:induction false} ProjectedStepLosesEnergy(rate: real, inverse: real, previous: real)
    requires inverse > 0.0 && previous >= 0.0
    ensures var d := Max(0.0, previous - rate / inverse) - previous;
      var change := Times(d, rate) + 0.5 * Times(Times(d, d), inverse);
      change <= 0.0 && (d != 0.0 ==> change < 0.0)
  {
    var q := rate / inverse;
    ProductOfQuotient(rate, inverse);
    if previous - q > 0.0 {
      FreeStep(q, inverse);
    } else {
      ClampedStep(q, inverse, previous);
    }
    hide Times;
  }

  lemma {:induction false} FreeStep(q: real, inverse: real)
    requires inverse > 0.0
    ensures var change := Times(-q, Times(inverse, q)) + 0.5 * Times(Times(-q, -q), inverse);
      change <= 0.0 && (q != 0.0 ==> change < 0.0)
  {
    TimesPositive(inverse, Square(q));
    assert Times(-q, Times(inverse, q)) == -Times(inverse, Square(q));
    assert Times(Times(-q, -q), inverse) == Times(inverse, Square(q));
    hide Times;
  }

  lemma {:induction false} ClampedStep(q: real, inverse: real, previous: real)
    requires inverse > 0.0 && 0.0 <= previous <= q
    ensures var change := Times(-previous, Times(inverse, q)) + 0.5 * Times(Times(-previous, -previous), inverse);
      change <= 0.0 && (previous != 0.0 ==> change < 0.0)
  {
    var product := Times(inverse, previous);
    TimesPositive(inverse, previous);
    TimesPositive(product, q - 0.5 * previous);
    assert Times(-previous, Times(inverse, q)) + 0.5 * Times(Times(-previous, -previous), inverse)
        == -Times(product, q - 0.5 * previous);
    hide Times;
  }

  /** One projected step makes its own contact stop approaching, exactly when it pushes. */
  lemma {:induction false} ProjectedStepIsExact(rate: real, inverse: real, previous: real)
    requires inverse > 0.0 && previous >= 0.0
    ensures var next := Max(0.0, previous - rate / inverse);
      var after := rate + Times(next - previous, inverse);
      after >= 0.0 && (next > 0.0 ==> after == 0.0)
  {
    var q := rate / inverse;
    ProductOfQuotient(rate, inverse);
    assert Times(-q, inverse) == -Times(inverse, q);
    if previous <= q {
      TimesOrder(inverse, previous, q);
      assert Times(-previous, inverse) == -Times(inverse, previous);
    }
    hide Times;
  }

  /** The projected impulse of one constraint. */
  function NextImpulse(c: VelocityConstraint, r: Rates, previous: real): real
    requires c.inverseEffectiveMass != 0.0
  {
    Max(0.0, previous - Against(c.jacobian, r) / c.inverseEffectiveMass)
  }

  lemma {:induction false} StepLosesEnergy(
    m: Masses, constraints: seq<VelocityConstraint>, i: nat, r: Rates, previous: real)
    requires Solvable(m, constraints) && i < |constraints| && previous >= 0.0
    ensures var c := constraints[i];
      var next := NextImpulse(c, r, previous);
      var after := Moved(r, Response(m, c.jacobian), next - previous);
      && Energy(m, after) <= Energy(m, r) && (next != previous ==> Energy(m, after) < Energy(m, r))
      && Against(c.jacobian, after) >= 0.0 && (next > 0.0 ==> Against(c.jacobian, after) == 0.0)
      && (next == previous ==> after == r)
      && (Against(c.jacobian, r) < 0.0 ==> next != previous)
      && (previous == 0.0 && Against(c.jacobian, r) >= 0.0 ==> next == 0.0)
  {
    var c := constraints[i];
    var next := NextImpulse(c, r, previous);
    NotMoved(r, Response(m, c.jacobian));
    QuotientSign(Against(c.jacobian, r), c.inverseEffectiveMass);
    hide Times, Energy, Against, Response, Moved;
    EnergyAfterImpulse(m, r, c.jacobian, next - previous);
    ProjectedStepLosesEnergy(Against(c.jacobian, r), c.inverseEffectiveMass, previous);
    ProjectedStepIsExact(Against(c.jacobian, r), c.inverseEffectiveMass, previous);
    RateAfterImpulse(c.jacobian, r, Response(m, c.jacobian), next - previous);
  }

  lemma NotMoved(r: Rates, response: Rates)
    ensures Moved(r, response, 0.0) == r
  {
  }

  lemma QuotientSign(x: real, z: real)
    requires z > 0.0
    ensures x < 0.0 <==> x / z < 0.0
  {
  }

  /** An impulse changes a contact's rate by the coupling between the two contacts. */
  lemma {:induction false} RateAfterImpulse(j: Rates, r: Rates, response: Rates, d: real)
    ensures Against(j, Moved(r, response, d)) == Against(j, r) + Times(d, Against(j, response))
  {
    RateOfOne(j.up, r.up, response.up, d);
    RateOfOne(j.roll, r.roll, response.roll, d);
    RateOfOne(j.pitch, r.pitch, response.pitch, d);
    SumOfProducts(d, Times(j.up, response.up), Times(j.roll, response.roll), Times(j.pitch, response.pitch));
    hide Times;
  }

  lemma RateOfOne(j: real, v: real, q: real, d: real)
    ensures Times(j, v + Times(d, q)) == Times(j, v) + Times(d, Times(j, q))
  {
  }

  // ---- How strongly contacts influence each other ----

  function Coupling(m: Masses, constraints: seq<VelocityConstraint>, k: nat, i: nat): real
    requires k < |constraints| && i < |constraints| && m.heave != 0.0 && m.roll != 0.0 && m.pitch != 0.0
  {
    Against(constraints[k].jacobian, Response(m, constraints[i].jacobian))
  }

  function RowBound(m: Masses, constraints: seq<VelocityConstraint>, k: nat, n: nat): real
    requires k < |constraints| && n <= |constraints| && m.heave != 0.0 && m.roll != 0.0 && m.pitch != 0.0
  {
    if n == 0 then 0.0 else Max(RowBound(m, constraints, k, n - 1), Abs(Coupling(m, constraints, k, n - 1)))
  }

  /** The strongest influence between any two of the first `n` contacts and all contacts. */
  function CouplingBound(m: Masses, constraints: seq<VelocityConstraint>, n: nat): real
    requires n <= |constraints| && m.heave != 0.0 && m.roll != 0.0 && m.pitch != 0.0
  {
    if n == 0 then 0.0 else Max(CouplingBound(m, constraints, n - 1), RowBound(m, constraints, n - 1, |constraints|))
  }

  lemma {:induction false} InRowBound(m: Masses, constraints: seq<VelocityConstraint>, k: nat, i: nat, n: nat)
    requires Positive(m) && k < |constraints| && i < n <= |constraints|
    ensures Abs(Coupling(m, constraints, k, i)) <= RowBound(m, constraints, k, n)
  {
    hide Coupling;
    if i < n - 1 {
      InRowBound(m, constraints, k, i, n - 1);
    }
  }

  lemma {:induction false} InCouplingBound(m: Masses, constraints: seq<VelocityConstraint>, k: nat, i: nat, n: nat)
    requires Positive(m) && k < n <= |constraints| && i < |constraints|
    ensures Abs(Coupling(m, constraints, k, i)) <= CouplingBound(m, constraints, n)
  {
    hide Coupling;
    if k < n - 1 {
      InCouplingBound(m, constraints, k, i, n - 1);
    } else {
      InRowBound(m, constraints, k, i, |constraints|);
    }
  }

  /** Within a tolerance nothing approaches, and contacts that push do not separate either. */
  ghost predicate Settled(constraints: seq<VelocityConstraint>, r: Rates, impulses: seq<real>, k: nat, tolerance: real)
    requires k < |constraints| && |impulses| == |constraints|
  {
    var rate := Against(constraints[k].jacobian, r);
    -tolerance <= rate && (impulses[k] > 0.0 ==> rate <= tolerance)
  }

  lemma {:induction false} DisturbedRate(d: real, coupling: real, delta: real, bound: real)
    requires Abs(d) <= delta && Abs(coupling) <= bound
    ensures Abs(Times(d, coupling)) <= Times(delta, bound)
  {
    TimesOrder(Abs(d), Abs(coupling), bound);
    TimesOrder(bound, Abs(d), delta);
    assert Abs(Times(d, coupling)) == Times(Abs(d), Abs(coupling));
    assert Times(bound, Abs(d)) == Times(Abs(d), bound) && Times(bound, delta) == Times(delta, bound);
    hide Times;
  }

  /** Another contact's step disturbs a settled one by at most the step times the coupling. */
  lemma {:induction false} StillSettled(
    m: Masses, constraints: seq<VelocityConstraint>, r: Rates, impulses: seq<real>, k: nat, i: nat, d: real,
    tolerance: real, delta: real)
    requires Solvable(m, constraints) && |impulses| == |constraints| && k < |constraints| && i < |constraints| && k != i
    requires Settled(constraints, r, impulses, k, tolerance) && Abs(d) <= delta
    ensures Settled(constraints, Moved(r, Response(m, constraints[i].jacobian), d), impulses[i := impulses[i] + d], k,
              tolerance + Times(delta, CouplingBound(m, constraints, |constraints|)))
  {
    hide Times, Against, Response, Moved, CouplingBound;
    RateAfterImpulse(constraints[k].jacobian, r, Response(m, constraints[i].jacobian), d);
    InCouplingBound(m, constraints, k, i, |constraints|);
    DisturbedRate(d, Coupling(m, constraints, k, i), delta, CouplingBound(m, constraints, |constraints|));
  }

  lemma {:induction false} WiderTolerance(
    constraints: seq<VelocityConstraint>, r: Rates, impulses: seq<real>, k: nat, tolerance: real, wider: real)
    requires k < |constraints| && |impulses| == |constraints|
    requires Settled(constraints, r, impulses, k, tolerance) && tolerance <= wider
    ensures Settled(constraints, r, impulses, k, wider)
  {
    hide Against;
  }

  // ---- The iteration ----

  /** The facts that every step of the solve keeps. */
  ghost predicate SolveInvariant(
    m: Masses, constraints: seq<VelocityConstraint>, initial: Rates, r: Rates, impulses: seq<real>)
    requires Positive(m)
  {
    && |impulses| == |constraints| && (forall k :: 0 <= k < |impulses| ==> impulses[k] >= 0.0)
    && r == Plus(initial, Effect(m, constraints, impulses))
    && (Energy(m, r) < Energy(m, initial) || Untouched(initial, r, impulses))
    && (!SomeApproach(constraints, initial) ==> Untouched(initial, r, impulses))
  }

  ghost predicate Untouched(initial: Rates, r: Rates, impulses: seq<real>) {
    r == initial && forall k :: 0 <= k < |impulses| ==> impulses[k] == 0.0
  }

  ghost predicate SomeApproach(constraints: seq<VelocityConstraint>, r: Rates) {
    exists k :: 0 <= k < |constraints| && Against(constraints[k].jacobian, r) < 0.0
  }

  lemma {:induction false} StepKeepsSolve(
    m: Masses, constraints: seq<VelocityConstraint>, initial: Rates, r: Rates, impulses: seq<real>, i: nat)
    requires Solvable(m, constraints) && SolveInvariant(m, constraints, initial, r, impulses) && i < |constraints|
    ensures var next := NextImpulse(constraints[i], r, impulses[i]);
      var after := Moved(r, Response(m, constraints[i].jacobian), next - impulses[i]);
      && SolveInvariant(m, constraints, initial, after, impulses[i := next])
      && Settled(constraints, after, impulses[i := next], i, 0.0)
      && (Against(constraints[i].jacobian, initial) < 0.0 ==> !Untouched(initial, after, impulses[i := next]))
      && (!Untouched(initial, r, impulses) ==> !Untouched(initial, after, impulses[i := next]))
  {
    var next := NextImpulse(constraints[i], r, impulses[i]);
    hide Energy, Response, Moved, Effect, Plus, Against, NextImpulse;
    StepLosesEnergy(m, constraints, i, r, impulses[i]);
    EffectOfChange(m, constraints, impulses, i, next);
    PlusMoved(initial, Effect(m, constraints, impulses), Response(m, constraints[i].jacobian), next - impulses[i]);
    assert next == impulses[i] ==> impulses[i := next] == impulses;
  }

  ghost predicate Visited(n: nat, reversed: bool, sweep: nat, k: nat) {
    k < n && (if reversed then k >= n - sweep else k < sweep)
  }

  function IndexOf(n: nat, reversed: bool, sweep: nat): nat
    requires sweep < n
  {
    if reversed then n - 1 - sweep else sweep
  }

  /** The contacts visited so far are settled within a tolerance. */
  ghost predicate VisitedSettled(
    constraints: seq<VelocityConstraint>, r: Rates, impulses: seq<real>, reversed: bool, sweep: nat, tolerance: real)
    requires |impulses| == |constraints|
  {
    forall k: nat :: Visited(|constraints|, reversed, sweep, k) ==> Settled(constraints, r, impulses, k, tolerance)
  }

  ghost predicate AllSettled(constraints: seq<VelocityConstraint>, r: Rates, impulses: seq<real>, tolerance: real)
    requires |impulses| == |constraints|
  {
    forall k: nat :: k < |constraints| ==> Settled(constraints, r, impulses, k, tolerance)
  }

  /** The disturbance that `steps` later steps, each of at most `delta`, can cause. */
  function Tolerance(m: Masses, constraints: seq<VelocityConstraint>, steps: nat, delta: real): real
    requires m.heave != 0.0 && m.roll != 0.0 && m.pitch != 0.0
  {
    Times(steps as real, Times(delta, CouplingBound(m, constraints, |constraints|)))
  }

  lemma {:induction false} SweepStaysSettled(
    m: Masses, constraints: seq<VelocityConstraint>, r: Rates, impulses: seq<real>, reversed: bool, sweep: nat,
    next: real, delta: real, grown: real)
    requires Solvable(m, constraints) && |impulses| == |constraints| && sweep < |constraints| && delta >= 0.0
    requires VisitedSettled(constraints, r, impulses, reversed, sweep, Tolerance(m, constraints, sweep, delta))
    requires var index := IndexOf(|constraints|, reversed, sweep);
      && grown == Max(delta, Abs(next - impulses[index]))
      && Settled(constraints, Moved(r, Response(m, constraints[index].jacobian), next - impulses[index]),
           impulses[index := next], index, 0.0)
    ensures var index := IndexOf(|constraints|, reversed, sweep);
      VisitedSettled(constraints, Moved(r, Response(m, constraints[index].jacobian), next - impulses[index]),
        impulses[index := next], reversed, sweep + 1, Tolerance(m, constraints, sweep + 1, grown))
  {
    hide Response, Moved, Against, CouplingBound, Settled, Times;
    var index := IndexOf(|constraints|, reversed, sweep);
    var d := next - impulses[index];
    var after, pushed := Moved(r, Response(m, constraints[index].jacobian), d), impulses[index := next];
    var wider := Tolerance(m, constraints, sweep + 1, grown);
    ToleranceGrows(m, constraints, sweep, delta, grown);
    forall k: nat | Visited(|constraints|, reversed, sweep + 1, k)
      ensures Settled(constraints, after, pushed, k, wider)
    {
      if k == index {
        WiderTolerance(constraints, after, pushed, k, 0.0, wider);
      } else {
        var tolerance := Tolerance(m, constraints, sweep, delta);
        assert Visited(|constraints|, reversed, sweep, k);
        StillSettled(m, constraints, r, impulses, k, index, d, tolerance, grown);
        WiderTolerance(constraints, after, pushed, k,
          tolerance + Times(grown, CouplingBound(m, constraints, |constraints|)), wider);
      }
    }
  }

  /** One pass over all contacts, forwards or backwards; `delta` is the largest change of an impulse. */
  method Sweep(
    m: Masses, constraints: seq<VelocityConstraint>, before: Rates, pushed: seq<real>, reversed: bool,
    ghost initial: Rates)
    returns (r: Rates, impulses: seq<real>, delta: real)
    requires Solvable(m, constraints) && SolveInvariant(m, constraints, initial, before, pushed)
    ensures SolveInvariant(m, constraints, initial, r, impulses) && delta >= 0.0
    ensures SomeApproach(constraints, initial) ==> !Untouched(initial, r, impulses)
    ensures AllSettled(constraints, r, impulses, Tolerance(m, constraints, |constraints|, delta))
  {
    hide Energy, Response, Moved, Effect, Plus, Against, NextImpulse, Settled, Tolerance, Untouched;
    r, impulses, delta := before, pushed, 0.0;
    for sweep := 0 to |constraints|
      invariant SolveInvariant(m, constraints, initial, r, impulses) && delta >= 0.0
      invariant VisitedSettled(constraints, r, impulses, reversed, sweep, Tolerance(m, constraints, sweep, delta))
      invariant forall k: nat ::
        (Visited(|constraints|, reversed, sweep, k) && Against(constraints[k].jacobian, initial) < 0.0)
        ==> !Untouched(initial, r, impulses)
    {
      var index := IndexOf(|constraints|, reversed, sweep);
      StepKeepsSolve(m, constraints, initial, r, impulses, index);
      var constraint, previous := constraints[index], impulses[index];
      var next := NextImpulse(constraint, r, previous);
      SweepStaysSettled(m, constraints, r, impulses, reversed, sweep, next, delta, Max(delta, Abs(next - previous)));
      impulses := impulses[index := next];
      delta := Max(delta, Abs(next - previous));
      r := Moved(r, Response(m, constraint.jacobian), next - previous);
    }
    if k :| 0 <= k < |constraints| && Against(constraints[k].jacobian, initial) < 0.0 {
      assert Visited(|constraints|, reversed, |constraints|, k);
    }
  }

  lemma {:induction false} BoundNotNegative(m: Masses, constraints: seq<VelocityConstraint>, n: nat)
    requires Positive(m) && n <= |constraints|
    ensures CouplingBound(m, constraints, n) >= 0.0
  {
    hide RowBound;
    if n > 0 {
      BoundNotNegative(m, constraints, n - 1);
    }
  }

  lemma {:induction false} ToleranceGrows(
    m: Masses, constraints: seq<VelocityConstraint>, sweep: nat, delta: real, grown: real)
    requires Positive(m) && 0.0 <= delta <= grown
    ensures 0.0 <= Tolerance(m, constraints, sweep, delta) + Times(grown, CouplingBound(m, constraints, |constraints|))
                <= Tolerance(m, constraints, sweep + 1, grown)
  {
    hide Times, CouplingBound;
    var bound := CouplingBound(m, constraints, |constraints|);
    BoundNotNegative(m, constraints, |constraints|);
    ProductGrows(delta, grown, bound);
    TimesOrder(sweep as real, Times(delta, bound), Times(grown, bound));
    TimesPositive(sweep as real, Times(delta, bound));
    OneMoreTime(sweep as real, Times(grown, bound));
  }

  lemma {:induction false} ProductGrows(x: real, y: real, bound: real)
    requires 0.0 <= x <= y && bound >= 0.0
    ensures 0.0 <= Times(x, bound) <= Times(y, bound)
  {
    TimesPositive(x, bound);
    TimesPositive(y - x, bound);
  }

  lemma OneMoreTime(n: real, x: real)
    ensures Times(n + 1.0, x) == Times(n, x) + x
  {
  }

  /**
   * Projected Gauss-Seidel with alternating sweeps. The impulses stay non-negative, the final rates are the initial
   * ones plus the impulses' effect, and the energy drops whenever some contact approaches and stays otherwise. When a
   * sweep changes no impulse by more than `delta`, no contact approaches, and none that pushes separates, by more than
   * `delta` times the number of contacts times their strongest coupling.
   */
  method SolveVelocities(m: Masses, constraints: seq<VelocityConstraint>, initial: Rates)
    returns (r: Rates, impulses: seq<real>, delta: real)
    requires Solvable(m, constraints)
    ensures SolveInvariant(m, constraints, initial, r, impulses)
    ensures SomeApproach(constraints, initial) ==> Energy(m, r) < Energy(m, initial)
    ensures AllSettled(constraints, r, impulses, Tolerance(m, constraints, |constraints|, delta))
  {
    hide Energy, Response, Moved, Effect, Plus, Against, Tolerance, AllSettled, Untouched, SomeApproach;
    r, impulses := initial, seq(|constraints|, _ => 0.0);
    StartOfSolve(m, constraints, initial, impulses);
    var iteration := 0;
    r, impulses, delta := Sweep(m, constraints, r, impulses, false, initial);
    while iteration < VELOCITY_ITERATIONS - 1 && delta > CONVERGED_DELTA
      invariant SolveInvariant(m, constraints, initial, r, impulses)
      invariant SomeApproach(constraints, initial) ==> !Untouched(initial, r, impulses)
      invariant AllSettled(constraints, r, impulses, Tolerance(m, constraints, |constraints|, delta))
      decreases VELOCITY_ITERATIONS - iteration
    {
      iteration := iteration + 1;
      r, impulses, delta := Sweep(m, constraints, r, impulses, iteration % 2 == 1, initial);
    }
  }

  lemma {:induction false} StartOfSolve(
    m: Masses, constraints: seq<VelocityConstraint>, initial: Rates, impulses: seq<real>)
    requires Positive(m) && |impulses| == |constraints| && forall k :: 0 <= k < |impulses| ==> impulses[k] == 0.0
    ensures SolveInvariant(m, constraints, initial, initial, impulses)
  {
    hide Energy, Effect, Plus, Against;
    ZeroEffect(m, constraints, impulses);
    PlusMoved(initial, initial, initial, 0.0);
  }

  function RatesOf(pose: ChassisPose): Rates {
    Rates(pose.upVelocity, pose.rollRate, pose.pitchRate)
  }

  /** The contact is within the slop, and a push along it moves the body. */
  ghost predicate InContact(trig: Trigonometry, pose: ChassisPose, box: ChassisBox, c: ContactConstraint)
    requires Circular(trig) && ValidBox(box)
  {
    Clearance(pose, BasisOf(trig, pose), c) <= CONTACT_SLOP_M && InverseMassAt(trig, pose, box, c) > MASS_EPSILON
  }

  /** One solver row for each contact that is within the slop after the lift, in the order of the samples. */
  ghost function ActiveContacts(
    trig: Trigonometry, pose: ChassisPose, box: ChassisBox, constraints: seq<ContactConstraint>)
    : seq<VelocityConstraint>
    requires Circular(trig) && ValidBox(box)
  {
    if constraints == [] then []
    else
      var most, c := ActiveContacts(trig, pose, box, constraints[..|constraints| - 1]), constraints[|constraints| - 1];
      if InContact(trig, pose, box, c)
      then most + [VelocityConstraint(Jacobian(trig, pose, c), InverseMassAt(trig, pose, box, c))]
      else most
  }

  /** Every contact in the slop has its row, and there are no other rows. */
  lemma {:induction false} ActiveIsInContact(
    trig: Trigonometry, pose: ChassisPose, box: ChassisBox, constraints: seq<ContactConstraint>,
    row: VelocityConstraint)
    requires Circular(trig) && ValidBox(box)
    ensures row in ActiveContacts(trig, pose, box, constraints) <==>
      exists c :: c in constraints && InContact(trig, pose, box, c)
               && row == VelocityConstraint(Jacobian(trig, pose, c), InverseMassAt(trig, pose, box, c))
  {
    hide InContact, InverseMassAt, Jacobian;
    if constraints != [] {
      var most := constraints[..|constraints| - 1];
      ActiveIsInContact(trig, pose, box, most, row);
      assert constraints == most + [constraints[|constraints| - 1]];
    }
  }

  method VelocityConstraints(
    trig: Trigonometry, pose: ChassisPose, box: ChassisBox, constraints: seq<ContactConstraint>)
    returns (active: seq<VelocityConstraint>)
    requires Circular(trig) && ValidBox(box)
    ensures Solvable(MassesOf(trig, box, pose.roll), active) && active == ActiveContacts(trig, pose, box, constraints)
  {
    hide Clearance, Jacobian, Times, EffectivePitchInertia, InverseEffectiveMass;
    PitchInertiaPositive(trig, box, pose.roll);
    var masses := MassesOf(trig, box, pose.roll);
    active := [];
    for k := 0 to |constraints|
      invariant Solvable(masses, active) && active == ActiveContacts(trig, pose, box, constraints[..k])
    {
      assert constraints[..k + 1][..k] == constraints[..k];
      if Clearance(pose, BasisOf(trig, pose), constraints[k]) > CONTACT_SLOP_M {
        continue;
      }
      var jacobian := Jacobian(trig, pose, constraints[k]);
      var inverse := InverseEffectiveMass(masses, jacobian);
      if inverse > MASS_EPSILON {
        active := active + [VelocityConstraint(jacobian, inverse)];
      }
    }
    assert constraints[..|constraints|] == constraints;
  }

  function Total(impulses: seq<real>): real {
    if impulses == [] then 0.0 else Total(impulses[..|impulses| - 1]) + impulses[|impulses| - 1]
  }

  datatype ChassisResult = ChassisResult(
    pose: ChassisPose, contactCount: nat, maximumPenetration: real, accumulatedImpulse: real, corrected: bool)

  /**
   * What the velocity solve does at a pose: non-negative impulses on exactly the contacts there change the rates by
   * their effect. Energy drops strictly if some contact approaches; otherwise nothing happens. `delta` bounds what
   * remains.
   */
  ghost predicate SolvedAt(
    m: Masses, active: seq<VelocityConstraint>, before: Rates, after: Rates, impulses: seq<real>, delta: real)
  {
    && Solvable(m, active) && SolveInvariant(m, active, before, after, impulses)
    && (SomeApproach(active, before) ==> Energy(m, after) < Energy(m, before))
    && AllSettled(active, after, impulses, Tolerance(m, active, |active|, delta))
  }

  method ResolveChassisGroundContact(
    trig: Trigonometry, pose: ChassisPose, box: ChassisBox, query: (Vector3, real) -> Option<GroundHit>,
    length: Vector3 -> real)
    returns (result: ChassisResult,
             ghost constraints: seq<ContactConstraint>, ghost steps: nat, ghost impulses: seq<real>, ghost delta: real)
    requires Circular(trig) && ValidBox(box)
    ensures forall c :: c in constraints <==> IsSampled(trig, pose, box, query, length, c)
    ensures result.pose == pose.(up := result.pose.up, roll := result.pose.roll, pitch := result.pose.pitch,
      upVelocity := result.pose.upVelocity, rollRate := result.pose.rollRate, pitchRate := result.pose.pitchRate)
    ensures var corrected := Corrections(trig, pose, box, constraints, steps);
      && result.pose.roll == corrected.roll && result.pose.pitch == corrected.pitch
      && result.pose.up >= corrected.up && (result.pose.up > corrected.up ==> Touches(trig, result.pose, constraints))
      && result.corrected == (steps > 0 || result.pose.up > corrected.up)
    ensures forall c :: c in constraints && c.normal.z > NORMAL_EPSILON ==>
      Clearance(result.pose, BasisOf(trig, result.pose), c) >= PENETRATION_TOLERANCE_M
    ensures SolvedAt(MassesOf(trig, box, result.pose.roll), ActiveContacts(trig, result.pose, box, constraints),
      RatesOf(pose), RatesOf(result.pose), impulses, delta)
    ensures result.contactCount == |impulses| && result.accumulatedImpulse == Total(impulses) >= 0.0
    ensures DeepestPenetration(trig, pose, box, query, length, result.maximumPenetration)
    ensures constraints == [] ==> result.pose == pose && !result.corrected
  {
    hide DeepestPenetration, Clearance, PlaneUnder, ShellSamples, MakeBodyBasis, Energy, Effect, Plus,
      EffectivePitchInertia, Untouched, CorrectedPose, Jacobian, Tolerance, InverseEffectiveMass;
    var planes, maximumPenetration := SampleConstraints(trig, pose, box, query, length);
    constraints, steps, impulses, delta := planes, 0, [], 0.0;
    if |planes| == 0 {
      PitchInertiaPositive(trig, box, pose.roll);
      StartOfSolve(MassesOf(trig, box, pose.roll), [], RatesOf(pose), []);
      return ChassisResult(pose, 0, maximumPenetration, 0.0, false), constraints, steps, impulses, delta;
    }
    var turned, corrected, count := CorrectPose(trig, pose, box, planes);
    var lifted, lift := LiftClear(trig, turned, planes);
    PitchInertiaPositive(trig, box, lifted.roll);
    var masses := MassesOf(trig, box, lifted.roll);
    var active := VelocityConstraints(trig, lifted, box, planes);
    var rates, pushes, change := SolveVelocities(masses, active, RatesOf(lifted));
    var final := lifted.(upVelocity := rates.up, rollRate := rates.roll, pitchRate := rates.pitch);
    TotalNotNegative(pushes);
    SameContacts(trig, lifted, final, box, planes);
    result := ChassisResult(final, |active|, maximumPenetration, Total(pushes), corrected || lift > 0.0);
    steps, impulses, delta := count, pushes, change;
  }

  /** Clearance, Jacobians and so the active contacts only depend on the position. */
  lemma {:induction false} SameContacts(
    trig: Trigonometry, a: ChassisPose, b: ChassisPose, box: ChassisBox, constraints: seq<ContactConstraint>)
    requires Circular(trig) && ValidBox(box)
    requires a == b.(upVelocity := a.upVelocity, rollRate := a.rollRate, pitchRate := a.pitchRate)
    ensures forall c :: Clearance(a, BasisOf(trig, a), c) == Clearance(b, BasisOf(trig, b), c)
    ensures ActiveContacts(trig, a, box, constraints) == ActiveContacts(trig, b, box, constraints)
  {
    hide MakeBodyBasis, Times, WorldOffset, Dot3, Cross3, InverseEffectiveMass, EffectivePitchInertia;
    if constraints != [] {
      SameContacts(trig, a, b, box, constraints[..|constraints| - 1]);
    }
  }

  lemma {:induction false} TotalNotNegative(impulses: seq<real>)
    requires forall k :: 0 <= k < |impulses| ==> impulses[k] >= 0.0
    ensures Total(impulses) >= 0.0
  {
    if impulses != [] {
      TotalNotNegative(impulses[..|impulses| - 1]);
    }
  }
}
