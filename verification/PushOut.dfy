/** Moving a pair apart by its penetration and slop leaves no contact for the same narrow phase. */
module PushOut {
  import opened Planar
  import opened NarrowPhase

  // ---- Two boxes ----

  /** Pushing along the signed axis by the whole overlap and slop leaves a gap on that axis. */
  lemma PushedBeyond(radii: real, signedDistance: real, approach: real)
    requires radii - Abs(signedDistance) > 0.0
    ensures var direction := PushDirection(signedDistance, approach);
      radii - Abs(signedDistance + Times(direction, radii - Abs(signedDistance) + SEPARATION_SLOP_M)) < 0.0
  {
  }

  lemma {:induction false} DotOfShift(delta: Vector2, axis: Vector2, direction: real, shift: real)
    requires Unit(axis)
    ensures Dot(Add(delta, Multiply(Multiply(axis, direction), shift)), axis)
      == Dot(delta, axis) + Times(direction, shift)
  {
    assert Dot(Add(delta, Multiply(Multiply(axis, direction), shift)), axis)
        == Dot(delta, axis) + Times(Times(direction, shift), Dot(axis, axis));
  }

  lemma RelativeShift(body: ObbPrism, obstacle: ObbPrism, bodyShift: Vector2, obstacleShift: Vector2, k: nat)
    requires k < 4
    ensures var moved, other := MovedBy(body, bodyShift), MovedBy(obstacle, obstacleShift);
      && CandidateAxis(moved, other, k) == CandidateAxis(body, obstacle, k)
      && Subtract(moved.center, other.center)
         == Add(Subtract(body.center, obstacle.center), Subtract(bodyShift, obstacleShift))
      && forall axis :: ProjectedRadius(moved, axis) == ProjectedRadius(body, axis)
                     && ProjectedRadius(other, axis) == ProjectedRadius(obstacle, axis)
  {
  }

  /** Boxes separate under any split of the push-out, whatever velocity the second query prefers. */
  lemma {:induction false} BoxPushOutSeparates(
    body: ObbPrism, obstacle: ObbPrism, velocity: Vector2, laterVelocity: Vector2,
    bodyShift: Vector2, obstacleShift: Vector2)
    requires ValidShape(body) && ValidShape(obstacle)
    requires IntersectObbPrisms(body, obstacle, velocity).Some?
    requires var manifold := IntersectObbPrisms(body, obstacle, velocity).value;
      Subtract(bodyShift, obstacleShift) == Multiply(manifold.normal, manifold.penetration + SEPARATION_SLOP_M)
    ensures IntersectObbPrisms(MovedBy(body, bodyShift), MovedBy(obstacle, obstacleShift), laterVelocity).None?
  {
    hide Dot, Multiply, SupportPoint, VerticalOverlap, CandidateAxis, PushDirection, Subtract, Add, Abs, Times,
      ProjectedRadius;
    var scan := ScanAxes(body, obstacle, velocity, 4);
    var axis := CandidateAxis(body, obstacle, scan.axisIndex);
    AxisIsUnit(body, obstacle, scan.axisIndex);
    RelativeShift(body, obstacle, bodyShift, obstacleShift, scan.axisIndex);
    var delta := Subtract(body.center, obstacle.center);
    var signedDistance, approach := Dot(delta, axis), Dot(velocity, axis);
    DotOfShift(delta, axis, PushDirection(signedDistance, approach), scan.overlap + SEPARATION_SLOP_M);
    var radii := ProjectedRadius(body, axis) + ProjectedRadius(obstacle, axis);
    PushedBeyond(radii, signedDistance, approach);
    var moved, other := MovedBy(body, bodyShift), MovedBy(obstacle, obstacleShift);
    assert AxisOverlap(moved, other, CandidateAxis(moved, other, scan.axisIndex)) <= 0.0;
  }

  // ---- Box and capsule ----

  /** How far a coordinate lies beyond the box; zero inside. */
  function Excess(x: real, half: real): real
    requires half > 0.0
  {
    x - Clamp(x, -half, half)
  }

  function FrameVector(forward: Vector2, x: real, y: real): Vector2 {
    Add(Multiply(forward, x), Multiply(Right(forward), y))
  }

  lemma {:induction false} FrameVectorCoordinates(forward: Vector2, x: real, y: real)
    requires Unit(forward)
    ensures var v := FrameVector(forward, x, y);
      && Dot(v, forward) == x && Dot(v, Right(forward)) == y
      && Times(v.east, v.east) + Times(v.north, v.north) == Times(x, x) + Times(y, y)
  {
    var v := FrameVector(forward, x, y);
    assert Dot(v, forward) == Times(x, Dot(forward, forward));
    assert Dot(v, Right(forward)) == Times(y, Dot(forward, forward));
    assert Times(v.east, v.east) + Times(v.north, v.north)
        == Times(Times(x, x) + Times(y, y), Dot(forward, forward));
  }

  lemma {:induction false} VectorInFrame(forward: Vector2, v: Vector2)
    requires Unit(forward)
    ensures v == FrameVector(forward, Dot(v, forward), Dot(v, Right(forward)))
  {
    var w := FrameVector(forward, Dot(v, forward), Dot(v, Right(forward)));
    assert w.east == Times(v.east, Dot(forward, forward));
    assert w.north == Times(v.north, Dot(forward, forward));
  }

  lemma FrameVectorDifference(forward: Vector2, x: real, y: real, x1: real, y1: real)
    ensures Subtract(FrameVector(forward, x, y), FrameVector(forward, x1, y1)) == FrameVector(forward, x - x1, y - y1)
  {
  }

  /** The vector from the capsule's axis to the closest point, in the box frame. */
  lemma {:induction false} GapInFrame(body: ObbPrism, point: Vector2)
    requires ValidShape(body)
    ensures Subtract(ClosestPoint(body, point), point)
         == FrameVector(body.forward, -Excess(LocalForward(body, point), body.halfLength),
                                      -Excess(LocalRight(body, point), body.halfWidth))
  {
    var f, v := body.forward, Subtract(point, body.center);
    var cf := Clamp(LocalForward(body, point), -body.halfLength, body.halfLength);
    var cr := Clamp(LocalRight(body, point), -body.halfWidth, body.halfWidth);
    hide Dot, Multiply, Right, Clamp;
    VectorInFrame(f, v);
    FrameVectorDifference(f, cf, cr, Dot(v, f), Dot(v, Right(f)));
    assert ClosestPoint(body, point) == Add(body.center, FrameVector(f, cf, cr));
    assert Subtract(ClosestPoint(body, point), point) == Subtract(FrameVector(f, cf, cr), v);
  }

  /** The squared capsule distance is the squared excess along both box axes. */
  lemma {:induction false} DistanceIsExcess(body: ObbPrism, capsule: VerticalCapsule, distance: real)
    requires ValidShape(body) && IsCapsuleDistance(body, capsule, distance)
    ensures var x := Excess(LocalForward(body, capsule.center), body.halfLength);
      var y := Excess(LocalRight(body, capsule.center), body.halfWidth);
      Times(distance, distance) == Times(x, x) + Times(y, y)
  {
    hide Dot, Multiply, Right, Clamp, LocalForward, LocalRight, ClosestPoint, FrameVector, Excess, Times;
    var x := Excess(LocalForward(body, capsule.center), body.halfLength);
    var y := Excess(LocalRight(body, capsule.center), body.halfWidth);
    GapInFrame(body, capsule.center);
    FrameVectorCoordinates(body.forward, -x, -y);
    EvenSquare(x);
    EvenSquare(y);
  }

  /** Moving further along the excess keeps the same closest point, so the excess only grows. */
  lemma {:induction false} ExcessGrows(x: real, half: real, k: real)
    requires half > 0.0 && k >= 0.0
    ensures Excess(x + Times(Excess(x, half), k), half) == Times(Excess(x, half), 1.0 + k)
  {
    TimesPositive(k, Excess(x, half));
  }

  lemma {:induction false} ShiftedLocal(
    body: ObbPrism, point: Vector2, bodyShift: Vector2, pointShift: Vector2, forwardStep: real, rightStep: real)
    requires ValidShape(body)
    requires Subtract(bodyShift, pointShift) == FrameVector(body.forward, -forwardStep, -rightStep)
    ensures LocalForward(MovedBy(body, bodyShift), Add(point, pointShift)) == LocalForward(body, point) + forwardStep
    ensures LocalRight(MovedBy(body, bodyShift), Add(point, pointShift)) == LocalRight(body, point) + rightStep
  {
    FrameVectorCoordinates(body.forward, -forwardStep, -rightStep);
    var shift := Subtract(bodyShift, pointShift);
    var moved := Subtract(Add(point, pointShift), MovedBy(body, bodyShift).center);
    assert moved == Subtract(Subtract(point, body.center), shift);
    DotOfDifference(Subtract(point, body.center), shift, body.forward);
    DotOfDifference(Subtract(point, body.center), shift, Right(body.forward));
    hide Dot, Right, FrameVector, Add, Subtract;
  }

  lemma ScaledFrameVector(forward: Vector2, x: real, y: real, factor: real)
    ensures Multiply(FrameVector(forward, x, y), factor) == FrameVector(forward, Times(x, factor), Times(y, factor))
  {
  }

  /** The outside case: the pair ends exactly one slop further apart than the radius. */
  lemma {:induction false} OutsidePushOut(
    body: ObbPrism, capsule: VerticalCapsule, distance: real, laterDistance: real,
    bodyShift: Vector2, capsuleShift: Vector2)
    requires ValidShape(body) && ValidCapsule(capsule) && IsCapsuleDistance(body, capsule, distance)
    requires AXIS_EPSILON < distance < capsule.radius
    requires var normal := Multiply(Subtract(ClosestPoint(body, capsule.center), capsule.center), 1.0 / distance);
      Subtract(bodyShift, capsuleShift) == Multiply(normal, capsule.radius - distance + SEPARATION_SLOP_M)
    requires IsCapsuleDistance(
      MovedBy(body, bodyShift), capsule.(center := Add(capsule.center, capsuleShift)), laterDistance)
    ensures laterDistance == capsule.radius + SEPARATION_SLOP_M
  {
    hide Dot, Multiply, Right, LocalForward, LocalRight, ClosestPoint, FrameVector, Excess, Times, Subtract, Add;
    var f, shift := body.forward, capsule.radius - distance + SEPARATION_SLOP_M;
    var k := Times(1.0 / distance, shift);
    var moved, other := MovedBy(body, bodyShift), capsule.(center := Add(capsule.center, capsuleShift));
    var x := Excess(LocalForward(body, capsule.center), body.halfLength);
    var y := Excess(LocalRight(body, capsule.center), body.halfWidth);
    InverseTimes(distance, shift);
    GapInFrame(body, capsule.center);
    ScaledFrameVector(f, -x, -y, 1.0 / distance);
    ScaledFrameVector(f, Times(-x, 1.0 / distance), Times(-y, 1.0 / distance), shift);
    ScaleFactor(x, distance, shift);
    ScaleFactor(y, distance, shift);
    ShiftedLocal(body, capsule.center, bodyShift, capsuleShift, Times(x, k), Times(y, k));
    ExcessGrows(LocalForward(body, capsule.center), body.halfLength, k);
    ExcessGrows(LocalRight(body, capsule.center), body.halfWidth, k);
    DistanceIsExcess(body, capsule, distance);
    DistanceIsExcess(moved, other, laterDistance);
    GrownDistance(x, y, distance, k, laterDistance);
  }

  lemma {:induction false} InverseTimes(distance: real, shift: real)
    requires distance > 0.0 && shift >= 0.0
    ensures Times(1.0 / distance, shift) >= 0.0
    ensures Times(distance, 1.0 + Times(1.0 / distance, shift)) == distance + shift
  {
    TimesPositive(1.0 / distance, shift);
    assert Times(distance, Times(1.0 / distance, shift)) == Times(Times(distance, 1.0 / distance), shift);
  }

  lemma ScaleFactor(x: real, distance: real, shift: real)
    requires distance > 0.0
    ensures Times(Times(-x, 1.0 / distance), shift) == -Times(x, Times(1.0 / distance, shift))
  {
  }

  lemma {:induction false} GrownDistance(x: real, y: real, distance: real, k: real, laterDistance: real)
    requires distance >= 0.0 && laterDistance >= 0.0 && k >= 0.0
    requires Times(distance, distance) == Times(x, x) + Times(y, y)
    requires Times(laterDistance, laterDistance)
          == Times(Times(x, 1.0 + k), Times(x, 1.0 + k)) + Times(Times(y, 1.0 + k), Times(y, 1.0 + k))
    ensures laterDistance == Times(distance, 1.0 + k)
  {
    SquareOfProduct(x, 1.0 + k);
    SquareOfProduct(y, 1.0 + k);
    SquareOfProduct(distance, 1.0 + k);
    TimesPositive(distance, 1.0 + k);
    hide Times;
    TimesDistributes(Times(1.0 + k, 1.0 + k), Times(x, x), Times(y, y));
    SquaresOrder(laterDistance, Times(distance, 1.0 + k));
  }

  lemma SquareOfProduct(x: real, y: real)
    ensures Times(Times(x, y), Times(x, y)) == Times(Times(y, y), Times(x, x))
  {
  }

  // ---- The capsule's axis inside the box, or within the tolerance of its surface ----

  /** The push away from face `k`, in the box frame. */
  function FaceStep(k: nat, shift: real): (step: (real, real))
    requires k < 4
  {
    if k == 0 then (shift, 0.0)
    else if k == 1 then (-shift, 0.0)
    else if k == 2 then (0.0, shift)
    else (0.0, -shift)
  }

  lemma {:induction false} FacePush(body: ObbPrism, point: Vector2, k: nat, shift: real)
    requires k < 4
    ensures Multiply(Multiply(BoxFace(body, point, k).outward, -1.0), shift)
         == FrameVector(body.forward, -FaceStep(k, shift).0, -FaceStep(k, shift).1)
  {
    hide Dot, LocalForward, LocalRight, Multiply, FrameVector, Right;
    ForwardPush(body.forward, shift);
    RightPush(body.forward, shift);
    DoubleFlip(body.forward);
    DoubleFlip(Right(body.forward));
  }

  lemma ForwardPush(f: Vector2, shift: real)
    ensures Multiply(Multiply(f, -1.0), shift) == FrameVector(f, -shift, 0.0)
    ensures Multiply(f, shift) == FrameVector(f, shift, 0.0)
  {
  }

  lemma RightPush(f: Vector2, shift: real)
    ensures Multiply(Multiply(Right(f), -1.0), shift) == FrameVector(f, 0.0, -shift)
    ensures Multiply(Right(f), shift) == FrameVector(f, 0.0, shift)
  {
  }

  /** Whichever face was selected, the axis ends a radius and a slop beyond it. */
  lemma {:induction false} InsidePushOut(
    body: ObbPrism, capsule: VerticalCapsule, k: nat, laterDistance: real,
    bodyShift: Vector2, capsuleShift: Vector2)
    requires ValidShape(body) && ValidCapsule(capsule) && k < 4
    requires var face := BoxFace(body, capsule.center, k);
      Subtract(bodyShift, capsuleShift)
      == Multiply(Multiply(face.outward, -1.0), capsule.radius + face.distance + SEPARATION_SLOP_M)
    requires IsCapsuleDistance(
      MovedBy(body, bodyShift), capsule.(center := Add(capsule.center, capsuleShift)), laterDistance)
    ensures laterDistance >= capsule.radius + SEPARATION_SLOP_M
  {
    hide Dot, Multiply, Right, LocalForward, LocalRight, ClosestPoint, FrameVector, Times, Subtract, Add;
    var beyond := capsule.radius + SEPARATION_SLOP_M;
    var shift := BoxFace(body, capsule.center, k).distance + beyond;
    var moved, other := MovedBy(body, bodyShift), capsule.(center := Add(capsule.center, capsuleShift));
    FacePush(body, capsule.center, k, shift);
    var step := FaceStep(k, shift);
    ShiftedLocal(body, capsule.center, bodyShift, capsuleShift, step.0, step.1);
    DistanceIsExcess(moved, other, laterDistance);
    var x := Excess(LocalForward(moved, other.center), body.halfLength);
    var y := Excess(LocalRight(moved, other.center), body.halfWidth);
    FarAlongOneAxis(if k < 2 then x else y, if k < 2 then y else x, beyond, laterDistance);
  }

  lemma {:induction false} FarAlongOneAxis(x: real, y: real, beyond: real, distance: real)
    requires beyond > 0.0 && distance >= 0.0 && (x == beyond || x == -beyond)
    requires Times(distance, distance) == Times(x, x) + Times(y, y)
    ensures distance >= beyond
  {
    EvenSquare(x);
    EvenSquare(y);
    TimesPositive(Abs(y), Abs(y));
    SquaresOrder(distance, beyond);
    hide Times;
  }

  /** A box and a capsule separate under any split of the push-out, ties near the box surface included. */
  lemma {:induction false} CapsulePushOutSeparates(
    body: ObbPrism, capsule: VerticalCapsule, velocity: Vector2, distance: real,
    bodyShift: Vector2, capsuleShift: Vector2, laterVelocity: Vector2, laterDistance: real)
    requires ValidShape(body) && ValidCapsule(capsule) && IsCapsuleDistance(body, capsule, distance)
    requires IntersectObbVerticalCapsule(body, capsule, velocity, distance).Some?
    requires var manifold := IntersectObbVerticalCapsule(body, capsule, velocity, distance).value;
      Subtract(bodyShift, capsuleShift) == Multiply(manifold.normal, manifold.penetration + SEPARATION_SLOP_M)
    requires ValidShape(MovedBy(body, bodyShift))
    requires IsCapsuleDistance(
      MovedBy(body, bodyShift), capsule.(center := Add(capsule.center, capsuleShift)), laterDistance)
    ensures IntersectObbVerticalCapsule(
      MovedBy(body, bodyShift), capsule.(center := Add(capsule.center, capsuleShift)), laterVelocity,
        laterDistance).None?
  {
    hide ClosestPoint, BoxFace, VerticalOverlap, Multiply, Subtract, Add, IsCapsuleDistance, SelectFace;
    if distance > AXIS_EPSILON {
      OutsidePushOut(body, capsule, distance, laterDistance, bodyShift, capsuleShift);
    } else {
      InsidePushOut(body, capsule, SelectFace(body, capsule.center, velocity, 4), laterDistance, bodyShift,
        capsuleShift);
    }
  }

  // ---- Two capsules ----

  lemma {:induction false} CapsulesPushOutSeparates(
    lhs: VerticalCapsule, rhs: VerticalCapsule, distance: real, lhsShift: Vector2, rhsShift: Vector2,
    laterDistance: real)
    requires ValidCapsule(lhs) && ValidCapsule(rhs)
    requires var delta := Subtract(lhs.center, rhs.center); IsLength(distance, delta.east, delta.north)
    requires IntersectCapsules(lhs, rhs, distance).Some?
    requires var manifold := IntersectCapsules(lhs, rhs, distance).value;
      Subtract(lhsShift, rhsShift) == Multiply(manifold.normal, manifold.penetration + SEPARATION_SLOP_M)
    requires var delta := Subtract(Add(lhs.center, lhsShift), Add(rhs.center, rhsShift));
      IsLength(laterDistance, delta.east, delta.north)
    ensures IntersectCapsules(
      lhs.(center := Add(lhs.center, lhsShift)), rhs.(center := Add(rhs.center, rhsShift)), laterDistance).None?
  {
    var shift := lhs.radius + rhs.radius - distance + SEPARATION_SLOP_M;
    var delta := Subtract(lhs.center, rhs.center);
    var later := Subtract(Add(lhs.center, lhsShift), Add(rhs.center, rhsShift));
    assert later == Add(delta, Subtract(lhsShift, rhsShift));
    if distance > CAPSULE_EPSILON {
      var k := Times(1.0 / distance, shift);
      InverseTimes(distance, shift);
      assert later.east == Times(delta.east, 1.0 + k) && later.north == Times(delta.north, 1.0 + k);
      hide Times, Subtract, Add, Multiply;
      GrownDistance(delta.east, delta.north, distance, k, laterDistance);
    } else {
      assert later.east == delta.east + shift;
      hide Times, Subtract, Add, Multiply;
      AxisBelowLength(delta.east, delta.north, distance);
      AxisBelowLength(later.east, later.north, laterDistance);
    }
  }

  lemma {:induction false} AxisBelowLength(x: real, y: real, length: real)
    requires IsLength(length, x, y)
    ensures Abs(x) <= length
  {
    EvenSquare(x);
    EvenSquare(y);
    TimesPositive(Abs(y), Abs(y));
    SquaresOrder(length, Abs(x));
    hide Times;
  }

  // ---- Manifold normals ----

  lemma {:induction false} ScaledToUnit(v: Vector2, distance: real)
    requires distance > 0.0 && IsLength(distance, v.east, v.north)
    ensures Unit(Multiply(v, 1.0 / distance))
  {
    var inverse := 1.0 / distance;
    InverseTimes(distance, 0.0);
    assert Dot(Multiply(v, inverse), Multiply(v, inverse))
        == Times(Times(inverse, inverse), Times(v.east, v.east) + Times(v.north, v.north));
    assert Times(Times(inverse, inverse), Times(distance, distance))
        == Times(Times(distance, inverse), Times(distance, inverse));
  }

  lemma {:induction false} FaceIsUnit(body: ObbPrism, point: Vector2, k: nat)
    requires ValidShape(body) && k < 4
    ensures Unit(Multiply(BoxFace(body, point, k).outward, -1.0))
  {
    hide LocalForward, LocalRight, Multiply, Dot;
    RightIsUnit(body.forward);
    FlippedUnit(body.forward, -1.0);
    FlippedUnit(Right(body.forward), -1.0);
    DoubleFlip(body.forward);
    DoubleFlip(Right(body.forward));
  }

  lemma RightIsUnit(forward: Vector2)
    requires Unit(forward)
    ensures Unit(Right(forward))
  {
  }

  /** Every box-capsule and capsule-capsule manifold has a unit normal. */
  lemma {:induction false} CapsuleNormalIsUnit(
    body: ObbPrism, capsule: VerticalCapsule, velocity: Vector2, distance: real)
    requires ValidShape(body) && ValidCapsule(capsule) && IsCapsuleDistance(body, capsule, distance)
    requires IntersectObbVerticalCapsule(body, capsule, velocity, distance).Some?
    ensures Unit(IntersectObbVerticalCapsule(body, capsule, velocity, distance).value.normal)
  {
    hide Dot, Multiply, ClosestPoint, VerticalOverlap, SelectFace, BoxFace, Times, LocalForward, LocalRight, Unit;
    if distance > AXIS_EPSILON {
      ScaledToUnit(Subtract(ClosestPoint(body, capsule.center), capsule.center), distance);
    } else {
      FaceIsUnit(body, capsule.center, SelectFace(body, capsule.center, velocity, 4));
    }
  }

  lemma {:induction false} CapsulesNormalIsUnit(lhs: VerticalCapsule, rhs: VerticalCapsule, distance: real)
    requires var delta := Subtract(lhs.center, rhs.center); IsLength(distance, delta.east, delta.north)
    requires IntersectCapsules(lhs, rhs, distance).Some?
    ensures Unit(IntersectCapsules(lhs, rhs, distance).value.normal)
  {
    if distance > CAPSULE_EPSILON {
      hide Dot, Multiply, Times, Unit;
      ScaledToUnit(Subtract(lhs.center, rhs.center), distance);
    }
  }
}
