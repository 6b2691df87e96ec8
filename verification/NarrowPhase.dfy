/** Oriented-box and vertical-capsule contacts: the manifolds the contact solver consumes. */
module NarrowPhase {
  import opened Options
  import opened Planar

  const AXIS_EPSILON: real := 0.000000000001
  const SEPARATION_SLOP_M: real := 0.000001

  /** A heading is kept as its unit forward axis; the right axis is its clockwise perpendicular. */
  datatype ObbPrism = ObbPrism(
    center: Vector2, centerUp: real, forward: Vector2,
    halfLength: real, halfWidth: real, halfHeight: real)

  datatype VerticalCapsule = VerticalCapsule(
    center: Vector2, centerUp: real, radius: real, halfHeight: real)

  /** The unit normal points from the obstacle to the body. */
  datatype CollisionManifold = CollisionManifold(
    normal: Vector2, contactPoint: Vector2, penetration: real)

  ghost predicate ValidShape(shape: ObbPrism) {
    Unit(shape.forward) && shape.halfLength > 0.0 && shape.halfWidth > 0.0 && shape.halfHeight > 0.0
  }

  ghost predicate ValidCapsule(capsule: VerticalCapsule) {
    capsule.radius > 0.0 && capsule.halfHeight >= capsule.radius
  }

  function VerticalOverlap(up1: real, half1: real, up2: real, half2: real): real {
    Min(up1 + half1, up2 + half2) - Max(up1 - half1, up2 - half2)
  }

  function MovedBy(shape: ObbPrism, translation: Vector2): ObbPrism {
    shape.(center := Add(shape.center, translation))
  }

  // ---- Separating axes of two boxes ----

  function ProjectedRadius(shape: ObbPrism, axis: Vector2): real {
    shape.halfLength * Abs(Dot(axis, shape.forward)) + shape.halfWidth * Abs(Dot(axis, Right(shape.forward)))
  }

  function AxisOverlap(body: ObbPrism, obstacle: ObbPrism, axis: Vector2): real {
    ProjectedRadius(body, axis) + ProjectedRadius(obstacle, axis)
    - Abs(Dot(Subtract(body.center, obstacle.center), axis))
  }

  function CandidateAxis(body: ObbPrism, obstacle: ObbPrism, k: nat): Vector2
    requires k < 4
  {
    if k == 0 then obstacle.forward
    else if k == 1 then Right(obstacle.forward)
    else if k == 2 then body.forward
    else Right(body.forward)
  }

  /** Away from the obstacle's centre, or against the approach when the centres nearly coincide. */
  function PushDirection(signedDistance: real, approach: real): (direction: real)
    ensures direction == 1.0 || direction == -1.0
  {
    if signedDistance > AXIS_EPSILON then 1.0
    else if signedDistance < -AXIS_EPSILON then -1.0
    else if approach > AXIS_EPSILON then -1.0
    else 1.0
  }

  datatype AxisScan = Separated | Unbounded | Least(axisIndex: nat, overlap: real, normal: Vector2)

  /** The first axis of least overlap among the first `n`, unless one of them separates. */
  function ScanAxes(body: ObbPrism, obstacle: ObbPrism, velocity: Vector2, n: nat): (scan: AxisScan)
    requires n <= 4
    ensures scan.Separated?
      <==> exists k :: 0 <= k < n && AxisOverlap(body, obstacle, CandidateAxis(body, obstacle, k)) <= 0.0
    ensures scan.Unbounded? <==> n == 0
    ensures scan.Least? ==>
      && scan.axisIndex < n
      && var axis := CandidateAxis(body, obstacle, scan.axisIndex);
         && scan.overlap == AxisOverlap(body, obstacle, axis) > 0.0
         && (forall k :: 0 <= k < n ==> scan.overlap <= AxisOverlap(body, obstacle, CandidateAxis(body, obstacle, k)))
         && (forall k :: 0 <= k < scan.axisIndex ==>
               scan.overlap < AxisOverlap(body, obstacle, CandidateAxis(body, obstacle, k)))
         && scan.normal == Multiply(axis, PushDirection(
             Dot(Subtract(body.center, obstacle.center), axis), Dot(velocity, axis)))
  {
    if n == 0 then Unbounded
    else
      var scan := ScanAxes(body, obstacle, velocity, n - 1);
      if scan.Separated? then Separated
      else
        var axis := CandidateAxis(body, obstacle, n - 1);
        var signedDistance := Dot(Subtract(body.center, obstacle.center), axis);
        var overlap := AxisOverlap(body, obstacle, axis);
        if overlap <= 0.0 then Separated
        else if scan.Least? && overlap >= scan.overlap then scan
        else Least(n - 1, overlap, Multiply(axis, PushDirection(signedDistance, Dot(velocity, axis))))
  }

  function SupportStep(point: Vector2, direction: Vector2, axis: Vector2, extent: real): Vector2 {
    var projection := Dot(direction, axis);
    if Abs(projection) <= AXIS_EPSILON then point
    else Add(point, Multiply(axis, if projection < 0.0 then -extent else extent))
  }

  function SupportPoint(shape: ObbPrism, direction: Vector2): Vector2 {
    SupportStep(
      SupportStep(shape.center, direction, shape.forward, shape.halfLength),
      direction, Right(shape.forward), shape.halfWidth)
  }

  function IntersectObbPrisms(body: ObbPrism, obstacle: ObbPrism, velocity: Vector2): Option<CollisionManifold> {
    if VerticalOverlap(body.centerUp, body.halfHeight, obstacle.centerUp, obstacle.halfHeight) <= 0.0 then None
    else
      match ScanAxes(body, obstacle, velocity, 4)
      case Least(_, overlap, normal) =>
        Some(CollisionManifold(normal, SupportPoint(body, Multiply(normal, -1.0)), overlap))
      case _ => None
  }

  lemma AxisIsUnit(body: ObbPrism, obstacle: ObbPrism, k: nat)
    requires ValidShape(body) && ValidShape(obstacle) && k < 4
    ensures Unit(CandidateAxis(body, obstacle, k))
  {
  }

  lemma FlippedUnit(v: Vector2, sign: real)
    requires Unit(v) && (sign == 1.0 || sign == -1.0)
    ensures Unit(Multiply(v, sign))
  {
  }

  /**
   * A manifold belongs to the first of the four axes with the least overlap: its penetration is that overlap, and its
   * unit normal that axis, turned away from the obstacle.
   */
  lemma {:induction false} ManifoldIsLeastOverlap(body: ObbPrism, obstacle: ObbPrism, velocity: Vector2)
    requires ValidShape(body) && ValidShape(obstacle)
    requires IntersectObbPrisms(body, obstacle, velocity).Some?
    ensures var manifold := IntersectObbPrisms(body, obstacle, velocity).value;
      && Unit(manifold.normal) && 0.0 < manifold.penetration
      && (forall k :: 0 <= k < 4 ==>
        manifold.penetration <= AxisOverlap(body, obstacle, CandidateAxis(body, obstacle, k)))
      && exists k :: 0 <= k < 4 && IsAxisOf(body, obstacle, velocity, manifold, k)
  {
    hide AxisOverlap, PushDirection, SupportPoint, VerticalOverlap, CandidateAxis, Dot, Multiply;
    var scan := ScanAxes(body, obstacle, velocity, 4);
    AxisIsUnit(body, obstacle, scan.axisIndex);
    var axis := CandidateAxis(body, obstacle, scan.axisIndex);
    FlippedUnit(axis, PushDirection(Dot(Subtract(body.center, obstacle.center), axis), Dot(velocity, axis)));
    assert IsAxisOf(body, obstacle, velocity, IntersectObbPrisms(body, obstacle, velocity).value, scan.axisIndex);
  }

  /** The manifold's axis: no axis before it overlaps as little. */
  ghost predicate IsAxisOf(
    body: ObbPrism, obstacle: ObbPrism, velocity: Vector2, manifold: CollisionManifold, k: nat)
    requires k < 4
  {
    var axis := CandidateAxis(body, obstacle, k);
    && manifold.penetration == AxisOverlap(body, obstacle, axis)
    && (forall j :: 0 <= j < k ==> manifold.penetration < AxisOverlap(body, obstacle, CandidateAxis(body, obstacle, j)))
    && manifold.normal == Multiply(axis, PushDirection(
         Dot(Subtract(body.center, obstacle.center), axis), Dot(velocity, axis)))
  }

  /** |Dot(axis, offset)| of a point inside a box is at most the box's projected radius, strictly when inside. */
  ghost predicate Inside(shape: ObbPrism, point: Vector2) {
    var offset := Subtract(point, shape.center);
    && Abs(Dot(offset, shape.forward)) < shape.halfLength
    && Abs(Dot(offset, Right(shape.forward))) < shape.halfWidth
  }

  lemma {:induction false} ScaledStrictly(x: real, half: real, factor: real)
    requires Abs(x) < half
    ensures Abs(x * factor) <= half * Abs(factor)
    ensures factor != 0.0 ==> Abs(x * factor) < half * Abs(factor)
  {
    if factor != 0.0 {
      TimesOrder(Abs(factor), Abs(x), half);
      assert Abs(x * factor) == Abs(x) * Abs(factor);
    }
  }

  lemma {:induction false} WeightedStrictly(
    total: real, x: real, halfX: real, factorX: real, y: real, halfY: real, factorY: real)
    requires total == x * factorX + y * factorY
    requires Abs(x) < halfX && Abs(y) < halfY
    requires factorX * factorX + factorY * factorY == 1.0
    ensures Abs(total) < halfX * Abs(factorX) + halfY * Abs(factorY)
  {
    ScaledStrictly(x, halfX, factorX);
    ScaledStrictly(y, halfY, factorY);
    assert factorX != 0.0 || factorY != 0.0;
  }

  /** The products of two vectors with a frame's axes, in coordinates. */
  lemma FrameProducts(f1: real, f2: real, v1: real, v2: real, w1: real, w2: real)
    ensures (v1 * f1 + v2 * f2) * (w1 * f1 + w2 * f2) + (v1 * f2 + v2 * -f1) * (w1 * f2 + w2 * -f1)
         == Times(v1 * w1 + v2 * w2, f1 * f1 + f2 * f2)
  {
  }

  lemma {:induction false} DecomposeDot(forward: Vector2, offset: Vector2, axis: Vector2)
    requires Unit(forward)
    ensures Dot(offset, axis)
         == Dot(offset, forward) * Dot(axis, forward) + Dot(offset, Right(forward)) * Dot(axis, Right(forward))
  {
    FrameProducts(forward.east, forward.north, offset.east, offset.north, axis.east, axis.north);
    TimesOne(Dot(offset, axis));
    hide Times;
  }

  lemma {:induction false} InsideProjects(shape: ObbPrism, point: Vector2, axis: Vector2)
    requires ValidShape(shape) && Unit(axis) && Inside(shape, point)
    ensures Abs(Dot(Subtract(point, shape.center), axis)) < ProjectedRadius(shape, axis)
  {
    hide Dot, Subtract, Right, Abs;
    var offset := Subtract(point, shape.center);
    DecomposeDot(shape.forward, offset, axis);
    DecomposeDot(shape.forward, axis, axis);
    WeightedStrictly(
      Dot(offset, axis),
      Dot(offset, shape.forward), shape.halfLength, Dot(axis, shape.forward),
      Dot(offset, Right(shape.forward)), shape.halfWidth, Dot(axis, Right(shape.forward)));
  }

  lemma BetweenCentres(first: Vector2, second: Vector2, point: Vector2, axis: Vector2)
    ensures Dot(Subtract(first, second), axis) == Dot(Subtract(point, second), axis) - Dot(Subtract(point, first), axis)
  {
  }

  lemma {:induction false} SharedPointOverlaps(body: ObbPrism, obstacle: ObbPrism, point: Vector2, axis: Vector2)
    requires ValidShape(body) && ValidShape(obstacle) && Unit(axis)
    requires Inside(body, point) && Inside(obstacle, point)
    ensures AxisOverlap(body, obstacle, axis) > 0.0
  {
    hide Dot, Subtract, ProjectedRadius, Unit, ValidShape, Inside;
    InsideProjects(body, point, axis);
    InsideProjects(obstacle, point, axis);
    BetweenCentres(body.center, obstacle.center, point, axis);
  }

  /** No true overlap is missed: a shared interior point and a vertical overlap always give a manifold. */
  lemma {:induction false} SharedPointGivesManifold(
    body: ObbPrism, obstacle: ObbPrism, velocity: Vector2, point: Vector2)
    requires ValidShape(body) && ValidShape(obstacle)
    requires VerticalOverlap(body.centerUp, body.halfHeight, obstacle.centerUp, obstacle.halfHeight) > 0.0
    requires Inside(body, point) && Inside(obstacle, point)
    ensures IntersectObbPrisms(body, obstacle, velocity).Some?
  {
    hide AxisOverlap, CandidateAxis, PushDirection, Dot, SupportPoint;
    forall k: nat | k < 4
      ensures AxisOverlap(body, obstacle, CandidateAxis(body, obstacle, k)) > 0.0
    {
      var axis := CandidateAxis(body, obstacle, k);
      AxisIsUnit(body, obstacle, k);
      SharedPointOverlaps(body, obstacle, point, axis);
    }
  }

  // ---- Box against vertical capsule ----

  /** The capsule's centre in the box frame, along the forward and the right axis. */
  function LocalForward(body: ObbPrism, point: Vector2): real {
    Dot(Subtract(point, body.center), body.forward)
  }

  function LocalRight(body: ObbPrism, point: Vector2): real {
    Dot(Subtract(point, body.center), Right(body.forward))
  }

  function ClosestPoint(body: ObbPrism, point: Vector2): Vector2
    requires ValidShape(body)
  {
    Add(body.center, Add(
      Multiply(body.forward, Clamp(LocalForward(body, point), -body.halfLength, body.halfLength)),
      Multiply(Right(body.forward), Clamp(LocalRight(body, point), -body.halfWidth, body.halfWidth))))
  }

  /** `distance` is the length of the vector from the capsule's axis to the closest point of the box. */
  ghost predicate IsCapsuleDistance(body: ObbPrism, capsule: VerticalCapsule, distance: real)
    requires ValidShape(body)
  {
    var gap := Subtract(ClosestPoint(body, capsule.center), capsule.center);
    IsLength(distance, gap.east, gap.north)
  }

  datatype Face = Face(distance: real, outward: Vector2)

  function BoxFace(body: ObbPrism, point: Vector2, k: nat): Face
    requires k < 4
  {
    if k == 0 then Face(body.halfLength - LocalForward(body, point), body.forward)
    else if k == 1 then Face(body.halfLength + LocalForward(body, point), Multiply(body.forward, -1.0))
    else if k == 2 then Face(body.halfWidth - LocalRight(body, point), Right(body.forward))
    else Face(body.halfWidth + LocalRight(body, point), Multiply(Right(body.forward), -1.0))
  }

  function FaceApproach(velocity: Vector2, face: Face): real {
    Dot(velocity, Multiply(face.outward, -1.0))
  }

  /** The nearest of the first `n` faces; within the axis tolerance the face that is approached faster wins. */
  function SelectFace(body: ObbPrism, point: Vector2, velocity: Vector2, n: nat): (selected: nat)
    requires 1 <= n <= 4
    ensures selected < n
  {
    if n == 1 then 0
    else
      var previous := SelectFace(body, point, velocity, n - 1);
      var best, face := BoxFace(body, point, previous), BoxFace(body, point, n - 1);
      if face.distance < best.distance - AXIS_EPSILON
         || (Abs(face.distance - best.distance) <= AXIS_EPSILON
           && FaceApproach(velocity, face) < FaceApproach(velocity, best))
      then n - 1
      else previous
  }

  function IntersectObbVerticalCapsule(body: ObbPrism, capsule: VerticalCapsule, velocity: Vector2, distance: real)
    : Option<CollisionManifold>
    requires ValidShape(body)
  {
    if VerticalOverlap(body.centerUp, body.halfHeight, capsule.centerUp, capsule.halfHeight) <= 0.0 then None
    else if distance > AXIS_EPSILON then
      if capsule.radius - distance <= 0.0 then None
      else
        var closest := ClosestPoint(body, capsule.center);
        Some(CollisionManifold(
          Multiply(Subtract(closest, capsule.center), 1.0 / distance), closest, capsule.radius - distance))
    else
      var face := BoxFace(body, capsule.center, SelectFace(body, capsule.center, velocity, 4));
      Some(CollisionManifold(
        Multiply(face.outward, -1.0),
        Add(capsule.center, Multiply(face.outward, face.distance)),
        capsule.radius + face.distance))
  }

  // ---- Capsule against capsule ----

  const CAPSULE_EPSILON: real := 0.000000001

  function IntersectCapsules(lhs: VerticalCapsule, rhs: VerticalCapsule, distance: real): Option<CollisionManifold> {
    var penetration := lhs.radius + rhs.radius - distance;
    if Abs(lhs.centerUp - rhs.centerUp) >= lhs.halfHeight + rhs.halfHeight || penetration <= 0.0 then None
    else
      var normal := if distance > CAPSULE_EPSILON
                    then Multiply(Subtract(lhs.center, rhs.center), 1.0 / distance)
                    else Vector2(1.0, 0.0);
      Some(CollisionManifold(
        normal, Add(rhs.center, Multiply(normal, rhs.radius - penetration * 0.5)), penetration))
  }
}
