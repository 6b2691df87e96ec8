/** Where a contact is reported, and when one is reported at all: in terms of the shapes, not of how it is computed. */
module ContactPoints {
  import opened Planar
  import opened NarrowPhase

  // ---- Boxes and their frames ----

  ghost predicate InBox(shape: ObbPrism, point: Vector2) {
    && Abs(LocalForward(shape, point)) <= shape.halfLength && Abs(LocalRight(shape, point)) <= shape.halfWidth
  }

  /** The vector with these coordinates along a forward axis and its right axis. */
  function InFrame(forward: Vector2, x: real, y: real): Vector2 {
    Add(Multiply(forward, x), Multiply(Right(forward), y))
  }

  lemma FrameDots(forward: Vector2, x: real, y: real)
    ensures Dot(InFrame(forward, x, y), forward) == Times(x, Dot(forward, forward))
    ensures Dot(InFrame(forward, x, y), Right(forward)) == Times(y, Dot(forward, forward))
  {
  }

  lemma CentreCancels(center: Vector2, v: Vector2)
    ensures Subtract(Add(center, v), center) == v
  {
  }

  /** A point given by its coordinates in the box frame has these coordinates. */
  lemma {:induction false} LocalCoordinates(shape: ObbPrism, x: real, y: real)
    requires Unit(shape.forward)
    ensures var point := Add(shape.center, InFrame(shape.forward, x, y));
      LocalForward(shape, point) == x && LocalRight(shape, point) == y
  {
    hide Dot, Add, Subtract, Multiply, Right, Times;
    CentreCancels(shape.center, InFrame(shape.forward, x, y));
    FrameDots(shape.forward, x, y);
    TimesOne(x);
    TimesOne(y);
    UnitDot(shape.forward);
  }

  lemma UnitDot(forward: Vector2)
    requires Unit(forward)
    ensures Dot(forward, forward) == 1.0
  {
  }

  // ---- The support point of a box ----

  /** The coordinate of a box's furthest point along an axis: an end, or the middle of a face across the direction. */
  function SupportCoordinate(direction: Vector2, axis: Vector2, extent: real): real {
    var projection := Dot(direction, axis);
    if Abs(projection) <= AXIS_EPSILON then 0.0 else if projection < 0.0 then -extent else extent
  }

  lemma NothingAlong(point: Vector2, axis: Vector2)
    ensures Add(point, Multiply(axis, 0.0)) == point
  {
  }

  lemma SumOfSteps(center: Vector2, forward: Vector2, x: real, y: real)
    ensures Add(Add(center, Multiply(forward, x)), Multiply(Right(forward), y)) == Add(center, InFrame(forward, x, y))
  {
  }

  lemma {:induction false} SupportInFrame(shape: ObbPrism, direction: Vector2)
    requires Unit(shape.forward)
    ensures LocalForward(shape, SupportPoint(shape, direction))
         == SupportCoordinate(direction, shape.forward, shape.halfLength)
    ensures LocalRight(shape, SupportPoint(shape, direction))
         == SupportCoordinate(direction, Right(shape.forward), shape.halfWidth)
  {
    hide Dot, Add, Multiply, Right, LocalForward, LocalRight;
    var x := SupportCoordinate(direction, shape.forward, shape.halfLength);
    var y := SupportCoordinate(direction, Right(shape.forward), shape.halfWidth);
    NothingAlong(shape.center, shape.forward);
    NothingAlong(Add(shape.center, Multiply(shape.forward, x)), Right(shape.forward));
    SumOfSteps(shape.center, shape.forward, x, y);
    LocalCoordinates(shape, x, y);
  }

  /** Of all coordinates within the extent the supporting one goes furthest, up to the tolerance. */
  lemma {:induction false} FurthestCoordinate(direction: Vector2, axis: Vector2, extent: real, other: real)
    requires extent > 0.0 && Abs(other) <= extent
    ensures Times(Dot(direction, axis), other)
         <= Times(Dot(direction, axis), SupportCoordinate(direction, axis, extent)) + AXIS_EPSILON * extent
  {
    hide Dot;
    var projection, own := Dot(direction, axis), SupportCoordinate(direction, axis, extent);
    TimesDistributes(projection, other, own);
    if Abs(projection) <= AXIS_EPSILON {
      SmallProduct(projection, other, AXIS_EPSILON, extent);
      TimesZero(projection);
    } else if projection < 0.0 {
      TimesPositive(-projection, other + extent);
      SignsCancel(projection, other + extent);
    } else {
      TimesPositive(projection, extent - other);
      SignsCancel(projection, extent - other);
    }
    hide Times;
  }

  lemma SignsCancel(x: real, y: real)
    ensures Times(-x, y) == -Times(x, y) && Times(x, -y) == -Times(x, y)
  {
  }

  lemma {:induction false} SmallProduct(x: real, y: real, boundX: real, boundY: real)
    requires Abs(x) <= boundX && Abs(y) <= boundY
    ensures Times(x, y) <= boundX * boundY
  {
    TimesOrder(Abs(x), Abs(y), boundY);
    TimesOrder(boundY, Abs(x), boundX);
    assert Times(x, y) <= Times(Abs(x), Abs(y));
    assert Times(boundY, Abs(x)) == Times(Abs(x), boundY) && Times(boundY, boundX) == boundX * boundY;
    hide Times;
  }

  lemma {:induction false} BoxDot(shape: ObbPrism, point: Vector2, direction: Vector2)
    requires Unit(shape.forward)
    ensures Dot(Subtract(point, shape.center), direction)
         == Times(Dot(direction, shape.forward), LocalForward(shape, point))
            + Times(Dot(direction, Right(shape.forward)), LocalRight(shape, point))
  {
    hide Dot, Subtract, Right;
    DecomposeDot(shape.forward, Subtract(point, shape.center), direction);
    assert LocalForward(shape, point) * Dot(direction, shape.forward)
        == Times(Dot(direction, shape.forward), LocalForward(shape, point));
    assert LocalRight(shape, point) * Dot(direction, Right(shape.forward))
        == Times(Dot(direction, Right(shape.forward)), LocalRight(shape, point));
    hide Times;
  }

  /**
   * The contact point of two boxes belongs to the first box, no point of that box lies further into the obstacle, and
   * across a face that is parallel to the contact it is in the middle.
   */
  lemma {:induction false} ContactPointIsDeepest(
    body: ObbPrism, obstacle: ObbPrism, velocity: Vector2, other: Vector2)
    requires ValidShape(body) && ValidShape(obstacle) && InBox(body, other)
    requires IntersectObbPrisms(body, obstacle, velocity).Some?
    ensures var manifold := IntersectObbPrisms(body, obstacle, velocity).value;
      var into := Multiply(manifold.normal, -1.0);
      && InBox(body, manifold.contactPoint)
      && Dot(Subtract(other, body.center), into)
         <= Dot(Subtract(manifold.contactPoint, body.center), into)
            + AXIS_EPSILON * body.halfLength + AXIS_EPSILON * body.halfWidth
      && (Abs(Dot(into, body.forward)) <= AXIS_EPSILON ==> LocalForward(body, manifold.contactPoint) == 0.0)
      && (Abs(Dot(into, Right(body.forward))) <= AXIS_EPSILON ==> LocalRight(body, manifold.contactPoint) == 0.0)
  {
    hide Dot, Subtract, Multiply, Right, Times, SupportPoint, ScanAxes, LocalForward, LocalRight;
    var manifold := IntersectObbPrisms(body, obstacle, velocity).value;
    var into, point := Multiply(manifold.normal, -1.0), manifold.contactPoint;
    assert point == SupportPoint(body, into);
    SupportInFrame(body, into);
    BoxDot(body, other, into);
    BoxDot(body, point, into);
    FurthestCoordinate(into, body.forward, body.halfLength, LocalForward(body, other));
    FurthestCoordinate(into, Right(body.forward), body.halfWidth, LocalRight(body, other));
  }

  // ---- When boxes touch ----

  /** Two vertical intervals share an interior height exactly when their overlap is positive. */
  lemma {:induction false} VerticalOverlapIsShared(centerA: real, halfA: real, centerB: real, halfB: real)
    requires halfA > 0.0 && halfB > 0.0
    ensures VerticalOverlap(centerA, halfA, centerB, halfB) > 0.0
       <==> exists up: real :: StrictlyBetween(up, centerA, halfA) && StrictlyBetween(up, centerB, halfB)
  {
    var low, high := Max(centerA - halfA, centerB - halfB), Min(centerA + halfA, centerB + halfB);
    if low < high {
      assert StrictlyBetween(0.5 * (low + high), centerA, halfA) && StrictlyBetween(0.5 * (low + high), centerB, halfB);
    }
  }

  predicate StrictlyBetween(up: real, center: real, half: real) {
    center - half < up < center + half
  }

  /** Boxes are reported exactly when they overlap vertically and along all four edge axes. */
  lemma {:induction false} BoxesTouchExactly(body: ObbPrism, obstacle: ObbPrism, velocity: Vector2)
    ensures IntersectObbPrisms(body, obstacle, velocity).Some?
       <==> && VerticalOverlap(body.centerUp, body.halfHeight, obstacle.centerUp, obstacle.halfHeight) > 0.0
            && forall k :: 0 <= k < 4 ==> AxisOverlap(body, obstacle, CandidateAxis(body, obstacle, k)) > 0.0
  {
    hide AxisOverlap, CandidateAxis, PushDirection, SupportPoint, VerticalOverlap, Dot, Multiply;
    var scan := ScanAxes(body, obstacle, velocity, 4);
    assert scan.Separated? || scan.Least?;
  }

  lemma FlippedDot(v: Vector2, axis: Vector2, sign: real)
    ensures Dot(v, Multiply(axis, sign)) == sign * Dot(v, axis)
  {
  }

  /** The normal leads away from the obstacle's centre, or against the approach when the centres nearly coincide. */
  lemma {:induction false} NormalLeadsAway(body: ObbPrism, obstacle: ObbPrism, velocity: Vector2)
    requires ValidShape(body) && ValidShape(obstacle)
    requires IntersectObbPrisms(body, obstacle, velocity).Some?
    ensures var normal := IntersectObbPrisms(body, obstacle, velocity).value.normal;
      var apart := Dot(Subtract(body.center, obstacle.center), normal);
      && apart >= -AXIS_EPSILON
      && (apart <= AXIS_EPSILON ==> Dot(velocity, normal) <= AXIS_EPSILON)
  {
    hide AxisOverlap, SupportPoint, VerticalOverlap, CandidateAxis, Dot, Multiply, Subtract;
    ManifoldIsLeastOverlap(body, obstacle, velocity);
    var manifold := IntersectObbPrisms(body, obstacle, velocity).value;
    var k: nat :| k < 4 && IsAxisOf(body, obstacle, velocity, manifold, k);
    var axis, delta := CandidateAxis(body, obstacle, k), Subtract(body.center, obstacle.center);
    var sign := PushDirection(Dot(delta, axis), Dot(velocity, axis));
    FlippedDot(delta, axis, sign);
    FlippedDot(velocity, axis, sign);
  }

  // ---- Box against vertical capsule ----

  function SquaredDistance(a: Vector2, b: Vector2): real {
    Dot(Subtract(a, b), Subtract(a, b))
  }

  lemma {:induction false} ClosestInFrame(body: ObbPrism, point: Vector2)
    requires ValidShape(body)
    ensures LocalForward(body, ClosestPoint(body, point))
         == Clamp(LocalForward(body, point), -body.halfLength, body.halfLength)
    ensures LocalRight(body, ClosestPoint(body, point))
         == Clamp(LocalRight(body, point), -body.halfWidth, body.halfWidth)
  {
    hide Dot, Add, Multiply, Right, LocalForward, LocalRight;
    LocalCoordinates(body, Clamp(LocalForward(body, point), -body.halfLength, body.halfLength),
      Clamp(LocalRight(body, point), -body.halfWidth, body.halfWidth));
  }

  /** Distance is measured as well in the box frame. */
  lemma {:induction false} DistanceInFrame(body: ObbPrism, a: Vector2, b: Vector2)
    requires Unit(body.forward)
    ensures SquaredDistance(a, b)
         == Square(LocalForward(body, a) - LocalForward(body, b)) + Square(LocalRight(body, a) - LocalRight(body, b))
  {
    hide Dot, Subtract, Right;
    DecomposeDot(body.forward, Subtract(a, b), Subtract(a, b));
    LocalDifference(a, b, body.center, body.forward);
    LocalDifference(a, b, body.center, Right(body.forward));
  }

  lemma LocalDifference(a: Vector2, b: Vector2, center: Vector2, axis: Vector2)
    ensures Dot(Subtract(a, b), axis) == Dot(Subtract(a, center), axis) - Dot(Subtract(b, center), axis)
  {
  }

  lemma {:induction false} ClampIsNearest(x: real, half: real, other: real)
    requires half > 0.0 && Abs(other) <= half
    ensures Square(Clamp(x, -half, half) - x) <= Square(other - x)
  {
    var near, far := Clamp(x, -half, half) - x, other - x;
    EvenSquare(near);
    EvenSquare(far);
    if Abs(near) < Abs(far) {
      SquaresOrder(Abs(near), Abs(far));
    }
    hide Times;
    assert Abs(near) <= Abs(far);
  }

  /** The closest point belongs to the box, and no point of the box is closer. */
  lemma {:induction false} ClosestPointIsNearest(body: ObbPrism, point: Vector2, other: Vector2)
    requires ValidShape(body) && InBox(body, other)
    ensures InBox(body, ClosestPoint(body, point))
    ensures SquaredDistance(ClosestPoint(body, point), point) <= SquaredDistance(other, point)
  {
    hide SquaredDistance, LocalForward, LocalRight, ClosestPoint, Square, Unit;
    ClosestInFrame(body, point);
    DistanceInFrame(body, ClosestPoint(body, point), point);
    DistanceInFrame(body, other, point);
    ClampIsNearest(LocalForward(body, point), body.halfLength, LocalForward(body, other));
    ClampIsNearest(LocalRight(body, point), body.halfWidth, LocalRight(body, other));
  }

  /** The point lies strictly within the capsule's radius of its axis. */
  ghost predicate Within(point: Vector2, capsule: VerticalCapsule) {
    SquaredDistance(point, capsule.center) < Square(capsule.radius)
  }

  /**
   * A box and a capsule are reported exactly when they overlap vertically and some point of the box is nearer to the
   * capsule's axis than the radius, or the axis is in the box up to the tolerance.
   */
  lemma {:induction false} CapsuleTouchesExactly(
    body: ObbPrism, capsule: VerticalCapsule, velocity: Vector2, distance: real)
    requires ValidShape(body) && ValidCapsule(capsule) && IsCapsuleDistance(body, capsule, distance)
    ensures IntersectObbVerticalCapsule(body, capsule, velocity, distance).Some?
       <==> && VerticalOverlap(body.centerUp, body.halfHeight, capsule.centerUp, capsule.halfHeight) > 0.0
            && (distance <= AXIS_EPSILON || exists point :: InBox(body, point) && Within(point, capsule))
  {
    hide SquaredDistance, InBox, ClosestPoint, Times, VerticalOverlap, BoxFace, Multiply, Subtract;
    var closest := ClosestPoint(body, capsule.center);
    GapLength(closest, capsule.center, distance);
    SquaresOrder(distance, capsule.radius);
    CentreIsInBox(body);
    ClosestPointIsNearest(body, capsule.center, body.center);
    assert InBox(body, closest);
    forall point | InBox(body, point) && Within(point, capsule)
      ensures distance < capsule.radius
    {
      ClosestPointIsNearest(body, capsule.center, point);
    }
    assert distance < capsule.radius ==> Within(closest, capsule);
  }

  lemma {:induction false} CentreIsInBox(body: ObbPrism)
    requires ValidShape(body)
    ensures InBox(body, body.center)
  {
    NoStep(body.center, body.forward);
    NoStep(body.center, Right(body.forward));
    hide Dot, Subtract, Right;
  }

  lemma NoStep(point: Vector2, axis: Vector2)
    ensures Dot(Subtract(point, point), axis) == 0.0
  {
  }

  lemma GapLength(closest: Vector2, center: Vector2, distance: real)
    requires IsLength(distance, Subtract(closest, center).east, Subtract(closest, center).north)
    ensures SquaredDistance(closest, center) == Square(distance)
  {
  }

  /**
   * With the axis outside, the contact point is the box's nearest point, at the radius less the penetration from it.
   */
  lemma {:induction false} OutsideContactPoint(
    body: ObbPrism, capsule: VerticalCapsule, velocity: Vector2, distance: real, other: Vector2)
    requires ValidShape(body) && IsCapsuleDistance(body, capsule, distance) && distance > AXIS_EPSILON
    requires IntersectObbVerticalCapsule(body, capsule, velocity, distance).Some? && InBox(body, other)
    ensures var manifold := IntersectObbVerticalCapsule(body, capsule, velocity, distance).value;
      && InBox(body, manifold.contactPoint)
      && SquaredDistance(manifold.contactPoint, capsule.center) == Square(capsule.radius - manifold.penetration)
      && Square(capsule.radius - manifold.penetration) <= SquaredDistance(other, capsule.center)
      && 0.0 < manifold.penetration < capsule.radius
  {
    hide SquaredDistance, LocalForward, LocalRight, ClosestPoint, Square, Multiply, Subtract, VerticalOverlap;
    ClosestPointIsNearest(body, capsule.center, other);
    GapLength(ClosestPoint(body, capsule.center), capsule.center, distance);
  }

  // ---- The face that a capsule inside the box leaves through ----

  /** No face is nearer than the selected one by more than the tolerance for each comparison. */
  lemma {:induction false} SelectedFaceIsNear(body: ObbPrism, point: Vector2, velocity: Vector2, n: nat, k: nat)
    requires 1 <= n <= 4 && k < n
    ensures BoxFace(body, point, SelectFace(body, point, velocity, n)).distance
         <= BoxFace(body, point, k).distance + (n - 1) as real * AXIS_EPSILON
  {
    hide BoxFace, FaceApproach;
    if n > 1 && k < n - 1 {
      SelectedFaceIsNear(body, point, velocity, n - 1, k);
    }
  }

  /** Apart from exact ties, the distances of the faces differ by more than the tolerance. */
  ghost predicate ClearlyOrdered(body: ObbPrism, point: Vector2) {
    forall i: nat, j: nat :: i < 4 && j < 4 ==>
      SameOrApart(BoxFace(body, point, i).distance, BoxFace(body, point, j).distance)
  }

  predicate SameOrApart(x: real, y: real) {
    x == y || Abs(x - y) > AXIS_EPSILON
  }

  /** Then the selected face is the nearest; of equally near ones that approached fastest, and of those the first. */
  lemma {:induction false} SelectedFaceIsBest(body: ObbPrism, point: Vector2, velocity: Vector2, n: nat, k: nat)
    requires 1 <= n <= 4 && k < n && ClearlyOrdered(body, point)
    ensures var selected := SelectFace(body, point, velocity, n);
      var best, face := BoxFace(body, point, selected), BoxFace(body, point, k);
      && best.distance <= face.distance
      && (best.distance == face.distance ==> FaceApproach(velocity, best) <= FaceApproach(velocity, face))
      && (best.distance == face.distance && FaceApproach(velocity, best) == FaceApproach(velocity, face) ==>
        selected <= k)
  {
    hide BoxFace, FaceApproach;
    if n > 1 {
      if k < n - 1 {
        SelectedFaceIsBest(body, point, velocity, n - 1, k);
      }
      var previous, last := SelectFace(body, point, velocity, n - 1), n - 1;
      assert SameOrApart(BoxFace(body, point, last).distance, BoxFace(body, point, previous).distance);
    }
  }

  lemma SteppedCoordinates(center: Vector2, point: Vector2, axis: Vector2, forward: Vector2, length: real)
    ensures Dot(Subtract(Add(point, Multiply(axis, length)), center), forward)
         == Dot(Subtract(point, center), forward) + Times(length, Dot(axis, forward))
  {
  }

  lemma {:induction false} FrameIsOrthonormal(forward: Vector2)
    requires Unit(forward)
    ensures Dot(forward, forward) == 1.0 && Dot(Right(forward), Right(forward)) == 1.0
    ensures Dot(forward, Right(forward)) == 0.0 && Dot(Right(forward), forward) == 0.0
    ensures Dot(Multiply(forward, -1.0), forward) == -1.0 && Dot(Multiply(forward, -1.0), Right(forward)) == 0.0
    ensures Dot(Multiply(Right(forward), -1.0), Right(forward)) == -1.0
    ensures Dot(Multiply(Right(forward), -1.0), forward) == 0.0
  {
  }

  /** A face's distance leads from the point straight to that face; the other coordinate does not change. */
  lemma {:induction false} FaceIsReached(body: ObbPrism, point: Vector2, k: nat)
    requires ValidShape(body) && k < 4
    ensures var face := BoxFace(body, point, k);
      var reached := Add(point, Multiply(face.outward, face.distance));
      if k < 2 then
        && LocalForward(body, reached) == (if k == 0 then body.halfLength else -body.halfLength)
        && LocalRight(body, reached) == LocalRight(body, point)
      else
        && LocalRight(body, reached) == (if k == 2 then body.halfWidth else -body.halfWidth)
        && LocalForward(body, reached) == LocalForward(body, point)
  {
    var face := BoxFace(body, point, k);
    FrameIsOrthonormal(body.forward);
    hide Dot, Subtract, Add, Multiply, Right, Times;
    SteppedCoordinates(body.center, point, face.outward, body.forward, face.distance);
    SteppedCoordinates(body.center, point, face.outward, Right(body.forward), face.distance);
    TimesZero(face.distance);
    TimesOne(face.distance);
    MinusOne(face.distance);
  }

  lemma MinusOne(x: real)
    ensures Times(x, -1.0) == -x
  {
  }

  /** With the axis inside, the contact point is on the selected face, straight out from the axis. */
  lemma {:induction false} InsideContactPoint(
    body: ObbPrism, capsule: VerticalCapsule, velocity: Vector2, distance: real)
    requires ValidShape(body) && distance <= AXIS_EPSILON
    requires IntersectObbVerticalCapsule(body, capsule, velocity, distance).Some?
    ensures var manifold := IntersectObbVerticalCapsule(body, capsule, velocity, distance).value;
      var k := SelectFace(body, capsule.center, velocity, 4);
      var point, face := manifold.contactPoint, BoxFace(body, capsule.center, k);
      && manifold.normal == Multiply(face.outward, -1.0) && manifold.penetration == capsule.radius + face.distance
      && (if k < 2 then
            && LocalForward(body, point) == (if k == 0 then body.halfLength else -body.halfLength)
            && LocalRight(body, point) == LocalRight(body, capsule.center)
          else
            && LocalRight(body, point) == (if k == 2 then body.halfWidth else -body.halfWidth)
            && LocalForward(body, point) == LocalForward(body, capsule.center))
  {
    hide BoxFace, LocalForward, LocalRight, Add, Multiply, VerticalOverlap;
    FaceIsReached(body, capsule.center, SelectFace(body, capsule.center, velocity, 4));
  }

  // ---- Two capsules ----

  lemma DifferenceSquare(p: Vector2, a: Vector2, b: Vector2)
    ensures SquaredDistance(a, b)
         == SquaredDistance(p, a) + SquaredDistance(p, b) - 2.0 * Dot(Subtract(p, a), Subtract(p, b))
  {
  }

  lemma CrossSquare(u: Vector2, v: Vector2)
    ensures Times(Dot(u, u), Dot(v, v)) - Square(Dot(u, v)) == Square(u.east * v.north - u.north * v.east)
  {
  }

  lemma SumSquare(x: real, y: real)
    ensures Square(x + y) == Square(x) + Square(y) + 2.0 * Times(x, y)
    ensures Square(Times(x, y)) == Times(Square(x), Square(y))
  {
  }

  lemma OwnSquare(v: Vector2)
    ensures Dot(v, v) >= 0.0
  {
  }

  /** Points closer to a common one than two radii are closer to each other than the sum of both. */
  lemma {:induction false} SharedPointIsClose(p: Vector2, a: Vector2, b: Vector2, r1: real, r2: real)
    requires r1 > 0.0 && r2 > 0.0
    requires SquaredDistance(p, a) < Square(r1) && SquaredDistance(p, b) < Square(r2)
    ensures SquaredDistance(a, b) < Square(r1 + r2)
  {
    var u, v := Subtract(p, a), Subtract(p, b);
    DifferenceSquare(p, a, b);
    CrossSquare(u, v);
    OwnSquare(u);
    OwnSquare(v);
    SumSquare(r1, r2);
    TimesPositive(r1, r2);
    assert Square(u.east * v.north - u.north * v.east) >= 0.0;
    assert Dot(u, u) == SquaredDistance(p, a) && Dot(v, v) == SquaredDistance(p, b);
    TimesOrder(Dot(u, u), Dot(v, v), Square(r2));
    TimesOrder(Square(r2), Dot(u, u), Square(r1));
    TimesCommutes(Square(r2), Dot(u, u));
    TimesCommutes(Square(r2), Square(r1));
    EvenSquare(Dot(u, v));
    hide Times, Dot, Subtract;
    assert Square(Abs(Dot(u, v))) <= Square(Times(r1, r2));
    SquaresOrder(Times(r1, r2), Abs(Dot(u, v)));
  }

  lemma {:induction false} PartOfTheWay(a: Vector2, b: Vector2, share: real)
    ensures var p := Add(b, Multiply(Subtract(a, b), share));
      && SquaredDistance(p, b) == Times(Square(share), SquaredDistance(a, b))
      && SquaredDistance(p, a) == Times(Square(1.0 - share), SquaredDistance(a, b))
  {
    OwnScaled(a.east - b.east, share);
    OwnScaled(a.north - b.north, share);
    assert b.east + (a.east - b.east) * share - a.east == (share - 1.0) * (a.east - b.east);
    assert b.north + (a.north - b.north) * share - a.north == (share - 1.0) * (a.north - b.north);
    OwnScaled(a.east - b.east, share - 1.0);
    OwnScaled(a.north - b.north, share - 1.0);
    assert Square(share - 1.0) == Square(1.0 - share);
  }

  lemma OwnScaled(x: real, share: real)
    ensures (x * share) * (x * share) == Times(Square(share), x * x)
    ensures (share * x) * (share * x) == Times(Square(share), x * x)
  {
  }

  /** Closer than the sum of two radii, there is a point that is strictly within both. */
  lemma {:induction false} ClosePointIsShared(
    lhs: VerticalCapsule, rhs: VerticalCapsule, distance: real) returns (p: Vector2)
    requires lhs.radius > 0.0 && rhs.radius > 0.0 && 0.0 <= distance < lhs.radius + rhs.radius
    requires SquaredDistance(lhs.center, rhs.center) == Square(distance)
    ensures Within(p, lhs) && Within(p, rhs)
  {
    var sum := lhs.radius + rhs.radius;
    var share := rhs.radius / sum;
    p := Add(rhs.center, Multiply(Subtract(lhs.center, rhs.center), share));
    PartOfTheWay(lhs.center, rhs.center, share);
    QuotientTimes(rhs.radius, sum);
    PositiveQuotient(rhs.radius, sum);
    TimesCommutes(share, sum);
    TimesOne(sum);
    TimesDistributes(sum, 1.0, share);
    SumSquare(share, distance);
    SumSquare(1.0 - share, distance);
    PositiveShare(sum, 1.0 - share);
    hide Times, SquaredDistance, Add, Subtract, Multiply;
    ScaledLess(share, distance, sum, rhs.radius);
    ScaledLess(1.0 - share, distance, sum, lhs.radius);
  }

  lemma PositiveShare(sum: real, share: real)
    requires sum > 0.0 && Times(sum, share) > 0.0
    ensures share > 0.0
  {
  }

  lemma {:induction false} ScaledLess(share: real, distance: real, sum: real, radius: real)
    requires share > 0.0 && 0.0 <= distance < sum && Times(sum, share) == radius
    ensures Square(Times(share, distance)) < Square(radius)
  {
    TimesOrder(share, distance, sum);
    TimesCommutes(share, sum);
    TimesPositive(share, distance);
    SquaresOrder(Times(share, distance), radius);
    hide Times;
  }

  /** Two capsules are reported exactly when they share an interior height and some point is strictly within both. */
  lemma {:induction false} CapsulesTouchExactly(lhs: VerticalCapsule, rhs: VerticalCapsule, distance: real)
    requires ValidCapsule(lhs) && ValidCapsule(rhs)
    requires var gap := Subtract(lhs.center, rhs.center); IsLength(distance, gap.east, gap.north)
    ensures IntersectCapsules(lhs, rhs, distance).Some?
       <==> && VerticalOverlap(lhs.centerUp, lhs.halfHeight, rhs.centerUp, rhs.halfHeight) > 0.0
            && exists point :: Within(point, lhs) && Within(point, rhs)
  {
    GapLength(lhs.center, rhs.center, distance);
    hide SquaredDistance, Multiply, Subtract, Square, Within;
    if distance < lhs.radius + rhs.radius {
      var point := ClosePointIsShared(lhs, rhs, distance);
    }
    forall point | Within(point, lhs) && Within(point, rhs)
      ensures distance < lhs.radius + rhs.radius
    {
      SharedPointClose(lhs, rhs, point);
      SquaresOrder(distance, lhs.radius + rhs.radius);
    }
  }

  lemma {:induction false} SharedPointClose(lhs: VerticalCapsule, rhs: VerticalCapsule, point: Vector2)
    requires ValidCapsule(lhs) && ValidCapsule(rhs) && Within(point, lhs) && Within(point, rhs)
    ensures SquaredDistance(lhs.center, rhs.center) < Square(lhs.radius + rhs.radius)
  {
    hide SquaredDistance, Square;
    SharedPointIsClose(point, lhs.center, rhs.center, lhs.radius, rhs.radius);
  }

  lemma MeetingSum(lhs: Vector2, rhs: Vector2, normal: Vector2, distance: real, fromRight: real, fromLeft: real)
    requires Subtract(lhs, rhs) == Multiply(normal, distance) && fromRight + fromLeft == distance
    ensures Add(rhs, Multiply(normal, fromRight)) == Add(lhs, Multiply(normal, -fromLeft))
  {
  }

  lemma NormalTimesDistance(v: Vector2, distance: real)
    requires distance > 0.0
    ensures Multiply(Multiply(v, 1.0 / distance), distance) == v
  {
  }

  /** Two capsules meet halfway through their overlap: as far inside either one, along the line between the axes. */
  lemma {:induction false} CapsulesMeetHalfway(lhs: VerticalCapsule, rhs: VerticalCapsule, distance: real)
    requires distance > CAPSULE_EPSILON && IntersectCapsules(lhs, rhs, distance).Some?
    ensures var manifold := IntersectCapsules(lhs, rhs, distance).value;
      var half := manifold.penetration * 0.5;
      && manifold.penetration == lhs.radius + rhs.radius - distance
      && manifold.contactPoint == Add(rhs.center, Multiply(manifold.normal, rhs.radius - half))
      && manifold.contactPoint == Add(lhs.center, Multiply(manifold.normal, -(lhs.radius - half)))
      && Subtract(lhs.center, rhs.center) == Multiply(manifold.normal, distance)
  {
    hide Add, Multiply, Subtract;
    var manifold := IntersectCapsules(lhs, rhs, distance).value;
    NormalTimesDistance(Subtract(lhs.center, rhs.center), distance);
    MeetingSum(lhs.center, rhs.center, manifold.normal, distance, rhs.radius - manifold.penetration * 0.5,
      lhs.radius - manifold.penetration * 0.5);
  }
}
