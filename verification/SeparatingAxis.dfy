/** The four edge axes of two boxes decide their separation along every direction. */
module SeparatingAxis {
  import opened Planar
  import opened NarrowPhase

  /** Half extents of the first box along F, R and of the second along F2, R2. */
  datatype Extents = Extents(a: real, b: real, c: real, d: real)

  /** Coordinates of a vector on F, R and on F2, R2. */
  datatype Coordinates = Coordinates(a1: real, a2: real, b1: real, b2: real)

  function Support(h: Extents, e: Coordinates): real {
    h.a * e.a1 + h.b * e.a2 + h.c * e.b1 + h.d * e.b2
  }

  function Magnitude(e: Coordinates): Coordinates {
    Coordinates(Abs(e.a1), Abs(e.a2), Abs(e.b1), Abs(e.b2))
  }

  /** Support of the box sum along one edge axis: its own half extent and the other box's two projections. */
  function EdgeSupport(own: real, other1: real, other2: real, projection1: real, projection2: real): real {
    own + other1 * projection1 + other2 * projection2
  }

  /** The support of the box sum along each of the four edge axes bounds the offset `o` there. */
  ghost predicate Bounded(h: Extents, absP: real, absS: real, o: Coordinates) {
    && o.a1 < EdgeSupport(h.a, h.c, h.d, absP, absS) && o.a2 < EdgeSupport(h.b, h.c, h.d, absS, absP)
    && o.b1 < EdgeSupport(h.c, h.a, h.b, absP, absS) && o.b2 < EdgeSupport(h.d, h.a, h.b, absS, absP)
  }

  /** The second frame is F2 = pF + sR, R2 = hand * (pR - sF). */
  ghost predicate Turned(p: real, s: real, hand: real, e: Coordinates) {
    e.b1 == p * e.a1 + s * e.a2 && e.b2 == hand * (p * e.a2 - s * e.a1)
  }

  /** The dot product of two vectors, from their coordinates in the first frame. */
  function Along(e: Coordinates, o: Coordinates): real {
    e.a1 * o.a1 + e.a2 * o.a2
  }

  /** A direction `e` and an offset `o` seen from both frames. */
  ghost predicate Setting(p: real, s: real, hand: real, e: Coordinates, o: Coordinates) {
    p * p + s * s == 1.0 && Turned(p, s, hand, e) && Turned(p, s, hand, o)
  }

  // ---- Between two neighbouring edge axes the support is linear ----

  /** The vector xF2 + yR in both frames, for a second frame turned by (p, s). */
  function ConePoint(p: real, s: real, x: real, y: real): Coordinates {
    Coordinates(x * p, x * s + y, x + y * s, y * p)
  }

  lemma TurnBack(p: real, s: real, x: real, y: real)
    ensures p * (x * p) + s * (x * s + y) == Times(x, p * p + s * s) + y * s
  {
  }

  lemma ConeProducts(p: real, s: real, x: real, y: real)
    ensures Times(p, x * s + y) == s * (x * p) + y * p
  {
  }

  /** The coordinates of a direction in the first frame and its second one in the other give its cone weights. */
  lemma {:induction false} ConeCoordinates(p: real, s: real, x: real, y: real, e: Coordinates)
    requires p > 0.0 && p * p + s * s == 1.0 && Turned(p, s, 1.0, e) && e.a1 == x * p && e.b2 == y * p
    ensures e == ConePoint(p, s, x, y)
  {
    assert e.b1 == p * e.a1 + s * e.a2 && e.b2 == p * e.a2 - s * e.a1;
    hide Turned;
    ConeProducts(p, s, x, y);
    assert Times(p, e.a2) == Times(p, x * s + y);
    hide Times;
    TimesCancels(p, e.a2, x * s + y);
    TurnBack(p, s, x, y);
    TimesOne(x);
  }

  /** A direction between F2 and R is xF2 + yR with x, y not negative. */
  lemma {:induction false} ConeWeights(p: real, s: real, e: Coordinates) returns (x: real, y: real)
    requires p >= 0.0 && s >= 0.0 && p * p + s * s == 1.0 && Turned(p, s, 1.0, e)
    requires e.a1 >= 0.0 && e.a2 >= 0.0 && e.b2 >= 0.0 && (e.a1 > 0.0 || e.a2 > 0.0)
    ensures x >= 0.0 && y >= 0.0 && (x > 0.0 || y > 0.0)
    ensures e == ConePoint(p, s, x, y)
  {
    if p == 0.0 {
      SquaresOrder(s, 1.0);
      x, y := 0.0, e.a2;
      assert -e.a1 == e.b2;
    } else {
      x, y := e.a1 / p, e.b2 / p;
      QuotientTimes(e.a1, p);
      QuotientTimes(e.b2, p);
      TimesPositive(p, x);
      TimesPositive(p, y);
      ConeCoordinates(p, s, x, y, e);
    }
  }

  lemma SupportInCone(h: Extents, p: real, s: real, x: real, y: real)
    ensures Support(h, ConePoint(p, s, x, y))
         == Times(x, EdgeSupport(h.c, h.a, h.b, p, s)) + Times(y, EdgeSupport(h.b, h.c, h.d, s, p))
  {
  }

  lemma {:induction false} AlongInCone(p: real, s: real, x: real, y: real, o: Coordinates)
    requires Turned(p, s, 1.0, o)
    ensures Along(ConePoint(p, s, x, y), o) == Times(x, o.b1) + Times(y, o.a2)
  {
    assert Times(x, o.b1) == Times(x, p * o.a1 + s * o.a2);
  }

  /** The direction lies between F2 and R, where the offset is below the support of the box sum. */
  lemma {:induction false} ConeStep(h: Extents, p: real, s: real, e: Coordinates, o: Coordinates)
    requires p >= 0.0 && s >= 0.0 && Setting(p, s, 1.0, e, o)
    requires e.a1 >= 0.0 && e.a2 >= 0.0 && e.b2 >= 0.0 && (e.a1 > 0.0 || e.a2 > 0.0)
    requires Bounded(h, p, s, o)
    ensures Along(e, o) < Support(h, e)
  {
    hide Times, Support, Along, EdgeSupport, Turned, ConePoint;
    var x, y := ConeWeights(p, s, e);
    SupportInCone(h, p, s, x, y);
    AlongInCone(p, s, x, y, o);
    WeightedLess(x, o.b1, EdgeSupport(h.c, h.a, h.b, p, s), y, o.a2, EdgeSupport(h.b, h.c, h.d, s, p));
  }

  lemma {:induction false} WeightedLess(weight1: real, x1: real, y1: real, weight2: real, x2: real, y2: real)
    requires weight1 >= 0.0 && weight2 >= 0.0 && (weight1 > 0.0 || weight2 > 0.0) && x1 < y1 && x2 < y2
    ensures Times(weight1, x1) + Times(weight2, x2) < Times(weight1, y1) + Times(weight2, y2)
  {
    hide Times;
    TimesOrder(weight1, x1, y1);
    TimesOrder(weight2, x2, y2);
  }

  lemma TurnedProduct(p: real, s: real, x: real, y: real)
    ensures Times(x, p * x + s * y) + Times(y, p * y - s * x) == Times(Times(x, x) + Times(y, y), p)
  {
  }

  lemma {:induction false} TurnedLength(p: real, s: real, e: Coordinates)
    requires Turned(p, s, 1.0, e)
    ensures Times(e.a1, e.b1) + Times(e.a2, e.b2) == Times(Square(e.a1) + Square(e.a2), p)
  {
    assert e.b1 == p * e.a1 + s * e.a2 && e.b2 == p * e.a2 - s * e.a1;
    TurnedProduct(p, s, e.a1, e.a2);
    hide Times, Turned;
  }

  /** Two frames turned by (p, s) share the quadrant of a non-zero direction only when p is not negative. */
  lemma {:induction false} RotationTurnsForward(p: real, s: real, e: Coordinates)
    requires Turned(p, s, 1.0, e)
    requires e.a1 >= 0.0 && e.a2 >= 0.0 && e.b1 >= 0.0 && e.b2 >= 0.0 && (e.a1 > 0.0 || e.a2 > 0.0)
    ensures p >= 0.0
  {
    hide Times, Square, Turned;
    TurnedLength(p, s, e);
    TimesPositive(e.a1, e.b1);
    TimesPositive(e.a2, e.b2);
    TimesPositive(Square(e.a1) + Square(e.a2), p);
  }

  // ---- Symmetries of the setting ----

  function SwapFirst(e: Coordinates): Coordinates {
    Coordinates(e.a2, e.a1, e.b1, e.b2)
  }

  function SwapSecond(e: Coordinates): Coordinates {
    Coordinates(e.a1, e.a2, e.b2, e.b1)
  }

  /** Exchanging both frames' axes turns a rotation by (p, s) into one by (p, -s). */
  lemma ExchangedAxes(p: real, s: real, e: Coordinates)
    requires Turned(p, s, 1.0, e)
    ensures Turned(p, -s, 1.0, SwapFirst(SwapSecond(e)))
  {
  }

  /** A reflection becomes a rotation when the second frame's two axes trade places. */
  lemma ReflectedAxes(p: real, s: real, e: Coordinates)
    requires Turned(p, s, -1.0, e)
    ensures Turned(s, -p, 1.0, SwapSecond(e))
  {
  }

  lemma EdgeSupportCommutes(own: real, x: real, y: real, absX: real, absY: real)
    ensures EdgeSupport(own, x, y, absX, absY) == EdgeSupport(own, y, x, absY, absX)
  {
  }

  lemma {:induction false} SwappedBounds(h: Extents, absP: real, absS: real, o: Coordinates)
    requires Bounded(h, absP, absS, o)
    ensures Bounded(Extents(h.b, h.a, h.d, h.c), absP, absS, SwapFirst(SwapSecond(o)))
    ensures Bounded(Extents(h.a, h.b, h.d, h.c), absS, absP, SwapSecond(o))
  {
    hide EdgeSupport;
    EdgeSupportCommutes(h.a, h.c, h.d, absP, absS);
    EdgeSupportCommutes(h.b, h.c, h.d, absS, absP);
    EdgeSupportCommutes(h.c, h.a, h.b, absP, absS);
    EdgeSupportCommutes(h.d, h.a, h.b, absS, absP);
  }

  lemma SwappedSupport(h: Extents, e: Coordinates, o: Coordinates)
    ensures Support(Extents(h.b, h.a, h.d, h.c), SwapFirst(SwapSecond(e))) == Support(h, e)
    ensures Support(Extents(h.a, h.b, h.d, h.c), SwapSecond(e)) == Support(h, e)
    ensures Along(SwapFirst(SwapSecond(e)), SwapFirst(SwapSecond(o))) == Along(e, o)
    ensures Along(SwapSecond(e), SwapSecond(o)) == Along(e, o)
  {
  }

  lemma {:induction false} ReflectedSetting(h: Extents, p: real, s: real, e: Coordinates, o: Coordinates)
    requires Setting(p, s, -1.0, e, o) && Bounded(h, Abs(p), Abs(s), o)
    ensures Setting(s, -p, 1.0, SwapSecond(e), SwapSecond(o))
    ensures Bounded(Extents(h.a, h.b, h.d, h.c), Abs(s), Abs(-p), SwapSecond(o))
  {
    hide Bounded, Turned;
    ReflectedAxes(p, s, e);
    ReflectedAxes(p, s, o);
    SwappedBounds(h, Abs(p), Abs(s), o);
  }

  lemma {:induction false} RotationStep(h: Extents, p: real, s: real, e: Coordinates, o: Coordinates)
    requires Setting(p, s, 1.0, e, o) && Bounded(h, Abs(p), Abs(s), o)
    requires e.a1 >= 0.0 && e.a2 >= 0.0 && e.b1 >= 0.0 && e.b2 >= 0.0 && (e.a1 > 0.0 || e.a2 > 0.0)
    ensures Along(e, o) < Support(h, e)
  {
    hide Support, Bounded, Turned, Along;
    RotationTurnsForward(p, s, e);
    if s >= 0.0 {
      ConeStep(h, p, s, e, o);
    } else {
      ExchangedAxes(p, s, e);
      ExchangedAxes(p, s, o);
      SwappedBounds(h, p, -s, o);
      SwappedSupport(h, e, o);
      ConeStep(Extents(h.b, h.a, h.d, h.c), p, -s, SwapFirst(SwapSecond(e)), SwapFirst(SwapSecond(o)));
    }
  }

  lemma FlippedSetting(p: real, s: real, hand: real, e: Coordinates, o: Coordinates)
    requires Setting(p, s, hand, e, o)
    ensures Setting(-p, s, -hand, e.(a1 := -e.a1), o.(a1 := -o.a1))
    ensures Setting(p, -s, -hand, e.(a2 := -e.a2), o.(a2 := -o.a2))
    ensures Setting(-p, -s, -hand, e.(b1 := -e.b1), o.(b1 := -o.b1))
    ensures Setting(p, s, -hand, e.(b2 := -e.b2), o.(b2 := -o.b2))
  {
  }

  lemma FlippedAlong(e: Coordinates, o: Coordinates)
    ensures Along(e.(a1 := -e.a1), o.(a1 := -o.a1)) == Along(e, o)
    ensures Along(e.(a2 := -e.a2), o.(a2 := -o.a2)) == Along(e, o)
    ensures Along(e.(b1 := -e.b1), o.(b1 := -o.b1)) == Along(e, o)
    ensures Along(e.(b2 := -e.b2), o.(b2 := -o.b2)) == Along(e, o)
  {
  }

  lemma BoundedByMagnitude(h: Extents, absP: real, absS: real, o: Coordinates)
    requires Bounded(h, absP, absS, Magnitude(o))
    ensures Bounded(h, absP, absS, o)
  {
  }

  function Negatives(e: Coordinates): nat {
    (if e.a1 < 0.0 then 1 else 0) + (if e.a2 < 0.0 then 1 else 0)
    + (if e.b1 < 0.0 then 1 else 0) + (if e.b2 < 0.0 then 1 else 0)
  }

  /** Any direction: each step flips one axis that the direction opposes; magnitudes and bounds do not change. */
  lemma {:induction false} DirectionBound(
    h: Extents, p: real, s: real, hand: real, e: Coordinates, o: Coordinates)
    requires (hand == 1.0 || hand == -1.0) && Setting(p, s, hand, e, o)
    requires e.a1 != 0.0 || e.a2 != 0.0
    requires Bounded(h, Abs(p), Abs(s), Magnitude(o))
    ensures Along(e, o) < Support(h, Magnitude(e))
    decreases Negatives(e)
  {
    hide Setting, Bounded, Support, Along;
    FlippedSetting(p, s, hand, e, o);
    FlippedAlong(e, o);
    if e.a1 < 0.0 {
      DirectionBound(h, -p, s, -hand, e.(a1 := -e.a1), o.(a1 := -o.a1));
    } else if e.a2 < 0.0 {
      DirectionBound(h, p, -s, -hand, e.(a2 := -e.a2), o.(a2 := -o.a2));
    } else if e.b1 < 0.0 {
      DirectionBound(h, -p, -s, -hand, e.(b1 := -e.b1), o.(b1 := -o.b1));
    } else if e.b2 < 0.0 {
      DirectionBound(h, p, s, -hand, e.(b2 := -e.b2), o.(b2 := -o.b2));
    } else {
      BoundedByMagnitude(h, Abs(p), Abs(s), o);
      if hand == 1.0 {
        RotationStep(h, p, s, e, o);
      } else {
        ReflectedSetting(h, p, s, e, o);
        SwappedSupport(h, e, o);
        RotationStep(Extents(h.a, h.b, h.d, h.c), s, -p, SwapSecond(e), SwapSecond(o));
      }
    }
  }

  // ---- Boxes ----

  /** The second forward axis in the frame of the first, and any vector in both frames. */
  lemma {:induction false} FrameCoordinates(f: Vector2, g: Vector2, v: Vector2)
    requires Unit(f) && Unit(g)
    ensures var p, s := Dot(f, g), Dot(Right(f), g);
      && p * p + s * s == 1.0
      && Dot(f, Right(g)) == -s && Dot(Right(f), Right(g)) == p
      && Dot(v, g) == p * Dot(v, f) + s * Dot(v, Right(f))
      && Dot(v, Right(g)) == p * Dot(v, Right(f)) - s * Dot(v, f)
  {
    DecomposeDot(f, g, g);
    DecomposeDot(f, v, g);
    DecomposeDot(f, v, Right(g));
  }

  function InFrames(v: Vector2, f: Vector2, g: Vector2): Coordinates {
    Coordinates(Dot(v, f), Dot(v, Right(f)), Dot(v, g), Dot(v, Right(g)))
  }

  lemma {:induction false} FrameSetting(f: Vector2, g: Vector2, e: Vector2, delta: Vector2)
    requires Unit(f) && Unit(g)
    ensures Setting(Dot(f, g), Dot(Right(f), g), 1.0, InFrames(e, f, g), InFrames(delta, f, g))
    ensures Along(InFrames(e, f, g), InFrames(delta, f, g)) == Dot(delta, e)
  {
    hide Dot, Right;
    FrameCoordinates(f, g, e);
    FrameCoordinates(f, g, delta);
    DecomposeDot(f, delta, e);
  }

  lemma OwnAxes(f: Vector2)
    requires Unit(f)
    ensures Dot(f, Right(f)) == 0.0 && Dot(Right(f), f) == 0.0 && Dot(Right(f), Right(f)) == 1.0
  {
  }

  function BoxSum(body: ObbPrism, obstacle: ObbPrism): Extents {
    Extents(body.halfLength, body.halfWidth, obstacle.halfLength, obstacle.halfWidth)
  }

  ghost predicate OverlapOnEdgeAxes(body: ObbPrism, obstacle: ObbPrism) {
    forall k :: 0 <= k < 4 ==> AxisOverlap(body, obstacle, CandidateAxis(body, obstacle, k)) > 0.0
  }

  lemma {:induction false} OwnRadius(shape: ObbPrism)
    requires ValidShape(shape)
    ensures ProjectedRadius(shape, shape.forward) == shape.halfLength
    ensures ProjectedRadius(shape, Right(shape.forward)) == shape.halfWidth
  {
    OwnAxes(shape.forward);
  }

  lemma TurnedRadii(f: Vector2, g: Vector2, own: real, x: real, y: real)
    requires Dot(g, Right(f)) == -Dot(Right(g), f) && Dot(Right(g), Right(f)) == Dot(g, f)
    ensures own + (x * Abs(Dot(g, f)) + y * Abs(Dot(g, Right(f))))
         == EdgeSupport(own, x, y, Abs(Dot(g, f)), Abs(Dot(Right(g), f)))
    ensures own + (x * Abs(Dot(Right(g), f)) + y * Abs(Dot(Right(g), Right(f))))
         == EdgeSupport(own, x, y, Abs(Dot(Right(g), f)), Abs(Dot(g, f)))
  {
    hide Dot, Right;
  }

  /** A box's radii along the other box's two axes, from the turn (p, s) between their frames. */
  lemma {:induction false} OtherRadius(shape: ObbPrism, g: Vector2, own: real)
    requires ValidShape(shape) && Unit(g)
    ensures var p, s := Abs(Dot(g, shape.forward)), Abs(Dot(Right(g), shape.forward));
      && own + ProjectedRadius(shape, g) == EdgeSupport(own, shape.halfLength, shape.halfWidth, p, s)
      && own + ProjectedRadius(shape, Right(g)) == EdgeSupport(own, shape.halfLength, shape.halfWidth, s, p)
  {
    hide Dot, Right, EdgeSupport, Abs;
    FrameCoordinates(g, shape.forward, g);
    TurnedRadii(shape.forward, g, own, shape.halfLength, shape.halfWidth);
  }

  /** Four positive edge overlaps keep the offset below the support of the box sum along the four edge axes. */
  lemma {:induction false} EdgeOverlapsBound(body: ObbPrism, obstacle: ObbPrism)
    requires ValidShape(body) && ValidShape(obstacle) && OverlapOnEdgeAxes(body, obstacle)
    ensures var f, g := body.forward, obstacle.forward;
      Bounded(BoxSum(body, obstacle), Abs(Dot(f, g)), Abs(Dot(Right(f), g)),
        Magnitude(InFrames(Subtract(body.center, obstacle.center), f, g)))
  {
    hide Dot, Subtract, Right, Abs, ProjectedRadius, EdgeSupport;
    var f, g := body.forward, obstacle.forward;
    OwnRadius(body);
    OwnRadius(obstacle);
    OtherRadius(obstacle, f, body.halfLength);
    OtherRadius(obstacle, f, body.halfWidth);
    OtherRadius(body, g, obstacle.halfLength);
    OtherRadius(body, g, obstacle.halfWidth);
    TurnMagnitudes(f, g);
    assert CandidateAxis(body, obstacle, 0) == g && CandidateAxis(body, obstacle, 1) == Right(g);
    assert CandidateAxis(body, obstacle, 2) == f && CandidateAxis(body, obstacle, 3) == Right(f);
    assert AxisOverlap(body, obstacle, f) > 0.0 && AxisOverlap(body, obstacle, Right(f)) > 0.0;
    assert AxisOverlap(body, obstacle, g) > 0.0 && AxisOverlap(body, obstacle, Right(g)) > 0.0;
  }

  lemma TurnMagnitudes(f: Vector2, g: Vector2)
    ensures Abs(Dot(g, f)) == Abs(Dot(f, g)) && Abs(Dot(Right(g), f)) == Abs(Dot(Right(f), g))
  {
  }

  lemma {:induction false} NonZeroCoordinates(f: Vector2, e: Vector2)
    requires Unit(f) && e != ZERO
    ensures Dot(e, f) != 0.0 || Dot(e, Right(f)) != 0.0
  {
    hide Dot, Right;
    NonZeroLength(e);
    DecomposeDot(f, e, e);
  }

  lemma {:induction false} NonZeroLength(e: Vector2)
    requires e != ZERO
    ensures Dot(e, e) > 0.0
  {
    assert e == Vector2(e.east, e.north);
    assert Dot(e, e) == Square(e.east) + Square(e.north);
    hide Dot, Square;
  }

  lemma RadiusIsSupport(body: ObbPrism, obstacle: ObbPrism, e: Vector2)
    ensures Support(BoxSum(body, obstacle), Magnitude(InFrames(e, body.forward, obstacle.forward)))
         == ProjectedRadius(body, e) + ProjectedRadius(obstacle, e)
  {
  }

  lemma {:induction false} BelowSupport(body: ObbPrism, obstacle: ObbPrism, delta: Vector2, e: Vector2)
    requires ValidShape(body) && ValidShape(obstacle) && e != ZERO
    requires var f, g := body.forward, obstacle.forward;
      Bounded(BoxSum(body, obstacle), Abs(Dot(f, g)), Abs(Dot(Right(f), g)), Magnitude(InFrames(delta, f, g)))
    ensures Dot(delta, e) < ProjectedRadius(body, e) + ProjectedRadius(obstacle, e)
  {
    hide Dot, Right, Setting, Bounded, Abs, Support, Along, ProjectedRadius;
    var f, g := body.forward, obstacle.forward;
    NonZeroCoordinates(f, e);
    FrameSetting(f, g, e, delta);
    RadiusIsSupport(body, obstacle, e);
    DirectionBound(BoxSum(body, obstacle), Dot(f, g), Dot(Right(f), g), 1.0, InFrames(e, f, g), InFrames(delta, f, g));
  }

  lemma Negated(delta: Vector2, v: Vector2)
    ensures Dot(Multiply(delta, -1.0), v) == -Dot(delta, v)
  {
  }

  lemma {:induction false} NegatedMagnitude(delta: Vector2, f: Vector2, g: Vector2)
    ensures Magnitude(InFrames(Multiply(delta, -1.0), f, g)) == Magnitude(InFrames(delta, f, g))
  {
    hide Dot, Multiply, Right;
    Negated(delta, f);
    Negated(delta, Right(f));
    Negated(delta, g);
    Negated(delta, Right(g));
  }

  /** Two boxes that overlap on their four edge axes overlap along every direction. */
  lemma {:induction false} SeparatingAxisTheorem(body: ObbPrism, obstacle: ObbPrism, e: Vector2)
    requires ValidShape(body) && ValidShape(obstacle) && e != ZERO
    requires OverlapOnEdgeAxes(body, obstacle)
    ensures AxisOverlap(body, obstacle, e) > 0.0
  {
    hide Dot, ProjectedRadius, OverlapOnEdgeAxes, Bounded, Multiply, Right, InFrames, Magnitude;
    var delta := Subtract(body.center, obstacle.center);
    EdgeOverlapsBound(body, obstacle);
    Negated(delta, e);
    NegatedMagnitude(delta, body.forward, obstacle.forward);
    BelowSupport(body, obstacle, delta, e);
    BelowSupport(body, obstacle, Multiply(delta, -1.0), e);
  }
}
