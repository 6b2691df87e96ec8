/** How bodies and proxies move: every material point by the velocity that the contact solver assigns to it. */
module BodyMotion {
  import opened Planar
  import opened ContactPoints
  import opened ContactSolver
  import opened CollisionWorld

  /** `turned` turns a forward axis clockwise, as headings grow, by the angle of the given sine and cosine. */
  ghost predicate TurnsClockwise(turned: (Vector2, real) -> Vector2, sine: real -> real, cosine: real -> real) {
    forall forward, angle :: turned(forward, angle) == Turned(forward, sine(angle), cosine(angle))
  }

  function Turned(v: Vector2, s: real, c: real): Vector2 {
    Add(Multiply(v, c), Multiply(Right(v), s))
  }

  lemma TurnIs(
    turned: (Vector2, real) -> Vector2, sine: real -> real, cosine: real -> real, forward: Vector2, angle: real)
    requires TurnsClockwise(turned, sine, cosine)
    ensures turned(forward, angle) == Turned(forward, sine(angle), cosine(angle))
  {
  }

  lemma TurnedComponent(a: real, b: real, x: real, y: real, s: real, c: real)
    ensures (a * c + b * s) * x + (b * c + -a * s) * y == (a * x + b * y) * c + (b * x + -a * y) * s
    ensures (b * c + -a * s) * x + -(a * c + b * s) * y == (b * x + -a * y) * c + -(a * x + b * y) * s
  {
  }

  lemma {:induction false} FrameTurns(forward: Vector2, x: real, y: real, s: real, c: real)
    ensures InFrame(Turned(forward, s, c), x, y) == Turned(InFrame(forward, x, y), s, c)
  {
    TurnedComponent(forward.east, forward.north, x, y, s, c);
  }

  lemma ShiftedPoint(center: Vector2, shift: Vector2, offset: Vector2, s: real, c: real)
    ensures Add(Add(center, shift), Turned(offset, s, c))
         == Add(Add(Add(center, offset), shift), Add(Multiply(Right(offset), s), Multiply(offset, c - 1.0)))
  {
  }

  /** A point of the body, fixed by its coordinates from the mass centre. */
  function BodyPoint(body: PlanarRigidBody, x: real, y: real): Vector2 {
    Add(BodyCenterOfMass(body), InFrame(body.shape.forward, x, y))
  }

  /**
   * Over a step a body's point is carried by the linear velocity and turned clockwise about the mass centre by the
   * heading rate times the step, to the side on which the heading grows.
   */
  lemma {:induction false} BodyPointMoves(
    body: PlanarRigidBody, dt: real, turned: (Vector2, real) -> Vector2, sine: real -> real, cosine: real -> real,
    x: real, y: real)
    requires TurnsClockwise(turned, sine, cosine) && KeepsUnit(turned)
    ensures var next, offset := AdvanceBody(body, dt, turned), InFrame(body.shape.forward, x, y);
      var s, c := sine(Times(body.headingRate, dt)), cosine(Times(body.headingRate, dt));
      BodyPoint(next, x, y)
      == Add(Add(BodyPoint(body, x, y), Multiply(body.velocity, dt)),
             Add(Multiply(Right(offset), s), Multiply(offset, c - 1.0)))
  {
    hide BodyCenterOfMass, Add, Multiply, Right, Turned, InFrame, Unit;
    var s, c := sine(Times(body.headingRate, dt)), cosine(Times(body.headingRate, dt));
    AdvanceMovesMassCentre(body, dt, turned);
    TurnIs(turned, sine, cosine, body.shape.forward, Times(body.headingRate, dt));
    FrameTurns(body.shape.forward, x, y, s, c);
    ShiftedPoint(BodyCenterOfMass(body), Multiply(body.velocity, dt), InFrame(body.shape.forward, x, y), s, c);
  }

  /**
   * The velocity that the solver gives a point is that motion's: linear velocity, and the rate times the right turn.
   */
  lemma ContactVelocityIsMotion(body: PlanarRigidBody, offset: Vector2)
    ensures ContactVelocity(body, offset) == Add(body.velocity, Multiply(Right(offset), body.headingRate))
  {
  }

  /** An anchored proxy stays; any other box moves in the same way about its centre, and a capsule without turning. */
  lemma {:induction false} ProxyPointMoves(
    proxy: KinematicCollisionProxy, dt: real, turned: (Vector2, real) -> Vector2, sine: real -> real,
    cosine: real -> real, x: real, y: real)
    requires TurnsClockwise(turned, sine, cosine)
    ensures var next := AdvanceProxy(proxy, dt, turned);
      && next == proxy.(shape := next.shape)
      && (Anchored(proxy) ==> next.shape == proxy.shape)
      && (!Anchored(proxy) && proxy.shape.Capsule? ==>
            next.shape == Capsule(proxy.shape.capsule.(
              center := Add(proxy.shape.capsule.center, Multiply(proxy.velocity, dt)))))
      && (!Anchored(proxy) && proxy.shape.Box? ==>
            && next.shape.Box?
            && next.shape.prism == proxy.shape.prism.(center := next.shape.prism.center, forward :=
              next.shape.prism.forward)
            && var offset := InFrame(proxy.shape.prism.forward, x, y);
               var s, c := sine(Times(proxy.headingRate, dt)), cosine(Times(proxy.headingRate, dt));
               Add(next.shape.prism.center, InFrame(next.shape.prism.forward, x, y))
               == Add(Add(Add(proxy.shape.prism.center, offset), Multiply(proxy.velocity, dt)),
                      Add(Multiply(Right(offset), s), Multiply(offset, c - 1.0))))
  {
    hide Add, Multiply, Right, Turned, InFrame;
    if !Anchored(proxy) && proxy.shape.Box? {
      var s, c := sine(Times(proxy.headingRate, dt)), cosine(Times(proxy.headingRate, dt));
      TurnIs(turned, sine, cosine, proxy.shape.prism.forward, Times(proxy.headingRate, dt));
      FrameTurns(proxy.shape.prism.forward, x, y, s, c);
      ShiftedPoint(proxy.shape.prism.center, Multiply(proxy.velocity, dt), InFrame(proxy.shape.prism.forward, x, y), s,
        c);
    }
  }

  lemma ProxyVelocityIsMotion(proxy: KinematicCollisionProxy, point: Vector2)
    ensures KinematicContactVelocity(proxy, point)
         == Add(proxy.velocity, Multiply(Right(Subtract(point, ProxyCenter(proxy))), proxy.headingRate))
  {
  }

  // ---- The speed bound ----

  lemma ScaledDot(v: Vector2, factor: real)
    ensures Dot(Multiply(v, factor), Multiply(v, factor)) == Times(Times(factor, factor), Dot(v, v))
  {
  }

  lemma {:induction false} RescaledSquare(speed: real, top: real, square: real)
    requires speed > 0.0 && square == Times(speed, speed)
    ensures Times(Times(top / speed, top / speed), square) == Times(top, top)
  {
    ProductOfQuotient(top, speed);
    PairedFactors(top / speed, speed);
    TimesCommutes(speed, top / speed);
    hide Times;
  }

  lemma PairedFactors(x: real, y: real)
    ensures Times(Times(x, x), Times(y, y)) == Times(Times(x, y), Times(x, y))
  {
  }

  /**
   * A finite proxy too fast for its limit ends exactly at the limit, in the same direction; any other is left alone.
   */
  lemma {:induction false} SpeedEndsAtTheLimit(proxy: KinematicCollisionProxy, speed: real)
    requires IsLength(speed, proxy.velocity.east, proxy.velocity.north)
    ensures var next, top := ClampFiniteProxySpeed(proxy, speed), proxy.maximumLinearSpeed;
      && next == proxy.(velocity := next.velocity)
      && (proxy.mass <= 0.0 || top <= 0.0 || speed <= top ==> next == proxy)
      && (proxy.mass > 0.0 && 0.0 < top < speed ==>
            && Dot(next.velocity, next.velocity) == Square(top)
            && exists factor :: factor > 0.0 && next.velocity == Multiply(proxy.velocity, factor))
  {
    var top := proxy.maximumLinearSpeed;
    if proxy.mass > 0.0 && 0.0 < top < speed {
      assert Dot(proxy.velocity, proxy.velocity) == Times(speed, speed);
      ScaledDot(proxy.velocity, top / speed);
      RescaledSquare(speed, top, Dot(proxy.velocity, proxy.velocity));
      PositiveQuotient(top, speed);
      var factor := top / speed;
      assert factor > 0.0 && ClampFiniteProxySpeed(proxy, speed).velocity == Multiply(proxy.velocity, factor);
    }
    hide Times, Dot, Multiply;
  }
}
