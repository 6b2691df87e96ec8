/** Push-out and two-stage impulse response of the Ego body against static and finite-mass obstacles. */
module ContactSolver {
  import opened Planar
  import opened NarrowPhase
  import opened RigidImpulse

  const MAXIMUM_FINITE_PROXY_HEADING_RATE_RAD_S: real := 12.566370614359172
  const BREAKAWAY_TOLERANCE_N_S: real := 0.000000001

  datatype CollisionMaterial = CollisionMaterial(friction: real, restitution: real)

  /** Linear velocity and yaw inertia refer to the mass centre; heading rates are clockwise. */
  datatype PlanarRigidBody = PlanarRigidBody(
    bodyId: string, shape: ObbPrism, velocity: Vector2, headingRate: real,
    mass: real, yawInertia: real, centerOfMassOffset: real)

  datatype ProxyShape = Box(prism: ObbPrism) | Capsule(capsule: VerticalCapsule)

  /** Zero mass is the prescribed-motion obstacle; a positive breakaway impulse anchors a finite box to its base. */
  datatype KinematicCollisionProxy = KinematicCollisionProxy(
    proxyId: string, shape: ProxyShape, velocity: Vector2, headingRate: real, material: CollisionMaterial,
    mass: real, yawInertia: real, maximumLinearSpeed: real, tireSupportCandidate: bool,
    breakawayImpulse: real, breakawayReleased: bool, supportedVehicleId: string)

  ghost predicate ValidMaterial(material: CollisionMaterial) {
    material.friction >= 0.0 && 0.0 <= material.restitution <= 1.0
  }

  ghost predicate ValidBody(body: PlanarRigidBody) {
    ValidShape(body.shape) && body.mass > 0.0 && body.yawInertia > 0.0
  }

  ghost predicate ValidProxyShape(shape: ProxyShape) {
    match shape
    case Box(prism) => ValidShape(prism)
    case Capsule(capsule) => ValidCapsule(capsule)
  }

  ghost predicate ValidProxy(proxy: KinematicCollisionProxy) {
    && ValidProxyShape(proxy.shape) && ValidMaterial(proxy.material)
    && proxy.mass >= 0.0 && proxy.yawInertia >= 0.0 && proxy.maximumLinearSpeed >= 0.0 && proxy.breakawayImpulse >= 0.0
    && (proxy.mass > 0.0 ==> proxy.maximumLinearSpeed > 0.0)
    && (proxy.mass == 0.0 ==> proxy.yawInertia == 0.0 && proxy.breakawayImpulse == 0.0)
    && (proxy.shape.Box? && proxy.mass > 0.0 ==> proxy.yawInertia > 0.0)
    && (proxy.shape.Capsule? ==> proxy.yawInertia == 0.0 && proxy.breakawayImpulse == 0.0)
  }

  /** A finite-mass proxy; a capsule's heading is invariant, so its heading rate is zero. */
  ghost predicate Finite(proxy: KinematicCollisionProxy) {
    ValidProxy(proxy) && proxy.mass > 0.0 && (proxy.shape.Capsule? ==> proxy.headingRate == 0.0)
  }

  function BodyCenterOfMass(body: PlanarRigidBody): Vector2 {
    Add(body.shape.center, Multiply(body.shape.forward, body.centerOfMassOffset))
  }

  function ContactVelocity(body: PlanarRigidBody, offset: Vector2): Vector2 {
    VelocityAt(body.velocity, -body.headingRate, offset)
  }

  function ProxyCenter(proxy: KinematicCollisionProxy): Vector2 {
    match proxy.shape
    case Box(prism) => prism.center
    case Capsule(capsule) => capsule.center
  }

  function KinematicContactVelocity(proxy: KinematicCollisionProxy, point: Vector2): Vector2 {
    VelocityAt(proxy.velocity, -proxy.headingRate, Subtract(point, ProxyCenter(proxy)))
  }

  function ShapeMovedBy(shape: ProxyShape, translation: Vector2): ProxyShape {
    match shape
    case Box(prism) => Box(MovedBy(prism, translation))
    case Capsule(capsule) => Capsule(capsule.(center := Add(capsule.center, translation)))
  }

  function ProxyInverseYawInertia(proxy: KinematicCollisionProxy): real {
    if proxy.shape.Box? && proxy.yawInertia > 0.0 then 1.0 / proxy.yawInertia else 0.0
  }

  function Anchored(proxy: KinematicCollisionProxy): bool {
    proxy.breakawayImpulse > 0.0 && !proxy.breakawayReleased
  }

  function Tangent(normal: Vector2): Vector2 {
    Vector2(-normal.north, normal.east)
  }

  lemma TangentIsUnit(normal: Vector2)
    requires Unit(normal)
    ensures Unit(Tangent(normal))
  {
  }

  // ---- Bodies and proxies as rigid states ----

  function BodyRigid(body: PlanarRigidBody): Rigid
    requires body.mass > 0.0 && body.yawInertia > 0.0
  {
    Rigid(body.velocity, -body.headingRate, body.mass, body.yawInertia, 1.0 / body.mass, 1.0 / body.yawInertia)
  }

  function ProxyRigid(proxy: KinematicCollisionProxy): Rigid
    requires proxy.mass > 0.0
  {
    Rigid(proxy.velocity, -proxy.headingRate, proxy.mass,
      if proxy.shape.Box? then proxy.yawInertia else 0.0, 1.0 / proxy.mass, ProxyInverseYawInertia(proxy))
  }

  /** A static obstacle, or the prescribed motion of its contact point. */
  function Immovable(velocity: Vector2): Rigid {
    Rigid(velocity, 0.0, 0.0, 0.0, 0.0, 0.0)
  }

  lemma {:induction false} RigidsAreValid(body: PlanarRigidBody, proxy: KinematicCollisionProxy)
    ensures ValidBody(body) ==> ValidRigid(BodyRigid(body)) && Times(body.mass, 1.0 / body.mass) == 1.0
    ensures Finite(proxy) ==> ValidRigid(ProxyRigid(proxy)) && Times(proxy.mass, 1.0 / proxy.mass) == 1.0
    ensures ValidRigid(Immovable(ZERO))
  {
    if ValidBody(body) {
      QuotientTimes(1.0, body.mass);
      QuotientTimes(1.0, body.yawInertia);
      TimesCommutes(1.0 / body.mass, body.mass);
      TimesCommutes(1.0 / body.yawInertia, body.yawInertia);
    }
    if Finite(proxy) {
      QuotientTimes(1.0, proxy.mass);
      TimesCommutes(1.0 / proxy.mass, proxy.mass);
      if proxy.shape.Box? {
        QuotientTimes(1.0, proxy.yawInertia);
        TimesCommutes(1.0 / proxy.yawInertia, proxy.yawInertia);
      }
    }
    hide Times;
  }

  // ---- The law of one contact ----

  /** The finite obstacle's spin is bounded after every impulse it receives; a capsule or immovable one has none. */
  function SpinBounded(r: Rigid): Rigid {
    if r.inverseInertia > 0.0
    then r.(spin := Clamp(r.spin, -MAXIMUM_FINITE_PROXY_HEADING_RATE_RAD_S, MAXIMUM_FINITE_PROXY_HEADING_RATE_RAD_S))
    else r
  }

  function SecondBounded(pair: Pair): Pair {
    pair.(second := SpinBounded(pair.second))
  }

  /**
   * A separating pair is left alone. A closing pair receives a normal impulse that reverses the approach scaled by
   * the restitution, then a tangential impulse in the Coulomb cone that stops the sliding or opposes it at the limit.
   */
  ghost predicate ContactLaw(
    before: Pair, material: CollisionMaterial, normal: Vector2, normalImpulse: real, tangentImpulse: real, after: Pair)
  {
    var approach, limit := Approach(before, normal), Times(material.friction, normalImpulse);
    var bounced := PairImpelled(before, normal, normalImpulse);
    var rubbed := PairImpelled(SecondBounded(bounced), Tangent(normal), tangentImpulse);
    var sliding := Approach(rubbed, Tangent(normal));
    if approach >= 0.0 then normalImpulse == 0.0 && tangentImpulse == 0.0 && after == before
    else
      && normalImpulse > 0.0 && Approach(bounced, normal) == -Times(material.restitution, approach)
      && Abs(tangentImpulse) <= limit
      && (sliding == 0.0 || (tangentImpulse == limit && sliding < 0.0) || (tangentImpulse == -limit && sliding > 0.0))
      && after == SecondBounded(rubbed)
  }

  lemma {:induction false} ImpelledStaysValid(r: Rigid, offset: Vector2, direction: Vector2, j: real)
    requires ValidRigid(r)
    ensures ValidRigid(Impelled(r, offset, direction, j)) && ValidRigid(SpinBounded(r))
    ensures KineticEnergy(SpinBounded(r)) <= KineticEnergy(r)
  {
    hide Times, Cross, KineticEnergy, Add, Multiply;
    NoResponse(direction, j, Cross(offset, direction));
    BoundedSpin(r, MAXIMUM_FINITE_PROXY_HEADING_RATE_RAD_S);
  }

  lemma {:induction false} NoResponse(direction: Vector2, j: real, arm: real)
    ensures Add(ZERO, Multiply(direction, Times(j, 0.0))) == ZERO && Times(arm, Times(j, 0.0)) == 0.0
  {
    hide Times, Multiply, Add;
    TimesZero(j);
    TimesZero(arm);
    ZeroMultiple(direction);
  }

  lemma ZeroMultiple(v: Vector2)
    ensures Multiply(v, 0.0) == ZERO && Add(ZERO, ZERO) == ZERO
  {
  }

  lemma {:induction false} BouncedIsDissipative(approach: real, j: real, mobility: real, restitution: real)
    requires approach < 0.0 && j >= 0.0 && 0.0 <= restitution <= 1.0
    requires approach + Times(j, mobility) == -Times(restitution, approach)
    ensures Dissipative(j, approach, mobility)
  {
    TimesOrder(-approach, restitution, 1.0);
    TimesOne(-approach);
    TimesCommutes(-approach, restitution);
    NegatedTimes(approach, restitution);
    TimesCommutes(approach, restitution);
    hide Times;
  }

  lemma {:induction false} RubbedIsDissipative(sliding: real, j: real, mobility: real, limit: real)
    requires mobility > 0.0 && Abs(j) <= limit
    requires var after := sliding + Times(j, mobility);
      after == 0.0 || (j == limit && after < 0.0) || (j == -limit && after > 0.0)
    ensures Dissipative(j, sliding, mobility)
  {
    TimesPositive(mobility, j);
    TimesCommutes(mobility, j);
    hide Times;
  }

  /** Every contact that obeys the law leaves the pair with at most the kinetic energy it had. */
  lemma {:induction false} ContactLosesEnergy(
    before: Pair, material: CollisionMaterial, normal: Vector2, normalImpulse: real, tangentImpulse: real, after: Pair)
    requires ValidPair(before) && Times(before.first.mass, before.first.inverseMass) == 1.0
    requires ValidMaterial(material) && Unit(normal)
    requires ContactLaw(before, material, normal, normalImpulse, tangentImpulse, after)
    ensures PairEnergy(after) <= PairEnergy(before) && ValidPair(after)
  {
    hide Times, Dot, Cross, Along, Mobility, Impelled, KineticEnergy, SpinBounded, Unit, Tangent,
      Dissipative, Approach, PairMobility;
    if Approach(before, normal) < 0.0 {
      var tangent := Tangent(normal);
      var bounced := PairImpelled(before, normal, normalImpulse);
      var middle := SecondBounded(bounced);
      var rubbed := PairImpelled(middle, tangent, tangentImpulse);
      TangentIsUnit(normal);
      PairImpulseChangesApproach(before, normal, normalImpulse);
      BouncedIsDissipative(Approach(before, normal), normalImpulse, PairMobility(before, normal), material.restitution);
      DissipativeImpulse(before, normal, normalImpulse);
      ImpelledStaysValid(before.first, before.firstOffset, normal, normalImpulse);
      ImpelledStaysValid(before.second, before.secondOffset, normal, -normalImpulse);
      ImpelledStaysValid(bounced.second, before.secondOffset, normal, 0.0);
      ImpelledKeepsMass(before.first, before.firstOffset, normal, normalImpulse);
      PositiveInverse(middle.first);
      MobilityPositive(middle, tangent);
      PairImpulseChangesApproach(middle, tangent, tangentImpulse);
      RubbedIsDissipative(Approach(middle, tangent), tangentImpulse, PairMobility(middle, tangent),
        Times(material.friction, normalImpulse));
      DissipativeImpulse(middle, tangent, tangentImpulse);
      ImpelledStaysValid(middle.first, middle.firstOffset, tangent, tangentImpulse);
      ImpelledStaysValid(middle.second, middle.secondOffset, tangent, -tangentImpulse);
      ImpelledStaysValid(rubbed.second, middle.secondOffset, tangent, 0.0);
    }
  }

  lemma {:induction false} PositiveInverse(r: Rigid)
    requires Times(r.mass, r.inverseMass) == 1.0 && ValidRigid(r)
    ensures r.inverseMass > 0.0 && r.inverseInertia >= 0.0
  {
    TimesZero(r.mass);
    hide Times;
  }

  lemma ImpelledKeepsMass(r: Rigid, offset: Vector2, direction: Vector2, j: real)
    ensures Impelled(r, offset, direction, j).mass == r.mass
    ensures Impelled(r, offset, direction, j).inverseMass == r.inverseMass
  {
  }

  // ---- resolve_contact ----

  function PushOutOf(manifold: CollisionManifold): Vector2 {
    Multiply(manifold.normal, manifold.penetration + SEPARATION_SLOP_M)
  }

  /** The Ego body and an obstacle whose contact point moves with `obstacleVelocity`, touching at the contact point. */
  function StaticPair(body: PlanarRigidBody, obstacleVelocity: Vector2, contactPoint: Vector2): Pair
    requires body.mass > 0.0 && body.yawInertia > 0.0
  {
    Pair(BodyRigid(body), Immovable(obstacleVelocity), Subtract(contactPoint, BodyCenterOfMass(body)), ZERO)
  }

  /** Velocity gained at the contact point per unit impulse along `axis`, from the body's own response. */
  function InverseEffectiveMass(body: PlanarRigidBody, offset: Vector2, axis: Vector2): real
    requires body.mass > 0.0 && body.yawInertia > 0.0
  {
    1.0 / body.mass + Cross(offset, axis) * Cross(offset, axis) / body.yawInertia
  }

  /** The body after impulse `j` along `direction`; heading rates turn clockwise, spin counter-clockwise. */
  function ImpelledBody(body: PlanarRigidBody, offset: Vector2, direction: Vector2, j: real): PlanarRigidBody
    requires body.mass > 0.0 && body.yawInertia > 0.0
  {
    body.(
      velocity := Add(body.velocity, Multiply(direction, j * (1.0 / body.mass))),
      headingRate := -(-body.headingRate + Cross(offset, direction) * j / body.yawInertia))
  }

  function RestitutionOf(material: CollisionMaterial, normalVelocity: real, denominator: real): real
    requires denominator != 0.0
  {
    Restitution(normalVelocity, denominator, material.restitution)
  }

  lemma {:induction false} StaticApproach(
    body: PlanarRigidBody, obstacleVelocity: Vector2, contactPoint: Vector2, axis: Vector2)
    requires ValidBody(body)
    ensures var offset := Subtract(contactPoint, BodyCenterOfMass(body));
      var pair := StaticPair(body, obstacleVelocity, contactPoint);
      && Dot(Subtract(ContactVelocity(body, offset), obstacleVelocity), axis) == Approach(pair, axis)
      && InverseEffectiveMass(body, offset, axis) == PairMobility(pair, axis)
  {
    var offset := Subtract(contactPoint, BodyCenterOfMass(body));
    var pair := StaticPair(body, obstacleVelocity, contactPoint);
    assert PointVelocity(pair.first, offset) == ContactVelocity(body, offset);
    StaticPointVelocity(obstacleVelocity);
    DotOfDifference(ContactVelocity(body, offset), obstacleVelocity, axis);
    QuotientIsTimes(Cross(offset, axis) * Cross(offset, axis), body.yawInertia);
    assert Times(Cross(ZERO, axis), Cross(ZERO, axis)) == 0.0;
    hide Dot, Cross, Subtract;
  }

  lemma StaticPointVelocity(velocity: Vector2)
    ensures PointVelocity(Immovable(velocity), ZERO) == velocity
  {
  }

  lemma QuotientIsTimes(x: real, y: real)
    requires y > 0.0
    ensures x / y == Times(x, 1.0 / y)
  {
  }

  /** The solver's update of velocity and heading rate is the impulse response of the rigid state. */
  lemma {:induction false} ImpelledBodyIsRigid(body: PlanarRigidBody, offset: Vector2, direction: Vector2, j: real)
    requires ValidBody(body)
    ensures BodyRigid(ImpelledBody(body, offset, direction, j)) == Impelled(BodyRigid(body), offset, direction, j)
  {
    QuotientIsTimes(Cross(offset, direction) * j, body.yawInertia);
    assert Times(Cross(offset, direction) * j, 1.0 / body.yawInertia)
        == Times(Cross(offset, direction), Times(j, 1.0 / body.yawInertia));
    assert j * (1.0 / body.mass) == Times(j, 1.0 / body.mass);
    hide Cross, Multiply, Add, Times;
  }

  lemma {:induction false} ImmovableImpelled(velocity: Vector2, direction: Vector2, j: real)
    ensures SpinBounded(Impelled(Immovable(velocity), ZERO, direction, j)) == Immovable(velocity)
    ensures Impelled(Immovable(velocity), ZERO, direction, j) == Immovable(velocity)
  {
    TimesZero(j);
    TimesZero(Cross(ZERO, direction));
    ZeroMultiple(direction);
    hide Cross, Multiply, Times;
  }

  ghost predicate Movable(pair: Pair) {
    && pair.first.inverseMass > 0.0 && pair.first.inverseInertia >= 0.0
    && pair.second.inverseMass >= 0.0 && pair.second.inverseInertia >= 0.0
  }

  /** The solver's two impulses, each computed from the current relative velocity, obey the contact law. */
  lemma {:induction false} StagesObeyLaw(
    before: Pair, middle: Pair, after: Pair, material: CollisionMaterial, normal: Vector2,
    normalImpulse: real, tangentImpulse: real)
    requires Movable(before) && ValidMaterial(material) && Unit(normal) && Approach(before, normal) < 0.0
    requires PairMobility(before, normal) > 0.0
    requires normalImpulse == RestitutionOf(material, Approach(before, normal), PairMobility(before, normal))
    requires middle == SecondBounded(PairImpelled(before, normal, normalImpulse))
    requires PairMobility(middle, Tangent(normal)) > 0.0
    requires Times(material.friction, normalImpulse) >= 0.0
    requires tangentImpulse == Clamp(-Approach(middle, Tangent(normal)) / PairMobility(middle, Tangent(normal)),
                                     -Times(material.friction, normalImpulse), Times(material.friction, normalImpulse))
    requires after == SecondBounded(PairImpelled(middle, Tangent(normal), tangentImpulse))
    ensures ContactLaw(before, material, normal, normalImpulse, tangentImpulse, after)
  {
    TangentIsUnit(normal);
    RestitutionImpulse(Approach(before, normal), PairMobility(before, normal), material.restitution);
    PairImpulseChangesApproach(before, normal, normalImpulse);
    FrictionImpulse(Approach(middle, Tangent(normal)), PairMobility(middle, Tangent(normal)),
      Times(material.friction, normalImpulse));
    PairImpulseChangesApproach(middle, Tangent(normal), tangentImpulse);
    hide Times, Approach, PairMobility, PairImpelled, SecondBounded, Dissipative, Unit, Tangent;
  }

  ghost predicate OnlyMoved(body: PlanarRigidBody, next: PlanarRigidBody) {
    next == body.(shape := next.shape, velocity := next.velocity, headingRate := next.headingRate)
  }

  lemma {:induction false} StaticPairFacts(
    body: PlanarRigidBody, obstacleVelocity: Vector2, contactPoint: Vector2, direction: Vector2)
    requires ValidBody(body)
    ensures var pair := StaticPair(body, obstacleVelocity, contactPoint);
      && Movable(pair) && PairMobility(pair, direction) > 0.0
      && Times(pair.first.mass, pair.first.inverseMass) == 1.0
      && (obstacleVelocity == ZERO ==> ValidPair(pair))
  {
    var pair := StaticPair(body, obstacleVelocity, contactPoint);
    QuotientTimes(1.0, body.mass);
    QuotientTimes(1.0, body.yawInertia);
    TimesCommutes(1.0 / body.mass, body.mass);
    TimesCommutes(1.0 / body.yawInertia, body.yawInertia);
    MobilityPositive(pair, direction);
    hide Times, PairMobility;
  }

  /** An Ego impulse is a pair impulse on the Ego and the immovable obstacle. */
  lemma {:induction false} StaticPairImpelled(
    body: PlanarRigidBody, obstacleVelocity: Vector2, contactPoint: Vector2, direction: Vector2, j: real)
    requires ValidBody(body)
    ensures var offset := Subtract(contactPoint, BodyCenterOfMass(body));
      var before, after := StaticPair(body, obstacleVelocity, contactPoint), ImpelledBody(body, offset, direction, j);
      && ValidBody(after) && StaticPair(after, obstacleVelocity, contactPoint)
        == SecondBounded(PairImpelled(before, direction, j))
      && Subtract(contactPoint, BodyCenterOfMass(after)) == offset
      && OnlyMoved(body, after) && after.shape == body.shape
  {
    hide Impelled, SpinBounded, Immovable, BodyRigid, Add, Multiply, Cross;
    ImpelledBodyIsRigid(body, Subtract(contactPoint, BodyCenterOfMass(body)), direction, j);
    ImmovableImpelled(obstacleVelocity, direction, -j);
  }

  lemma PushedBody(body: PlanarRigidBody, shift: Vector2)
    requires ValidBody(body)
    ensures var pushed := body.(shape := MovedBy(body.shape, shift));
      ValidBody(pushed) && OnlyMoved(body, pushed) && BodyRigid(pushed) == BodyRigid(body)
  {
  }

  lemma {:induction false} NoContactImpulse(before: Pair, material: CollisionMaterial, normal: Vector2)
    requires Approach(before, normal) >= 0.0
    ensures ContactLaw(before, material, normal, 0.0, 0.0, before)
  {
    hide Approach;
  }

  lemma {:induction false} NormalImpulsePushes(material: CollisionMaterial, normalVelocity: real, denominator: real)
    requires ValidMaterial(material) && normalVelocity < 0.0 && denominator > 0.0
    ensures var j := RestitutionOf(material, normalVelocity, denominator); j > 0.0 && Times(material.friction, j) >= 0.0
  {
    RestitutionImpulse(normalVelocity, denominator, material.restitution);
    TimesPositive(material.friction, RestitutionOf(material, normalVelocity, denominator));
    hide Times, Dissipative;
  }

  method ResolveContact(
    body: PlanarRigidBody, material: CollisionMaterial, obstacleVelocity: Vector2, manifold: CollisionManifold)
    returns (next: PlanarRigidBody, normalImpulse: real, ghost tangentImpulse: real)
    requires ValidBody(body) && ValidMaterial(material) && Unit(manifold.normal)
    ensures OnlyMoved(body, next) && next.shape == MovedBy(body.shape, PushOutOf(manifold)) && ValidBody(next)
    ensures ContactLaw(
      StaticPair(body.(shape := next.shape), obstacleVelocity, manifold.contactPoint), material, manifold.normal,
      normalImpulse, tangentImpulse, StaticPair(next, obstacleVelocity, manifold.contactPoint))
    ensures normalImpulse >= 0.0
  {
    hide Times, Dot, Cross, Add, Multiply, Subtract, Approach, PairMobility, PairImpelled, SecondBounded, Unit, Tangent,
      BodyCenterOfMass, ContactVelocity, InverseEffectiveMass, ImpelledBody, RestitutionOf, StaticPair, ContactLaw,
      Clamp;
    next := body.(shape := MovedBy(body.shape, PushOutOf(manifold)));
    normalImpulse, tangentImpulse := 0.0, 0.0;
    PushedBody(body, PushOutOf(manifold));
    ghost var pushed := next;
    var contactOffset := Subtract(manifold.contactPoint, BodyCenterOfMass(next));
    var normalVelocity := Dot(Subtract(ContactVelocity(next, contactOffset), obstacleVelocity), manifold.normal);
    StaticApproach(pushed, obstacleVelocity, manifold.contactPoint, manifold.normal);
    StaticPairFacts(pushed, obstacleVelocity, manifold.contactPoint, manifold.normal);
    if normalVelocity >= 0.0 {
      NoContactImpulse(StaticPair(pushed, obstacleVelocity, manifold.contactPoint), material, manifold.normal);
      return;
    }
    var normalDenominator := InverseEffectiveMass(next, contactOffset, manifold.normal);
    normalImpulse := RestitutionOf(material, normalVelocity, normalDenominator);
    next := ImpelledBody(next, contactOffset, manifold.normal, normalImpulse);
    ghost var bounced := next;
    StaticPairImpelled(pushed, obstacleVelocity, manifold.contactPoint, manifold.normal, normalImpulse);

    var tangent := Tangent(manifold.normal);
    var tangentVelocity := Dot(Subtract(ContactVelocity(next, contactOffset), obstacleVelocity), tangent);
    StaticApproach(bounced, obstacleVelocity, manifold.contactPoint, tangent);
    StaticPairFacts(bounced, obstacleVelocity, manifold.contactPoint, tangent);
    var unconstrained := -tangentVelocity / InverseEffectiveMass(next, contactOffset, tangent);
    var maximumTangentImpulse := Times(material.friction, normalImpulse);
    NormalImpulsePushes(material, normalVelocity, normalDenominator);
    var friction := Clamp(unconstrained, -maximumTangentImpulse, maximumTangentImpulse);
    next := ImpelledBody(next, contactOffset, tangent, friction);
    tangentImpulse := friction;
    StaticPairImpelled(bounced, obstacleVelocity, manifold.contactPoint, tangent, friction);
    StagesObeyLaw(
      StaticPair(pushed, obstacleVelocity, manifold.contactPoint),
      StaticPair(bounced, obstacleVelocity, manifold.contactPoint),
      StaticPair(next, obstacleVelocity, manifold.contactPoint),
      material, manifold.normal, normalImpulse, friction);
  }

  /** A static contact never adds kinetic energy to the Ego, and reports the momentum the Ego gains along the normal. */
  lemma {:induction false} StaticContactEnergy(
    body: PlanarRigidBody, next: PlanarRigidBody, contactPoint: Vector2, material: CollisionMaterial, normal: Vector2,
    normalImpulse: real, tangentImpulse: real)
    requires ValidBody(body) && ValidBody(next) && ValidMaterial(material) && Unit(normal)
    requires ContactLaw(StaticPair(body.(shape := next.shape), ZERO, contactPoint), material, normal,
               normalImpulse, tangentImpulse, StaticPair(next, ZERO, contactPoint))
    ensures KineticEnergy(BodyRigid(next)) <= KineticEnergy(BodyRigid(body))
    ensures NormalMomentum(body.mass, next.velocity, normal)
      == NormalMomentum(body.mass, body.velocity, normal) + normalImpulse
  {
    hide NormalMomentum, ContactLaw, Unit, KineticEnergy, BodyCenterOfMass, Subtract, Movable, PairMobility;
    var pushed := body.(shape := next.shape);
    StaticPairFacts(pushed, ZERO, contactPoint, normal);
    ContactLosesEnergy(StaticPair(pushed, ZERO, contactPoint), material, normal, normalImpulse, tangentImpulse,
      StaticPair(next, ZERO, contactPoint));
    ReportedImpulse(StaticPair(pushed, ZERO, contactPoint), material, normal, normalImpulse, tangentImpulse,
      StaticPair(next, ZERO, contactPoint));
    ImmovableEnergy();
  }

  lemma ImmovableEnergy()
    ensures KineticEnergy(Immovable(ZERO)) == 0.0
  {
  }

  // ---- apply_proxy_impulse, clamp_finite_proxy_speed ----

  function ApplyProxyImpulse(
    proxy: KinematicCollisionProxy, impulse: Vector2, offset: Vector2): KinematicCollisionProxy {
    if proxy.mass <= 0.0 then proxy
    else
      var pushed := proxy.(velocity := Add(proxy.velocity, Multiply(impulse, 1.0 / proxy.mass)));
      var inverseYawInertia := ProxyInverseYawInertia(proxy);
      if inverseYawInertia > 0.0 then
        var spin := -proxy.headingRate + Cross(offset, impulse) * inverseYawInertia;
        pushed.(headingRate := Clamp(
          -spin, -MAXIMUM_FINITE_PROXY_HEADING_RATE_RAD_S, MAXIMUM_FINITE_PROXY_HEADING_RATE_RAD_S))
      else pushed
  }

  function ClampFiniteProxySpeed(proxy: KinematicCollisionProxy, speed: real): KinematicCollisionProxy {
    if proxy.mass <= 0.0 || proxy.maximumLinearSpeed <= 0.0 then proxy
    else if speed > proxy.maximumLinearSpeed
    then proxy.(velocity := Multiply(proxy.velocity, proxy.maximumLinearSpeed / speed))
    else proxy
  }

  ghost predicate OnlyDriven(proxy: KinematicCollisionProxy, next: KinematicCollisionProxy) {
    next == proxy.(shape := next.shape, velocity := next.velocity, headingRate := next.headingRate)
  }

  lemma VectorImpulse(direction: Vector2, j: real, factor: real, offset: Vector2)
    ensures var impulse := Multiply(Multiply(direction, j), -1.0);
      && Multiply(impulse, factor) == Multiply(direction, Times(-j, factor))
      && Cross(offset, impulse) * factor == Times(Cross(offset, direction), Times(-j, factor))
  {
  }

  /** A proxy impulse is the bounded impulse response of its rigid state. */
  lemma {:induction false} ProxyImpulseIsRigid(
    proxy: KinematicCollisionProxy, offset: Vector2, direction: Vector2, j: real)
    requires ValidProxy(proxy) && proxy.mass > 0.0
    ensures var next := ApplyProxyImpulse(proxy, Multiply(Multiply(direction, j), -1.0), offset);
      && ProxyRigid(next) == SpinBounded(Impelled(ProxyRigid(proxy), offset, direction, -j))
      && OnlyDriven(proxy, next) && next.shape == proxy.shape
      && (proxy.shape.Capsule? ==> next.headingRate == proxy.headingRate)
  {
    VectorImpulse(direction, j, 1.0 / proxy.mass, offset);
    VectorImpulse(direction, j, ProxyInverseYawInertia(proxy), offset);
    TimesZero(-j);
    TimesZero(Cross(offset, direction));
    if proxy.shape.Box? {
      QuotientTimes(1.0, proxy.yawInertia);
    }
    hide Times, Cross, Multiply, Add;
  }

  /** The speed bound only ever removes energy. */
  lemma {:induction false} SpeedClampEnergy(proxy: KinematicCollisionProxy, speed: real)
    requires ValidProxy(proxy) && proxy.mass > 0.0
    ensures var next := ClampFiniteProxySpeed(proxy, speed);
      && KineticEnergy(ProxyRigid(next)) <= KineticEnergy(ProxyRigid(proxy))
      && OnlyDriven(proxy, next) && next.shape == proxy.shape && next.headingRate == proxy.headingRate
  {
    hide KineticEnergy, Multiply;
    if speed > proxy.maximumLinearSpeed {
      BoundedSpeed(ProxyRigid(proxy), speed, proxy.maximumLinearSpeed);
    }
  }

  // ---- Pushing a finite pair apart ----

  function Share(separation: real, inverse: real, sum: real): real
    requires sum != 0.0
  {
    separation * inverse / sum
  }

  /** The body's share of the separation, and minus the proxy's, in proportion to the inverse masses. */
  function PairShifts(bodyMass: real, proxyMass: real, manifold: CollisionManifold): (shifts: (Vector2, Vector2))
    requires bodyMass > 0.0 && proxyMass > 0.0
  {
    QuotientTimes(1.0, bodyMass);
    QuotientTimes(1.0, proxyMass);
    var bodyInverse, proxyInverse := 1.0 / bodyMass, 1.0 / proxyMass;
    var separation := manifold.penetration + SEPARATION_SLOP_M;
    (Multiply(manifold.normal, Share(separation, bodyInverse, bodyInverse + proxyInverse)),
     Multiply(manifold.normal, Share(-separation, proxyInverse, bodyInverse + proxyInverse)))
  }

  lemma {:induction false} ShareTimesSum(separation: real, inverse: real, sum: real)
    requires sum > 0.0
    ensures Times(sum, Share(separation, inverse, sum)) == Times(separation, inverse)
  {
    QuotientTimes(separation * inverse, sum);
    TimesCommutes(Share(separation, inverse, sum), sum);
  }

  lemma {:induction false} SplitByInverseMass(separation: real, bodyInverse: real, proxyInverse: real)
    requires bodyInverse > 0.0 && proxyInverse > 0.0
    ensures var sum := bodyInverse + proxyInverse;
      Share(separation, bodyInverse, sum) - Share(-separation, proxyInverse, sum) == separation
  {
    hide Times, Share;
    var sum := bodyInverse + proxyInverse;
    var first, second := Share(separation, bodyInverse, sum), Share(-separation, proxyInverse, sum);
    ShareTimesSum(separation, bodyInverse, sum);
    ShareTimesSum(-separation, proxyInverse, sum);
    TimesDistributes(sum, first, second);
    TimesDistributes(separation, bodyInverse, proxyInverse);
    TimesCommutes(separation, sum);
    NegatedTimes(separation, proxyInverse);
    TimesCancels(sum, first - second, separation);
  }

  lemma {:induction false} MassTimesShare(separation: real, mass: real, inverse: real, sum: real)
    requires Times(mass, inverse) == 1.0 && sum > 0.0
    ensures Times(sum, Times(mass, Share(separation, inverse, sum))) == separation
  {
    ShareTimesSum(separation, inverse, sum);
    TimesRotate(sum, mass, Share(separation, inverse, sum));
    TimesRotate(mass, separation, inverse);
    hide Times, Share;
    TimesOne(separation);
  }

  lemma TimesRotate(x: real, y: real, z: real)
    ensures Times(x, Times(y, z)) == Times(y, Times(x, z))
  {
  }

  lemma {:induction false} BalancedByMass(
    separation: real, mass1: real, inverse1: real, mass2: real, inverse2: real, sum: real)
    requires Times(mass1, inverse1) == 1.0 && Times(mass2, inverse2) == 1.0 && sum > 0.0
    ensures Times(mass1, Share(separation, inverse1, sum)) + Times(mass2, Share(-separation, inverse2, sum)) == 0.0
  {
    hide Times, Share;
    var first, second :=
      Times(mass1, Share(separation, inverse1, sum)), Times(mass2, Share(-separation, inverse2, sum));
    MassTimesShare(separation, mass1, inverse1, sum);
    MassTimesShare(-separation, mass2, inverse2, sum);
    TimesDistributes(sum, first, second);
    TimesZero(sum);
    TimesCancels(sum, first + second, 0.0);
  }

  lemma CombinedMultiples(v: Vector2, x: real, y: real, m: real, n: real)
    ensures Subtract(Multiply(v, x), Multiply(v, y)) == Multiply(v, x - y)
    ensures Add(Multiply(Multiply(v, x), m), Multiply(Multiply(v, y), n)) == Multiply(v, Times(m, x) + Times(n, y))
  {
  }

  /** Together the two shifts are the whole push-out, and the mass-weighted centre of the pair stays where it is. */
  lemma {:induction false} PairShiftsBalance(bodyMass: real, proxyMass: real, manifold: CollisionManifold)
    requires bodyMass > 0.0 && proxyMass > 0.0
    ensures var shifts := PairShifts(bodyMass, proxyMass, manifold);
      && Subtract(shifts.0, shifts.1) == PushOutOf(manifold)
      && Add(Multiply(shifts.0, bodyMass), Multiply(shifts.1, proxyMass)) == ZERO
  {
    hide Times, Multiply, Add, Subtract, Share;
    var bodyInverse, proxyInverse := 1.0 / bodyMass, 1.0 / proxyMass;
    var separation, sum := manifold.penetration + SEPARATION_SLOP_M, bodyInverse + proxyInverse;
    QuotientTimes(1.0, bodyMass);
    QuotientTimes(1.0, proxyMass);
    TimesCommutes(bodyInverse, bodyMass);
    TimesCommutes(proxyInverse, proxyMass);
    SplitByInverseMass(separation, bodyInverse, proxyInverse);
    BalancedByMass(separation, bodyMass, bodyInverse, proxyMass, proxyInverse, sum);
    CombinedMultiples(manifold.normal, Share(separation, bodyInverse, sum), Share(-separation, proxyInverse, sum),
      bodyMass, proxyMass);
    ZeroMultiple(manifold.normal);
  }

  // ---- resolve_finite_proxy_contact ----

  function FinitePair(body: PlanarRigidBody, proxy: KinematicCollisionProxy, contactPoint: Vector2): Pair
    requires body.mass > 0.0 && body.yawInertia > 0.0 && proxy.mass > 0.0
  {
    Pair(BodyRigid(body), ProxyRigid(proxy),
      Subtract(contactPoint, BodyCenterOfMass(body)), Subtract(contactPoint, ProxyCenter(proxy)))
  }

  function PairInverseEffectiveMass(
    body: PlanarRigidBody, proxy: KinematicCollisionProxy, bodyOffset: Vector2, proxyOffset: Vector2,
    axis: Vector2): real
    requires body.mass > 0.0 && body.yawInertia > 0.0 && proxy.mass > 0.0
  {
    1.0 / body.mass + 1.0 / proxy.mass
    + Cross(bodyOffset, axis) * Cross(bodyOffset, axis) / body.yawInertia
    + Cross(proxyOffset, axis) * Cross(proxyOffset, axis) * ProxyInverseYawInertia(proxy)
  }

  lemma {:induction false} FiniteApproach(
    body: PlanarRigidBody, proxy: KinematicCollisionProxy, contactPoint: Vector2, axis: Vector2)
    requires ValidBody(body) && ValidProxy(proxy) && proxy.mass > 0.0
    ensures var bodyOffset := Subtract(contactPoint, BodyCenterOfMass(body));
      var proxyOffset := Subtract(contactPoint, ProxyCenter(proxy));
      var pair := FinitePair(body, proxy, contactPoint);
      && Dot(Subtract(ContactVelocity(body, bodyOffset), KinematicContactVelocity(proxy, contactPoint)), axis)
         == Approach(pair, axis)
      && PairInverseEffectiveMass(body, proxy, bodyOffset, proxyOffset, axis) == PairMobility(pair, axis)
  {
    hide Dot, Cross, Subtract, BodyCenterOfMass, ContactVelocity, KinematicContactVelocity, PointVelocity, BodyRigid,
      ProxyRigid;
    var pair := FinitePair(body, proxy, contactPoint);
    PointVelocities(body, proxy, pair.firstOffset, contactPoint);
    RigidResponses(body, proxy);
    DotOfDifference(ContactVelocity(body, pair.firstOffset), KinematicContactVelocity(proxy, contactPoint), axis);
    QuotientIsTimes(Cross(pair.firstOffset, axis) * Cross(pair.firstOffset, axis), body.yawInertia);
  }

  lemma PointVelocities(body: PlanarRigidBody, proxy: KinematicCollisionProxy, offset: Vector2, contactPoint: Vector2)
    requires ValidBody(body) && proxy.mass > 0.0
    ensures PointVelocity(BodyRigid(body), offset) == ContactVelocity(body, offset)
    ensures PointVelocity(ProxyRigid(proxy), Subtract(contactPoint, ProxyCenter(proxy)))
         == KinematicContactVelocity(proxy, contactPoint)
  {
  }

  lemma RigidResponses(body: PlanarRigidBody, proxy: KinematicCollisionProxy)
    requires ValidBody(body) && proxy.mass > 0.0
    ensures BodyRigid(body).inverseMass == 1.0 / body.mass && BodyRigid(body).inverseInertia == 1.0 / body.yawInertia
    ensures ProxyRigid(proxy).inverseMass == 1.0 / proxy.mass
    ensures ProxyRigid(proxy).inverseInertia == ProxyInverseYawInertia(proxy)
  {
  }

  lemma {:induction false} FinitePairFacts(
    body: PlanarRigidBody, proxy: KinematicCollisionProxy, contactPoint: Vector2, direction: Vector2)
    requires ValidBody(body) && ValidProxy(proxy) && proxy.mass > 0.0
    ensures var pair := FinitePair(body, proxy, contactPoint);
      && Movable(pair) && PairMobility(pair, direction) > 0.0
      && Times(pair.first.mass, pair.first.inverseMass) == 1.0
      && Times(pair.second.mass, pair.second.inverseMass) == 1.0
      && (Finite(proxy) ==> ValidPair(pair))
  {
    hide Times, PairMobility, BodyCenterOfMass, Subtract;
    var pair := FinitePair(body, proxy, contactPoint);
    RigidsAreValid(body, proxy);
    QuotientTimes(1.0, body.mass);
    QuotientTimes(1.0, body.yawInertia);
    QuotientTimes(1.0, proxy.mass);
    TimesCommutes(1.0 / proxy.mass, proxy.mass);
    if proxy.yawInertia > 0.0 {
      QuotientTimes(1.0, proxy.yawInertia);
    }
    MobilityPositive(pair, direction);
  }

  lemma {:induction false} FinitePairImpelled(
    body: PlanarRigidBody, proxy: KinematicCollisionProxy, contactPoint: Vector2, direction: Vector2, j: real)
    requires ValidBody(body) && ValidProxy(proxy) && proxy.mass > 0.0
    ensures var before := FinitePair(body, proxy, contactPoint);
      var nextBody := ImpelledBody(body, before.firstOffset, direction, j);
      var nextProxy := ApplyProxyImpulse(proxy, Multiply(Multiply(direction, j), -1.0), before.secondOffset);
      && OnlyMoved(body, nextBody) && nextBody.shape == body.shape && ValidBody(nextBody)
      && OnlyDriven(proxy, nextProxy) && nextProxy.shape == proxy.shape && ValidProxy(nextProxy)
      && (Finite(proxy) ==> Finite(nextProxy))
      && FinitePair(nextBody, nextProxy, contactPoint) == SecondBounded(PairImpelled(before, direction, j))
      && Subtract(contactPoint, BodyCenterOfMass(nextBody)) == before.firstOffset
      && Subtract(contactPoint, ProxyCenter(nextProxy)) == before.secondOffset
  {
    hide Impelled, SpinBounded, ApplyProxyImpulse, Add, Multiply, Cross, BodyRigid, ProxyRigid;
    var before := FinitePair(body, proxy, contactPoint);
    ImpelledBodyIsRigid(body, before.firstOffset, direction, j);
    ProxyImpulseIsRigid(proxy, before.secondOffset, direction, j);
  }

  /** The finite solve after any breakaway: push the pair apart, then both impulse stages and the speed bound. */
  method SolveFinitePair(
    body: PlanarRigidBody, proxy: KinematicCollisionProxy, manifold: CollisionManifold, hypot: (real, real) -> real)
    returns (nextBody: PlanarRigidBody, nextProxy: KinematicCollisionProxy, normalImpulse: real,
             ghost tangentImpulse: real, ghost rubbed: KinematicCollisionProxy)
    requires ValidBody(body) && ValidProxy(proxy) && proxy.mass > 0.0 && Unit(manifold.normal)
    ensures ValidBody(nextBody) && ValidProxy(nextProxy) && (Finite(proxy) ==> Finite(nextProxy))
    ensures OnlyMoved(body, nextBody) && OnlyDriven(proxy, nextProxy) && OnlyDriven(proxy, rubbed)
    ensures var shifts := PairShifts(body.mass, proxy.mass, manifold);
      nextBody.shape == MovedBy(body.shape, shifts.0) && nextProxy.shape == ShapeMovedBy(proxy.shape, shifts.1)
    ensures var before :=
      FinitePair(body.(shape := nextBody.shape), proxy.(shape := nextProxy.shape), manifold.contactPoint);
      && rubbed.shape == nextProxy.shape && ValidProxy(rubbed)
      && ContactLaw(before, proxy.material, manifold.normal, normalImpulse, tangentImpulse,
           FinitePair(nextBody, rubbed, manifold.contactPoint))
      && nextProxy == (if Approach(before, manifold.normal) >= 0.0 then rubbed
                       else ClampFiniteProxySpeed(rubbed, hypot(rubbed.velocity.east, rubbed.velocity.north)))
    ensures normalImpulse >= 0.0
  {
    hide Times, Dot, Cross, Add, Multiply, Subtract, Approach, PairMobility, PairImpelled, SecondBounded, Unit, Tangent,
      BodyCenterOfMass, ProxyCenter, ContactVelocity, KinematicContactVelocity, PairInverseEffectiveMass, ImpelledBody,
      ApplyProxyImpulse, RestitutionOf, FinitePair, ContactLaw, Clamp, ClampFiniteProxySpeed, PairShifts, KineticEnergy;
    var shifts := PairShifts(body.mass, proxy.mass, manifold);
    nextBody := body.(shape := MovedBy(body.shape, shifts.0));
    nextProxy := proxy.(shape := ShapeMovedBy(proxy.shape, shifts.1));
    normalImpulse, tangentImpulse, rubbed := 0.0, 0.0, nextProxy;
    ghost var pushedBody, pushedProxy := nextBody, nextProxy;
    var point := manifold.contactPoint;
    var bodyOffset, proxyOffset := Subtract(point, BodyCenterOfMass(nextBody)), Subtract(point, ProxyCenter(nextProxy));
    var normalVelocity := Dot(
      Subtract(ContactVelocity(nextBody, bodyOffset), KinematicContactVelocity(nextProxy, point)), manifold.normal);
    FiniteApproach(pushedBody, pushedProxy, point, manifold.normal);
    FinitePairFacts(pushedBody, pushedProxy, point, manifold.normal);
    ghost var before := FinitePair(pushedBody, pushedProxy, point);
    if normalVelocity >= 0.0 {
      NoContactImpulse(before, proxy.material, manifold.normal);
      return;
    }
    var normalDenominator := PairInverseEffectiveMass(nextBody, nextProxy, bodyOffset, proxyOffset, manifold.normal);
    normalImpulse := RestitutionOf(proxy.material, normalVelocity, normalDenominator);
    NormalImpulsePushes(proxy.material, normalVelocity, normalDenominator);
    FinitePairImpelled(pushedBody, pushedProxy, point, manifold.normal, normalImpulse);
    PairOffsets(pushedBody, pushedProxy, point);
    nextBody := ImpelledBody(nextBody, bodyOffset, manifold.normal, normalImpulse);
    nextProxy := ApplyProxyImpulse(nextProxy, Multiply(Multiply(manifold.normal, normalImpulse), -1.0), proxyOffset);
    ghost var bouncedBody, bouncedProxy := nextBody, nextProxy;

    var tangent := Tangent(manifold.normal);
    var tangentVelocity := Dot(
      Subtract(ContactVelocity(nextBody, bodyOffset), KinematicContactVelocity(nextProxy, point)), tangent);
    FiniteApproach(bouncedBody, bouncedProxy, point, tangent);
    FinitePairFacts(bouncedBody, bouncedProxy, point, tangent);
    var unconstrained := -tangentVelocity
        / PairInverseEffectiveMass(nextBody, nextProxy, bodyOffset, proxyOffset, tangent);
    var maximumTangentImpulse := Times(proxy.material.friction, normalImpulse);
    var friction := Clamp(unconstrained, -maximumTangentImpulse, maximumTangentImpulse);
    FinitePairImpelled(bouncedBody, bouncedProxy, point, tangent, friction);
    PairOffsets(bouncedBody, bouncedProxy, point);
    nextBody := ImpelledBody(nextBody, bodyOffset, tangent, friction);
    nextProxy := ApplyProxyImpulse(nextProxy, Multiply(Multiply(tangent, friction), -1.0), proxyOffset);
    tangentImpulse, rubbed := friction, nextProxy;
    StagesObeyLaw(before, FinitePair(bouncedBody, bouncedProxy, point), FinitePair(nextBody, rubbed, point),
      proxy.material, manifold.normal, normalImpulse, friction);
    SpeedClampEnergy(rubbed, hypot(rubbed.velocity.east, rubbed.velocity.north));
    nextProxy := ClampFiniteProxySpeed(nextProxy, hypot(nextProxy.velocity.east, nextProxy.velocity.north));
  }

  lemma PairOffsets(body: PlanarRigidBody, proxy: KinematicCollisionProxy, contactPoint: Vector2)
    requires ValidBody(body) && proxy.mass > 0.0
    ensures FinitePair(body, proxy, contactPoint).firstOffset == Subtract(contactPoint, BodyCenterOfMass(body))
    ensures FinitePair(body, proxy, contactPoint).secondOffset == Subtract(contactPoint, ProxyCenter(proxy))
  {
  }

  /** The normal impulse that the anchored base must absorb to stop the body as if it were immovable. */
  function RequiredImpulse(body: PlanarRigidBody, proxy: KinematicCollisionProxy, manifold: CollisionManifold): real
    requires ValidBody(body)
  {
    var offset := Subtract(manifold.contactPoint, BodyCenterOfMass(body));
    var closing := Dot(ContactVelocity(body, offset), manifold.normal);
    var denominator := InverseEffectiveMass(body, offset, manifold.normal);
    InverseEffectiveMassPositive(body, offset, manifold.normal);
    Max(0.0, RestitutionOf(proxy.material, closing, denominator))
  }

  lemma {:induction false} InverseEffectiveMassPositive(body: PlanarRigidBody, offset: Vector2, axis: Vector2)
    requires ValidBody(body)
    ensures InverseEffectiveMass(body, offset, axis) > 0.0
  {
    QuotientTimes(1.0, body.mass);
    QuotientTimes(Square(Cross(offset, axis)), body.yawInertia);
    hide Cross, Times;
  }

  /** Spending part of the required impulse against the base is dissipative. */
  lemma {:induction false} AnchorImpulseEnergy(
    body: PlanarRigidBody, proxy: KinematicCollisionProxy, manifold: CollisionManifold, anchor: real)
    requires ValidBody(body) && ValidProxy(proxy) && Unit(manifold.normal)
    requires 0.0 <= anchor <= RequiredImpulse(body, proxy, manifold)
    ensures var offset := Subtract(manifold.contactPoint, BodyCenterOfMass(body));
      var next := ImpelledBody(body, offset, manifold.normal, anchor);
      && ValidBody(next) && OnlyMoved(body, next) && next.shape == body.shape
      && KineticEnergy(BodyRigid(next)) <= KineticEnergy(BodyRigid(body))
  {
    hide Times, Dot, Cross, Add, Multiply, Subtract, Approach, PairMobility, Unit, KineticEnergy, BodyRigid,
      BodyCenterOfMass, ContactVelocity, InverseEffectiveMass, Impelled, RestitutionOf, SpinBounded, Immovable;
    var offset := Subtract(manifold.contactPoint, BodyCenterOfMass(body));
    var closing := Dot(ContactVelocity(body, offset), manifold.normal);
    var denominator := InverseEffectiveMass(body, offset, manifold.normal);
    InverseEffectiveMassPositive(body, offset, manifold.normal);
    StaticApproach(body, ZERO, manifold.contactPoint, manifold.normal);
    StaticPairFacts(body, ZERO, manifold.contactPoint, manifold.normal);
    StaticPairImpelled(body, ZERO, manifold.contactPoint, manifold.normal, anchor);
    ImpelledBodyIsRigid(body, offset, manifold.normal, anchor);
    ZeroSubtracted(ContactVelocity(body, offset));
    PartialRestitution(proxy.material, closing, denominator, anchor);
    var before := StaticPair(body, ZERO, manifold.contactPoint);
    DissipativeImpulse(before, manifold.normal, anchor);
    ImmovableImpelled(ZERO, manifold.normal, -anchor);
    ImmovableEnergy();
  }

  lemma ZeroSubtracted(v: Vector2)
    ensures Subtract(v, ZERO) == v
  {
  }

  lemma {:induction false} PartialRestitution(
    material: CollisionMaterial, closing: real, denominator: real, anchor: real)
    requires ValidMaterial(material) && denominator > 0.0
    requires 0.0 <= anchor <= Max(0.0, RestitutionOf(material, closing, denominator))
    ensures Dissipative(anchor, closing, denominator)
  {
    if closing < 0.0 {
      RestitutionImpulse(closing, denominator, material.restitution);
      TimesCommutes(anchor, denominator);
      TimesCommutes(RestitutionOf(material, closing, denominator), denominator);
      TimesOrder(denominator, anchor, RestitutionOf(material, closing, denominator));
    } else {
      TimesPositive(1.0 + material.restitution, closing);
      QuotientTimes(-Times(1.0 + material.restitution, closing), denominator);
      TimesCommutes(0.0, denominator);
      TimesZero(denominator);
    }
  }

  ghost function PairKineticEnergy(body: PlanarRigidBody, proxy: KinematicCollisionProxy): real
    requires ValidBody(body) && proxy.mass > 0.0
  {
    KineticEnergy(BodyRigid(body)) + KineticEnergy(ProxyRigid(proxy))
  }

  function LinearMomentum(body: PlanarRigidBody, proxy: KinematicCollisionProxy): Vector2 {
    Add(Multiply(body.velocity, body.mass), Multiply(proxy.velocity, proxy.mass))
  }

  /** The law moves momentum between the two bodies but conserves their sum; bounding the spin does not touch it. */
  lemma {:induction false} LawConservesMomentum(
    before: Pair, material: CollisionMaterial, normal: Vector2, normalImpulse: real, tangentImpulse: real, after: Pair)
    requires Times(before.first.mass, before.first.inverseMass) == 1.0
    requires Times(before.second.mass, before.second.inverseMass) == 1.0
    requires ContactLaw(before, material, normal, normalImpulse, tangentImpulse, after)
    ensures Momentum(after) == Momentum(before)
  {
    hide Times, Dot, Cross, Along, Mobility, Approach, PairMobility, Add, Multiply, Tangent;
    if Approach(before, normal) < 0.0 {
      var bounced := PairImpelled(before, normal, normalImpulse);
      var middle := SecondBounded(bounced);
      PairMomentum(before, normal, normalImpulse);
      PairMomentum(middle, Tangent(normal), tangentImpulse);
    }
  }

  /** Angular momentum that the bound on the spin removes. */
  function SpinLoss(r: Rigid): real {
    Times(r.inertia, r.spin - SpinBounded(r).spin)
  }

  lemma {:induction false} BoundedAngularMomentum(pair: Pair, arm: Vector2)
    ensures PairAngularMomentum(SecondBounded(pair), arm) == PairAngularMomentum(pair, arm) - SpinLoss(pair.second)
    ensures Abs(pair.second.spin) <= MAXIMUM_FINITE_PROXY_HEADING_RATE_RAD_S ==> SpinLoss(pair.second) == 0.0
  {
    hide Times, Cross, Subtract;
    TimesDistributes(pair.second.inertia, pair.second.spin, SpinBounded(pair.second).spin);
    TimesZero(pair.second.inertia);
  }

  /**
   * About any point, the law conserves the pair's angular momentum up to what bounding the obstacle's spin removes, and
   * up to the moment on a capsule, which cannot spin.
   */
  lemma {:induction false} LawBalancesAngularMomentum(
    before: Pair, material: CollisionMaterial, normal: Vector2, normalImpulse: real, tangentImpulse: real, after: Pair,
    arm: Vector2)
    requires Times(before.first.mass, before.first.inverseMass) == 1.0
    requires Times(before.second.mass, before.second.inverseMass) == 1.0
    requires Times(before.first.inertia, before.first.inverseInertia) == 1.0
    requires Times(before.second.inertia, before.second.inverseInertia) == 1.0
          || (before.second.inertia == 0.0 && before.second.inverseInertia == 0.0)
    requires ContactLaw(before, material, normal, normalImpulse, tangentImpulse, after)
    ensures var bounced := PairImpelled(before, normal, normalImpulse);
      var rubbed := PairImpelled(SecondBounded(bounced), Tangent(normal), tangentImpulse);
      Approach(before, normal) < 0.0 ==>
        PairAngularMomentum(after, arm)
          == PairAngularMomentum(before, arm) - SpinLoss(bounced.second) - SpinLoss(rubbed.second)
          + if before.second.inertia == 0.0
            then Times(normalImpulse, Cross(before.secondOffset, normal))
                 + Times(tangentImpulse, Cross(before.secondOffset, Tangent(normal)))
            else 0.0
    ensures Approach(before, normal) >= 0.0 ==> PairAngularMomentum(after, arm) == PairAngularMomentum(before, arm)
  {
    hide Times, Cross, Approach, PairAngularMomentum, SpinLoss, Tangent, Add, Multiply;
    if Approach(before, normal) < 0.0 {
      var bounced := PairImpelled(before, normal, normalImpulse);
      var rubbed := PairImpelled(SecondBounded(bounced), Tangent(normal), tangentImpulse);
      PairAngularGain(before, normal, normalImpulse, arm);
      BoundedAngularMomentum(bounced, arm);
      PairAngularGain(SecondBounded(bounced), Tangent(normal), tangentImpulse, arm);
      BoundedAngularMomentum(rubbed, arm);
    }
  }

  /**
   * Between bodies that can spin, angular momentum about every point is conserved whenever no bound on the spin acts.
   */
  lemma {:induction false} LawConservesAngularMomentum(
    before: Pair, material: CollisionMaterial, normal: Vector2, normalImpulse: real, tangentImpulse: real, after: Pair,
    arm: Vector2)
    requires Times(before.first.mass, before.first.inverseMass) == 1.0
    requires Times(before.second.mass, before.second.inverseMass) == 1.0
    requires Times(before.first.inertia, before.first.inverseInertia) == 1.0
    requires Times(before.second.inertia, before.second.inverseInertia) == 1.0
    requires ContactLaw(before, material, normal, normalImpulse, tangentImpulse, after)
    requires var bounced := PairImpelled(before, normal, normalImpulse);
      && Abs(bounced.second.spin) <= MAXIMUM_FINITE_PROXY_HEADING_RATE_RAD_S
      && Abs(PairImpelled(bounced, Tangent(normal), tangentImpulse).second.spin)
        <= MAXIMUM_FINITE_PROXY_HEADING_RATE_RAD_S
    ensures PairAngularMomentum(after, arm) == PairAngularMomentum(before, arm)
  {
    hide Times, Cross, Approach, PairAngularMomentum, SpinLoss, Tangent, Add, Multiply;
    var bounced := PairImpelled(before, normal, normalImpulse);
    assert SecondBounded(bounced) == bounced;
    BoundedAngularMomentum(bounced, arm);
    BoundedAngularMomentum(PairImpelled(bounced, Tangent(normal), tangentImpulse), arm);
    ZeroTimes(before.second.inverseInertia);
    LawBalancesAngularMomentum(before, material, normal, normalImpulse, tangentImpulse, after, arm);
  }

  /** Momentum of a body along the contact normal. */
  function NormalMomentum(mass: real, velocity: Vector2, normal: Vector2): real {
    Times(mass, Dot(velocity, normal))
  }

  lemma {:induction false} ImpelledNormalMomentum(m: real, im: real, v: Vector2, d: Vector2, j: real, normal: Vector2)
    requires Times(m, im) == 1.0
    ensures NormalMomentum(m, Add(v, Multiply(d, Times(j, im))), normal)
      == NormalMomentum(m, v, normal) + Times(j, Dot(d, normal))
  {
    DotOfSum(v, d, Times(j, im), normal);
    assert Times(m, Dot(v, normal) + Times(Times(j, im), Dot(d, normal)))
        == Times(m, Dot(v, normal)) + Times(Times(m, im), Times(j, Dot(d, normal)));
    assert Times(1.0, Times(j, Dot(d, normal))) == Times(j, Dot(d, normal));
    hide Times, Dot, Add, Multiply;
  }

  lemma {:induction false} NormalAndTangent(normal: Vector2, j: real)
    requires Unit(normal)
    ensures Times(j, Dot(normal, normal)) == j && Times(j, Dot(Tangent(normal), normal)) == 0.0
  {
    TimesOne(j);
    TimesZero(j);
    assert Dot(Tangent(normal), normal) == 0.0;
    hide Times, Dot;
  }

  /** The reported normal impulse is exactly the momentum the first body gains along the normal. */
  lemma {:induction false} ReportedImpulse(
    before: Pair, material: CollisionMaterial, normal: Vector2, normalImpulse: real, tangentImpulse: real, after: Pair)
    requires Times(before.first.mass, before.first.inverseMass) == 1.0 && Unit(normal)
    requires ContactLaw(before, material, normal, normalImpulse, tangentImpulse, after)
    ensures NormalMomentum(before.first.mass, after.first.velocity, normal)
         == NormalMomentum(before.first.mass, before.first.velocity, normal) + normalImpulse
  {
    hide Times, Dot, Cross, Along, Mobility, Approach, PairMobility, Add, Multiply, Tangent, NormalMomentum, Unit;
    if Approach(before, normal) < 0.0 {
      var m, im := before.first.mass, before.first.inverseMass;
      var bounced := PairImpelled(before, normal, normalImpulse);
      ImpelledNormalMomentum(m, im, before.first.velocity, normal, normalImpulse, normal);
      ImpelledNormalMomentum(m, im, bounced.first.velocity, Tangent(normal), tangentImpulse, normal);
      NormalAndTangent(normal, normalImpulse);
      NormalAndTangent(normal, tangentImpulse);
    }
  }

  lemma {:induction false} AnchorMomentum(body: PlanarRigidBody, offset: Vector2, normal: Vector2, anchor: real)
    requires ValidBody(body) && Unit(normal)
    ensures NormalMomentum(body.mass, ImpelledBody(body, offset, normal, anchor).velocity, normal)
         == NormalMomentum(body.mass, body.velocity, normal) + anchor
  {
    QuotientTimes(1.0, body.mass);
    TimesCommutes(1.0 / body.mass, body.mass);
    assert anchor * (1.0 / body.mass) == Times(anchor, 1.0 / body.mass);
    hide Times, Dot, Cross, Add, Multiply, NormalMomentum, Unit;
    ImpelledNormalMomentum(body.mass, 1.0 / body.mass, body.velocity, normal, anchor, normal);
    NormalAndTangent(normal, anchor);
  }

  lemma {:induction false} FinitePairLaws(
    body: PlanarRigidBody, proxy: KinematicCollisionProxy, nextBody: PlanarRigidBody, rubbed: KinematicCollisionProxy,
    manifold: CollisionManifold, normalImpulse: real, tangentImpulse: real)
    requires ValidBody(body) && ValidProxy(proxy) && proxy.mass > 0.0 && Unit(manifold.normal)
    requires ValidBody(nextBody) && OnlyMoved(body, nextBody) && OnlyDriven(proxy, rubbed)
    requires ContactLaw(
      FinitePair(body.(shape := nextBody.shape), proxy.(shape := rubbed.shape), manifold.contactPoint), proxy.material,
      manifold.normal, normalImpulse, tangentImpulse, FinitePair(nextBody, rubbed, manifold.contactPoint))
    requires rubbed.shape.Box? == proxy.shape.Box? && ValidProxy(rubbed)
    ensures Finite(proxy) ==> PairKineticEnergy(nextBody, rubbed) <= PairKineticEnergy(body, proxy)
    ensures LinearMomentum(nextBody, rubbed) == LinearMomentum(body, proxy)
    ensures NormalMomentum(body.mass, nextBody.velocity, manifold.normal)
         == NormalMomentum(body.mass, body.velocity, manifold.normal) + normalImpulse
  {
    hide NormalMomentum, ContactLaw, KineticEnergy, Unit, Times, Add, Multiply, Subtract, BodyCenterOfMass, ProxyCenter,
      PairMobility;
    var pushedBody, pushedProxy := body.(shape := nextBody.shape), proxy.(shape := rubbed.shape);
    var before := FinitePair(pushedBody, pushedProxy, manifold.contactPoint);
    var after := FinitePair(nextBody, rubbed, manifold.contactPoint);
    FinitePairFacts(pushedBody, pushedProxy, manifold.contactPoint, manifold.normal);
    LawConservesMomentum(before, proxy.material, manifold.normal, normalImpulse, tangentImpulse, after);
    ReportedImpulse(before, proxy.material, manifold.normal, normalImpulse, tangentImpulse, after);
    if Finite(proxy) {
      ContactLosesEnergy(before, proxy.material, manifold.normal, normalImpulse, tangentImpulse, after);
    }
  }

  lemma CrossAlong(offset: Vector2, normal: Vector2, distance: real)
    ensures Cross(Subtract(offset, Multiply(normal, distance)), normal) == Cross(offset, normal)
  {
  }

  lemma OffsetAfterShift(point: Vector2, center: Vector2, lever: Vector2, shift: Vector2)
    ensures Subtract(point, Add(Add(center, shift), lever)) == Subtract(Subtract(point, Add(center, lever)), shift)
  {
  }

  /** Pushing the body out along the normal changes neither the approach nor the response along that normal. */
  lemma {:induction false} SameAlongNormal(body: PlanarRigidBody, point: Vector2, normal: Vector2, distance: real)
    requires ValidBody(body)
    ensures var pushed := body.(shape := MovedBy(body.shape, Multiply(normal, distance)));
      var offset, moved := Subtract(point, BodyCenterOfMass(body)), Subtract(point, BodyCenterOfMass(pushed));
      && Dot(ContactVelocity(pushed, moved), normal) == Dot(ContactVelocity(body, offset), normal)
      && InverseEffectiveMass(pushed, moved, normal) == InverseEffectiveMass(body, offset, normal)
  {
    hide Dot, Cross, Add, Subtract, Multiply, Times;
    var shift := Multiply(normal, distance);
    var pushed := body.(shape := MovedBy(body.shape, shift));
    var offset, moved := Subtract(point, BodyCenterOfMass(body)), Subtract(point, BodyCenterOfMass(pushed));
    OffsetAfterShift(point, body.shape.center, Multiply(body.shape.forward, body.centerOfMassOffset), shift);
    CrossAlong(offset, normal, distance);
    AlongSplits(BodyRigid(body), offset, normal);
    AlongSplits(BodyRigid(pushed), moved, normal);
  }

  /** The law's normal impulse is the restitution impulse of the approach, or nothing. */
  lemma {:induction false} LawGivesRestitution(
    before: Pair, material: CollisionMaterial, normal: Vector2, normalImpulse: real, tangentImpulse: real, after: Pair)
    requires Unit(normal) && ValidMaterial(material) && PairMobility(before, normal) > 0.0
    requires ContactLaw(before, material, normal, normalImpulse, tangentImpulse, after)
    ensures normalImpulse == Max(0.0, RestitutionOf(material, Approach(before, normal), PairMobility(before, normal)))
  {
    hide Approach, PairMobility, PairImpelled, SecondBounded, Unit, Times;
    var approach, mobility := Approach(before, normal), PairMobility(before, normal);
    if approach < 0.0 {
      var j := RestitutionOf(material, approach, mobility);
      RestitutionImpulse(approach, mobility, material.restitution);
      PairImpulseChangesApproach(before, normal, normalImpulse);
      TimesCommutes(normalImpulse, mobility);
      TimesCommutes(j, mobility);
      TimesCancels(mobility, normalImpulse, j);
    } else {
      NoRestitution(material, approach, mobility);
    }
  }

  lemma {:induction false} NoRestitution(material: CollisionMaterial, approach: real, mobility: real)
    requires ValidMaterial(material) && approach >= 0.0 && mobility > 0.0
    ensures RestitutionOf(material, approach, mobility) <= 0.0
  {
    TimesPositive(1.0 + material.restitution, approach);
    QuotientTimes(-Times(1.0 + material.restitution, approach), mobility);
  }

  /** A base that holds takes exactly the impulse that was required to test it. */
  lemma {:induction false} HeldTakesRequired(
    body: PlanarRigidBody, proxy: KinematicCollisionProxy, next: PlanarRigidBody, manifold: CollisionManifold,
    impulse: real, tangentImpulse: real)
    requires ValidBody(body) && ValidProxy(proxy) && ValidBody(next) && Unit(manifold.normal)
    requires next.shape == MovedBy(body.shape, PushOutOf(manifold)) && OnlyMoved(body, next)
    requires ContactLaw(StaticPair(body.(shape := next.shape), ZERO, manifold.contactPoint), proxy.material,
               manifold.normal, impulse, tangentImpulse, StaticPair(next, ZERO, manifold.contactPoint))
    ensures impulse == RequiredImpulse(body, proxy, manifold)
  {
    hide Dot, Cross, Add, Subtract, Multiply, Times, Approach, PairMobility, ContactLaw, BodyCenterOfMass,
      ContactVelocity, InverseEffectiveMass, RestitutionOf, StaticPair, Unit, ValidMaterial;
    var point, normal := manifold.contactPoint, manifold.normal;
    PushedBody(body, PushOutOf(manifold));
    var pushed := body.(shape := MovedBy(body.shape, PushOutOf(manifold)));
    var moved := Subtract(point, BodyCenterOfMass(pushed));
    SameAlongNormal(body, point, normal, manifold.penetration + SEPARATION_SLOP_M);
    StaticApproach(pushed, ZERO, point, normal);
    ZeroSubtracted(ContactVelocity(pushed, moved));
    InverseEffectiveMassPositive(pushed, moved, normal);
    LawGivesRestitution(StaticPair(pushed, ZERO, point), proxy.material, normal, impulse, tangentImpulse,
      StaticPair(next, ZERO, point));
  }

  /** The base holds while the impulse that would stop the body stays below the remaining budget. */
  ghost predicate Held(body: PlanarRigidBody, proxy: KinematicCollisionProxy, manifold: CollisionManifold)
    requires ValidBody(body)
  {
    Anchored(proxy) && RequiredImpulse(body, proxy, manifold) + BREAKAWAY_TOLERANCE_N_S < proxy.breakawayImpulse
  }

  /** What a breaking base takes from the body before the proxy is free. */
  ghost function Absorbed(body: PlanarRigidBody, proxy: KinematicCollisionProxy, manifold: CollisionManifold): real
    requires ValidBody(body)
  {
    if Anchored(proxy) && !Held(body, proxy, manifold)
      then Min(RequiredImpulse(body, proxy, manifold), proxy.breakawayImpulse)
    else 0.0
  }

  ghost function Relieved(
    body: PlanarRigidBody, proxy: KinematicCollisionProxy, manifold: CollisionManifold): PlanarRigidBody
    requires ValidBody(body)
  {
    if Anchored(proxy) && !Held(body, proxy, manifold)
    then ImpelledBody(body, Subtract(manifold.contactPoint, BodyCenterOfMass(body)), manifold.normal,
      Absorbed(body, proxy, manifold))
    else body
  }

  function Released(proxy: KinematicCollisionProxy): KinematicCollisionProxy {
    if Anchored(proxy) then proxy.(breakawayImpulse := 0.0, breakawayReleased := true) else proxy
  }

  /**
   * The contact law of a finite contact: against an immovable obstacle while held; otherwise between the relieved body
   * and the free proxy, whose speed is then bounded.
   */
  ghost predicate FiniteLaw(
    body: PlanarRigidBody, proxy: KinematicCollisionProxy, manifold: CollisionManifold, nextBody: PlanarRigidBody,
    nextProxy: KinematicCollisionProxy, rubbed: KinematicCollisionProxy, impulse: real, tangentImpulse: real,
    hypot: (real, real) -> real)
    requires ValidBody(body) && ValidBody(nextBody) && proxy.mass > 0.0
  {
    var point := manifold.contactPoint;
    if Held(body, proxy, manifold) then
      ContactLaw(StaticPair(body.(shape := nextBody.shape), ZERO, point), proxy.material, manifold.normal,
        impulse, tangentImpulse, StaticPair(nextBody, ZERO, point))
    else
      && rubbed.mass == proxy.mass
      && (nextProxy == rubbed
        || nextProxy == ClampFiniteProxySpeed(rubbed, hypot(rubbed.velocity.east, rubbed.velocity.north)))
      && RelievedLaw(Relieved(body, proxy, manifold).(shape := nextBody.shape), Released(proxy).(shape := rubbed.shape),
           proxy.material, manifold, impulse - Absorbed(body, proxy, manifold), tangentImpulse, nextBody, rubbed)
  }

  ghost predicate RelievedLaw(
    body: PlanarRigidBody, proxy: KinematicCollisionProxy, material: CollisionMaterial, manifold: CollisionManifold,
    impulse: real, tangentImpulse: real, nextBody: PlanarRigidBody, rubbed: KinematicCollisionProxy)
    requires ValidBody(nextBody) && rubbed.mass > 0.0
  {
    && ValidBody(body) && proxy.mass > 0.0
    && ContactLaw(FinitePair(body, proxy, manifold.contactPoint), material, manifold.normal, impulse, tangentImpulse,
         FinitePair(nextBody, rubbed, manifold.contactPoint))
  }

  /**
   * What a finite contact leaves behind: the split push-out, the body's momentum gain along the normal, and the spent
   * breakaway budget. A held proxy does not move; a released one has no budget left.
   */
  ghost predicate FiniteOutcome(
    body: PlanarRigidBody, proxy: KinematicCollisionProxy, manifold: CollisionManifold,
    nextBody: PlanarRigidBody, nextProxy: KinematicCollisionProxy, impulse: real)
    requires ValidBody(body) && proxy.mass > 0.0
  {
    var held, shifts := Held(body, proxy, manifold), PairShifts(body.mass, proxy.mass, manifold);
    && OnlyMoved(body, nextBody)
    && OnlyDriven(
         proxy.(breakawayImpulse := nextProxy.breakawayImpulse, breakawayReleased := nextProxy.breakawayReleased),
         nextProxy)
    && impulse >= 0.0
    && NormalMomentum(body.mass, nextBody.velocity, manifold.normal)
       == NormalMomentum(body.mass, body.velocity, manifold.normal) + impulse
    && nextBody.shape == MovedBy(body.shape, if held then PushOutOf(manifold) else shifts.0)
    && (held ==> impulse == RequiredImpulse(body, proxy, manifold))
    && (held ==> nextProxy == proxy.(breakawayImpulse := proxy.breakawayImpulse - impulse) && Anchored(nextProxy))
    && (!held ==> nextProxy.shape == ShapeMovedBy(proxy.shape, shifts.1))
    && (Anchored(proxy) && !held ==> nextProxy.breakawayReleased && nextProxy.breakawayImpulse == 0.0)
    && (!Anchored(proxy) ==> nextProxy.breakawayReleased == proxy.breakawayReleased)
    && (!Anchored(proxy) ==> nextProxy.breakawayImpulse == proxy.breakawayImpulse)
  }

  /**
   * An anchored proxy acts as immovable while the required impulse stays below its breakaway budget; otherwise the
   * base absorbs its share, the proxy is released, and the finite solve takes the rest.
   */
  method ResolveFiniteProxyContact(
    body: PlanarRigidBody, proxy: KinematicCollisionProxy, manifold: CollisionManifold, hypot: (real, real) -> real)
    returns (nextBody: PlanarRigidBody, nextProxy: KinematicCollisionProxy, impulse: real,
             ghost tangentImpulse: real, ghost rubbed: KinematicCollisionProxy)
    requires ValidBody(body) && ValidProxy(proxy) && proxy.mass > 0.0 && Unit(manifold.normal)
    ensures ValidBody(nextBody) && ValidProxy(nextProxy) && (Finite(proxy) ==> Finite(nextProxy))
    ensures FiniteOutcome(body, proxy, manifold, nextBody, nextProxy, impulse)
    ensures FiniteLaw(body, proxy, manifold, nextBody, nextProxy, rubbed, impulse, tangentImpulse, hypot)
    ensures Finite(proxy) ==> PairKineticEnergy(nextBody, nextProxy) <= PairKineticEnergy(body, proxy)
    ensures !Anchored(proxy) ==>
      && LinearMomentum(nextBody, rubbed) == LinearMomentum(body, proxy)
      && (nextProxy == rubbed
          || nextProxy == ClampFiniteProxySpeed(rubbed, hypot(rubbed.velocity.east, rubbed.velocity.north)))
  {
    hide Times, Dot, Cross, Add, Multiply, Subtract, Approach, Unit, ContactLaw, KineticEnergy, BodyRigid, ProxyRigid,
      BodyCenterOfMass, ContactVelocity, InverseEffectiveMass, ImpelledBody, FinitePair, StaticPair, PairShifts,
      RequiredImpulse, ClampFiniteProxySpeed, LinearMomentum, NormalMomentum;
    var anchorImpulse := 0.0;
    nextBody, nextProxy, rubbed := body, proxy, proxy;
    if proxy.breakawayImpulse > 0.0 && !proxy.breakawayReleased {
      var required := RequiredImpulse(body, proxy, manifold);
      if required + BREAKAWAY_TOLERANCE_N_S < proxy.breakawayImpulse {
        nextBody, impulse, tangentImpulse := ResolveContact(body, proxy.material, ZERO, manifold);
        StaticContactEnergy(body, nextBody, manifold.contactPoint, proxy.material, manifold.normal, impulse,
          tangentImpulse);
        HeldTakesRequired(body, proxy, nextBody, manifold, impulse, tangentImpulse);
        nextProxy := proxy.(breakawayImpulse := Max(0.0, proxy.breakawayImpulse - impulse));
        SpentBudget(proxy, nextProxy.breakawayImpulse, proxy.breakawayReleased);
        return;
      }
      RequiredIsNotNegative(body, proxy, manifold);
      anchorImpulse := Min(required, proxy.breakawayImpulse);
      AnchorImpulseEnergy(body, proxy, manifold, anchorImpulse);
      nextBody := ImpelledBody(
        body, Subtract(manifold.contactPoint, BodyCenterOfMass(body)), manifold.normal, anchorImpulse);
      AnchorMomentum(body, Subtract(manifold.contactPoint, BodyCenterOfMass(body)), manifold.normal, anchorImpulse);
      nextProxy := proxy.(breakawayImpulse := 0.0, breakawayReleased := true);
      SpentBudget(proxy, 0.0, true);
    }
    var startBody, startProxy := nextBody, nextProxy;
    var normalImpulse;
    nextBody, nextProxy, normalImpulse, tangentImpulse, rubbed :=
      SolveFinitePair(startBody, startProxy, manifold, hypot);
    FinitePairLaws(startBody, startProxy, nextBody, rubbed, manifold, normalImpulse, tangentImpulse);
    SpeedClampEnergy(rubbed, hypot(rubbed.velocity.east, rubbed.velocity.north));
    impulse := anchorImpulse + normalImpulse;
  }

  lemma RequiredIsNotNegative(body: PlanarRigidBody, proxy: KinematicCollisionProxy, manifold: CollisionManifold)
    requires ValidBody(body)
    ensures RequiredImpulse(body, proxy, manifold) >= 0.0
  {
  }

  lemma SpentBudget(proxy: KinematicCollisionProxy, budget: real, released: bool)
    requires ValidProxy(proxy) && proxy.mass > 0.0 && budget >= 0.0
    requires proxy.shape.Box? || budget == 0.0
    ensures var next := proxy.(breakawayImpulse := budget, breakawayReleased := released);
      && ValidProxy(next) && (Finite(proxy) ==> Finite(next)) && ProxyRigid(next) == ProxyRigid(proxy)
  {
  }

  // ---- What a base takes altogether ----

  /** One contact with an anchored proxy, and what became of it. */
  datatype Strike = Strike(
    body: PlanarRigidBody, proxy: KinematicCollisionProxy, manifold: CollisionManifold, impulse: real,
    nextBody: PlanarRigidBody, nextProxy: KinematicCollisionProxy)

  ghost predicate SolvedStrike(strike: Strike) {
    && ValidBody(strike.body) && strike.proxy.mass > 0.0
    && FiniteOutcome(strike.body, strike.proxy, strike.manifold, strike.nextBody, strike.nextProxy, strike.impulse)
  }

  /** Contacts that one base holds, one after the other, from `budget` down to `left`. */
  ghost predicate HeldStrikes(strikes: seq<Strike>, budget: real, left: real) {
    if strikes == [] then left == budget
    else
      var last := strikes[|strikes| - 1];
      && SolvedStrike(last) && Held(last.body, last.proxy, last.manifold) && left == last.nextProxy.breakawayImpulse
      && HeldStrikes(strikes[..|strikes| - 1], budget, last.proxy.breakawayImpulse)
  }

  function ImpulsesOf(strikes: seq<Strike>): real {
    if strikes == [] then 0.0 else ImpulsesOf(strikes[..|strikes| - 1]) + strikes[|strikes| - 1].impulse
  }

  /** Held contacts spend exactly their impulses and always leave more than the tolerance. */
  lemma {:induction false} HeldStrikesSpend(strikes: seq<Strike>, budget: real, left: real)
    requires HeldStrikes(strikes, budget, left)
    ensures left == budget - ImpulsesOf(strikes) && (strikes != [] ==> left > BREAKAWAY_TOLERANCE_N_S)
  {
    hide SolvedStrike, Held;
    if strikes != [] {
      var last := strikes[|strikes| - 1];
      HeldStrikesSpend(strikes[..|strikes| - 1], budget, last.proxy.breakawayImpulse);
      HeldStrikeSpends(last);
    }
  }

  lemma {:induction false} HeldStrikeSpends(strike: Strike)
    requires SolvedStrike(strike) && Held(strike.body, strike.proxy, strike.manifold)
    ensures strike.nextProxy.breakawayImpulse
      == strike.proxy.breakawayImpulse - strike.impulse > BREAKAWAY_TOLERANCE_N_S
  {
    hide RequiredImpulse, NormalMomentum, PairShifts, PushOutOf, ShapeMovedBy, MovedBy;
  }

  /** A base absorbs its budget before it lets go: never more, and no more than the tolerance less. */
  lemma {:induction false} BaseAbsorbsItsBudget(strikes: seq<Strike>, budget: real, last: Strike)
    requires HeldStrikes(strikes, budget, last.proxy.breakawayImpulse)
    requires SolvedStrike(last) && Anchored(last.proxy) && !Held(last.body, last.proxy, last.manifold)
    ensures var absorbed := ImpulsesOf(strikes) + Absorbed(last.body, last.proxy, last.manifold);
      budget - BREAKAWAY_TOLERANCE_N_S <= absorbed <= budget
    ensures last.nextProxy.breakawayReleased
  {
    hide RequiredImpulse, NormalMomentum, PairShifts, HeldStrikes;
    HeldStrikesSpend(strikes, budget, last.proxy.breakawayImpulse);
  }
}
