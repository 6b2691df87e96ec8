/** The nested solver loops: static and dynamic contacts of the Ego, then contacts between proxies. */
module CollisionWorld {
  import opened Options
  import opened Planar
  import opened NarrowPhase
  import opened PushOut
  import opened GridIndex
  import opened RigidImpulse
  import opened ContactSolver
  import opened StringOrder
  import opened SubstepBudget

  const SOLVER_ITERATIONS: nat := 8
  const PAIR_PASSES: nat := 4
  const CAPSULE_BODY_YAW_INERTIA: real := 1000000000000000000000000000000.0

  datatype StaticObbCollider = StaticObbCollider(
    colliderId: string, isCurb: bool, shape: ObbPrism, material: CollisionMaterial)

  datatype CollisionContact = CollisionContact(
    colliderId: string, normal: Vector2, contactPoint: Vector2, maximumPenetration: real, accumulatedImpulse: real)

  // ---- record_contact ----

  function ContactIds(contacts: seq<CollisionContact>): (ids: seq<string>)
    ensures |ids| == |contacts| && forall i :: 0 <= i < |ids| ==> ids[i] == contacts[i].colliderId
  {
    seq(|contacts|, i requires 0 <= i < |contacts| => contacts[i].colliderId)
  }

  function MergedContact(contact: CollisionContact, manifold: CollisionManifold, impulse: real): CollisionContact {
    contact.(
      normal := manifold.normal, contactPoint := manifold.contactPoint,
      maximumPenetration := Max(contact.maximumPenetration, manifold.penetration),
      accumulatedImpulse := contact.accumulatedImpulse + impulse)
  }

  function TotalImpulse(contacts: seq<CollisionContact>): real {
    if contacts == [] then 0.0 else contacts[0].accumulatedImpulse + TotalImpulse(contacts[1..])
  }

  lemma {:induction false} TotalOfConcatenation(a: seq<CollisionContact>, b: seq<CollisionContact>)
    ensures TotalImpulse(a + b) == TotalImpulse(a) + TotalImpulse(b)
  {
    if a == [] {
      assert a + b == b;
    } else {
      TotalOfConcatenation(a[1..], b);
      assert (a + b)[1..] == a[1..] + b;
    }
  }

  lemma SingleTotal(contact: CollisionContact)
    ensures TotalImpulse([contact]) == contact.accumulatedImpulse
  {
  }

  lemma InsertedIds(contacts: seq<CollisionContact>, contact: CollisionContact, p: nat)
    requires p <= |contacts|
    ensures ContactIds(contacts[..p] + [contact] + contacts[p..])
         == ContactIds(contacts)[..p] + [contact.colliderId] + ContactIds(contacts)[p..]
  {
  }

  lemma {:induction false} InsertedTotal(contacts: seq<CollisionContact>, contact: CollisionContact, p: nat)
    requires p <= |contacts|
    ensures TotalImpulse(contacts[..p] + [contact] + contacts[p..])
      == TotalImpulse(contacts) + contact.accumulatedImpulse
  {
    hide TotalImpulse;
    assert contacts == contacts[..p] + contacts[p..];
    SingleTotal(contact);
    TotalOfConcatenation(contacts[..p], contacts[p..]);
    TotalOfConcatenation(contacts[..p] + [contact], contacts[p..]);
    TotalOfConcatenation(contacts[..p], [contact]);
  }

  lemma {:induction false} UpdatedContact(contacts: seq<CollisionContact>, contact: CollisionContact, p: nat)
    requires p < |contacts| && contact.colliderId == contacts[p].colliderId
    ensures var next := contacts[p := contact];
      && TotalImpulse(next) == TotalImpulse(contacts) - contacts[p].accumulatedImpulse + contact.accumulatedImpulse
      && ContactIds(next) == ContactIds(contacts)
  {
    assert contacts == contacts[..p] + ([contacts[p]] + contacts[p + 1..]);
    assert contacts[p := contact] == contacts[..p] + ([contact] + contacts[p + 1..]);
    TotalOfConcatenation(contacts[..p], [contacts[p]] + contacts[p + 1..]);
    TotalOfConcatenation(contacts[..p], [contact] + contacts[p + 1..]);
  }

  /**
   * One entry per collider, in identifier order; a repeated contact accumulates its impulse and deepest penetration.
   */
  method RecordContact(contacts: seq<CollisionContact>, colliderId: string, manifold: CollisionManifold, impulse: real)
    returns (next: seq<CollisionContact>, ghost at: nat)
    requires StrictlySorted(ContactIds(contacts))
    ensures StrictlySorted(ContactIds(next))
    ensures TotalImpulse(next) == TotalImpulse(contacts) + impulse
    ensures at <= |contacts|
    ensures colliderId in ContactIds(contacts) ==>
      && at < |contacts| && contacts[at].colliderId == colliderId
      && next == contacts[at := MergedContact(contacts[at], manifold, impulse)]
    ensures colliderId !in ContactIds(contacts) ==>
      next == contacts[..at]
              + [CollisionContact(colliderId, manifold.normal, manifold.contactPoint, manifold.penetration, impulse)]
              + contacts[at..]
  {
    hide StrictlySorted, TotalImpulse;
    var p := 0;
    while p < |contacts| && Before(contacts[p].colliderId, colliderId)
      invariant 0 <= p <= |contacts|
      invariant forall k :: 0 <= k < p ==> Before(contacts[k].colliderId, colliderId)
    {
      p := p + 1;
    }
    at := p;
    if p == |contacts| || contacts[p].colliderId != colliderId {
      var contact := CollisionContact(colliderId, manifold.normal, manifold.contactPoint, manifold.penetration,
        impulse);
      next := contacts[..p] + [contact] + contacts[p..];
      InsertedInOrder(ContactIds(contacts), colliderId, p);
      InsertedIds(contacts, contact, p);
      InsertedTotal(contacts, contact, p);
    } else {
      assert ContactIds(contacts)[p] == colliderId;
      var merged := MergedContact(contacts[p], manifold, impulse);
      next := contacts[p := merged];
      UpdatedContact(contacts, merged, p);
    }
  }

  lemma NoContactsSorted()
    ensures StrictlySorted(ContactIds([])) && TotalImpulse([]) == 0.0
  {
  }

  lemma {:induction false} InsertedInOrder(ids: seq<string>, id: string, p: nat)
    requires StrictlySorted(ids) && p <= |ids|
    requires forall k :: 0 <= k < p ==> Before(ids[k], id)
    requires p < |ids| ==> !Before(ids[p], id) && ids[p] != id
    ensures id !in ids && StrictlySorted(ids[..p] + [id] + ids[p..])
  {
    if p < |ids| {
      BeforeIsTotal(ids[p], id);
    }
    forall k | 0 <= k < |ids|
      ensures k < p ==> ids[k] != id
      ensures k >= p ==> Before(id, ids[k]) && ids[k] != id
    {
      BeforeIsTotal(id, id);
      if k > p {
        BeforeIsTransitive(id, ids[p], ids[k]);
      }
    }
    var next := ids[..p] + [id] + ids[p..];
    forall i, j | 0 <= i < j < |next|
      ensures Before(next[i], next[j])
    {
      if i < p && j == p {
        assert next[i] == ids[i];
      } else if i < p < j {
        assert next[i] == ids[i] && next[j] == ids[j - 1];
      }
    }
  }

  // ---- Energy of a whole scene ----

  ghost predicate AllValid(proxies: seq<KinematicCollisionProxy>) {
    forall i :: 0 <= i < |proxies| ==> ValidProxy(proxies[i])
  }

  ghost predicate AllFinite(proxies: seq<KinematicCollisionProxy>) {
    forall i :: 0 <= i < |proxies| ==> Finite(proxies[i])
  }

  function ProxyEnergy(proxy: KinematicCollisionProxy): real {
    if proxy.mass > 0.0 then KineticEnergy(ProxyRigid(proxy)) else 0.0
  }

  function ProxyEnergies(proxies: seq<KinematicCollisionProxy>): real {
    if proxies == [] then 0.0 else ProxyEnergy(proxies[0]) + ProxyEnergies(proxies[1..])
  }

  ghost function TotalEnergy(body: PlanarRigidBody, proxies: seq<KinematicCollisionProxy>): real
    requires ValidBody(body)
  {
    KineticEnergy(BodyRigid(body)) + ProxyEnergies(proxies)
  }

  lemma {:induction false} EnergiesAfterUpdate(
    proxies: seq<KinematicCollisionProxy>, i: nat, proxy: KinematicCollisionProxy)
    requires i < |proxies|
    ensures ProxyEnergies(proxies[i := proxy]) == ProxyEnergies(proxies) - ProxyEnergy(proxies[i]) + ProxyEnergy(proxy)
  {
    hide ProxyEnergy;
    var next := proxies[i := proxy];
    if i == 0 {
      assert next[1..] == proxies[1..];
    } else {
      EnergiesAfterUpdate(proxies[1..], i - 1, proxy);
      assert next[1..] == proxies[1..][i - 1 := proxy];
    }
  }

  // ---- Narrow phase against any proxy shape ----

  function CapsuleGap(body: ObbPrism, capsule: VerticalCapsule): Vector2
    requires ValidShape(body)
  {
    Subtract(ClosestPoint(body, capsule.center), capsule.center)
  }

  function IntersectCapsule(body: ObbPrism, capsule: VerticalCapsule, velocity: Vector2, hypot: (real, real) -> real)
    : Option<CollisionManifold>
    requires ValidShape(body)
  {
    var gap := CapsuleGap(body, capsule);
    IntersectObbVerticalCapsule(body, capsule, velocity, hypot(gap.east, gap.north))
  }

  /** The manifold of two shapes; its normal points from the second to the first. */
  function IntersectShapes(first: ProxyShape, second: ProxyShape, relative: Vector2, hypot: (real, real) -> real)
    : Option<CollisionManifold>
    requires ValidProxyShape(first) && ValidProxyShape(second)
  {
    match (first, second)
    case (Box(lhs), Box(rhs)) => IntersectObbPrisms(lhs, rhs, relative)
    case (Box(lhs), Capsule(rhs)) => IntersectCapsule(lhs, rhs, relative, hypot)
    case (Capsule(lhs), Box(rhs)) =>
      var result := IntersectCapsule(rhs, lhs, Multiply(relative, -1.0), hypot);
      if result.None? then None
      else Some(result.value.(normal := Multiply(result.value.normal, -1.0)))
    case (Capsule(lhs), Capsule(rhs)) =>
      var delta := Subtract(lhs.center, rhs.center);
      IntersectCapsules(lhs, rhs, hypot(delta.east, delta.north))
  }

  lemma {:induction false} ShapeNormalIsUnit(
    first: ProxyShape, second: ProxyShape, relative: Vector2, hypot: (real, real) -> real)
    requires ValidProxyShape(first) && ValidProxyShape(second) && IsHypot(hypot)
    requires IntersectShapes(first, second, relative, hypot).Some?
    ensures Unit(IntersectShapes(first, second, relative, hypot).value.normal)
  {
    hide IntersectObbPrisms, IntersectObbVerticalCapsule, IntersectCapsules, Unit, Multiply, Subtract, ClosestPoint,
      Times;
    match (first, second)
    case (Box(lhs), Box(rhs)) => ManifoldIsLeastOverlap(lhs, rhs, relative);
    case (Box(lhs), Capsule(rhs)) =>
      var gap := CapsuleGap(lhs, rhs);
      CapsuleNormalIsUnit(lhs, rhs, relative, hypot(gap.east, gap.north));
    case (Capsule(lhs), Box(rhs)) =>
      var gap := CapsuleGap(rhs, lhs);
      CapsuleNormalIsUnit(rhs, lhs, Multiply(relative, -1.0), hypot(gap.east, gap.north));
      FlippedUnit(IntersectCapsule(rhs, lhs, Multiply(relative, -1.0), hypot).value.normal, -1.0);
    case (Capsule(lhs), Capsule(rhs)) =>
      var delta := Subtract(lhs.center, rhs.center);
      CapsulesNormalIsUnit(lhs, rhs, hypot(delta.east, delta.north));
  }

  lemma NegatedShift(v: Vector2, w: Vector2, normal: Vector2, factor: real)
    requires Subtract(v, w) == Multiply(Multiply(normal, -1.0), factor)
    ensures Subtract(w, v) == Multiply(normal, factor)
  {
  }

  /**
   * Push-out really separates: after any split of the push-out between the two shapes the same narrow phase reports
   * no contact for the pair, whatever velocities they have by then.
   */
  lemma {:induction false} PushedPairIsSeparated(
    first: ProxyShape, second: ProxyShape, relative: Vector2, later: Vector2, hypot: (real, real) -> real,
    firstShift: Vector2, secondShift: Vector2)
    requires ValidProxyShape(first) && ValidProxyShape(second) && IsHypot(hypot)
    requires IntersectShapes(first, second, relative, hypot).Some?
    requires Subtract(firstShift, secondShift) == PushOutOf(IntersectShapes(first, second, relative, hypot).value)
    ensures IntersectShapes(ShapeMovedBy(first, firstShift), ShapeMovedBy(second, secondShift), later, hypot).None?
  {
    hide IntersectObbPrisms, IntersectObbVerticalCapsule, IntersectCapsules, Multiply, Subtract, Add, ClosestPoint,
      Times, Unit;
    match (first, second)
    case (Box(lhs), Box(rhs)) =>
      BoxPushOutSeparates(lhs, rhs, relative, later, firstShift, secondShift);
    case (Box(lhs), Capsule(rhs)) =>
      var moved := rhs.(center := Add(rhs.center, secondShift));
      var gap, laterGap := CapsuleGap(lhs, rhs), CapsuleGap(MovedBy(lhs, firstShift), moved);
      CapsulePushOutSeparates(lhs, rhs, relative, hypot(gap.east, gap.north), firstShift, secondShift,
        later, hypot(laterGap.east, laterGap.north));
    case (Capsule(lhs), Box(rhs)) =>
      var moved := lhs.(center := Add(lhs.center, firstShift));
      var gap, laterGap := CapsuleGap(rhs, lhs), CapsuleGap(MovedBy(rhs, secondShift), moved);
      var manifold := IntersectCapsule(rhs, lhs, Multiply(relative, -1.0), hypot).value;
      NegatedShift(firstShift, secondShift, manifold.normal, manifold.penetration + SEPARATION_SLOP_M);
      CapsulePushOutSeparates(rhs, lhs, Multiply(relative, -1.0), hypot(gap.east, gap.north), secondShift, firstShift,
        Multiply(later, -1.0), hypot(laterGap.east, laterGap.north));
    case (Capsule(lhs), Capsule(rhs)) =>
      var delta := Subtract(lhs.center, rhs.center);
      var laterDelta := Subtract(Add(lhs.center, firstShift), Add(rhs.center, secondShift));
      CapsulesPushOutSeparates(lhs, rhs, hypot(delta.east, delta.north), firstShift, secondShift,
        hypot(laterDelta.east, laterDelta.north));
  }

  /** The solver's mass-weighted split separates the pair and leaves its mass-weighted centre where it was. */
  lemma {:induction false} ResolvedPairIsSeparated(
    first: ProxyShape, second: ProxyShape, firstMass: real, secondMass: real,
    relative: Vector2, later: Vector2, hypot: (real, real) -> real)
    requires ValidProxyShape(first) && ValidProxyShape(second) && IsHypot(hypot) && firstMass > 0.0 && secondMass > 0.0
    requires IntersectShapes(first, second, relative, hypot).Some?
    ensures var shifts := PairShifts(firstMass, secondMass, IntersectShapes(first, second, relative, hypot).value);
      && IntersectShapes(ShapeMovedBy(first, shifts.0), ShapeMovedBy(second, shifts.1), later, hypot).None?
      && Add(Multiply(shifts.0, firstMass), Multiply(shifts.1, secondMass)) == ZERO
  {
    hide IntersectShapes, PairShifts, Multiply, Subtract, Add, ShapeMovedBy;
    var manifold := IntersectShapes(first, second, relative, hypot).value;
    var shifts := PairShifts(firstMass, secondMass, manifold);
    PairShiftsBalance(firstMass, secondMass, manifold);
    PushedPairIsSeparated(first, second, relative, later, hypot, shifts.0, shifts.1);
  }

  // ---- The solver loops ----

  lemma {:induction false} SceneEnergyAfterContact(
    body: PlanarRigidBody, proxies: seq<KinematicCollisionProxy>, i: nat,
    nextBody: PlanarRigidBody, nextProxy: KinematicCollisionProxy)
    requires ValidBody(body) && ValidBody(nextBody) && i < |proxies| && Finite(proxies[i]) && Finite(nextProxy)
    requires PairKineticEnergy(nextBody, nextProxy) <= PairKineticEnergy(body, proxies[i])
    ensures TotalEnergy(nextBody, proxies[i := nextProxy]) <= TotalEnergy(body, proxies)
  {
    hide KineticEnergy, BodyRigid, ProxyRigid;
    EnergiesAfterUpdate(proxies, i, nextProxy);
  }

  // ---- Contacts between two proxies ----

  /** The first proxy of a pair as a solver body; a capsule becomes an unspinnable box of its radius. */
  function ProxyBody(proxy: KinematicCollisionProxy): PlanarRigidBody {
    var box := match proxy.shape
      case Box(prism) => prism
      case Capsule(capsule) =>
        ObbPrism(capsule.center, capsule.centerUp, Vector2(0.0, 1.0), capsule.radius, capsule.radius,
          capsule.halfHeight);
    PlanarRigidBody(proxy.proxyId, box, proxy.velocity, proxy.headingRate, proxy.mass,
      if proxy.shape.Box? then proxy.yawInertia else CAPSULE_BODY_YAW_INERTIA, 0.0)
  }

  /** The proxy takes the solved body's position and motion; a capsule keeps no heading rate. */
  function FromProxyBody(proxy: KinematicCollisionProxy, body: PlanarRigidBody): KinematicCollisionProxy {
    match proxy.shape
    case Box(prism) =>
      proxy.(shape := Box(prism.(center := body.shape.center, forward := body.shape.forward)),
             velocity := body.velocity, headingRate := body.headingRate)
    case Capsule(capsule) =>
      proxy.(shape := Capsule(capsule.(center := body.shape.center)), velocity := body.velocity, headingRate := 0.0)
  }

  lemma {:induction false} NorthIsUnit()
    ensures Unit(Vector2(0.0, 1.0))
  {
    assert Dot(Vector2(0.0, 1.0), Vector2(0.0, 1.0)) == 1.0;
  }

  lemma {:induction false} ProxyBodyIsValid(proxy: KinematicCollisionProxy)
    requires ValidProxy(proxy) && proxy.mass > 0.0
    ensures ValidBody(ProxyBody(proxy))
    ensures Finite(proxy) ==> KineticEnergy(BodyRigid(ProxyBody(proxy))) == KineticEnergy(ProxyRigid(proxy))
  {
    hide Times, Dot, Unit;
    NorthIsUnit();
    TimesZero(0.0);
    TimesZero(CAPSULE_BODY_YAW_INERTIA);
  }

  /** Read as a body again, the proxy is the solved body; only a capsule has lost its spin. */
  lemma {:induction false} FromProxyBodyRoundTrip(proxy: KinematicCollisionProxy, body: PlanarRigidBody)
    requires OnlyMoved(ProxyBody(proxy), body)
    requires body.shape == ProxyBody(proxy).shape.(center := body.shape.center)
    ensures OnlyDriven(proxy, FromProxyBody(proxy, body))
    ensures ProxyBody(FromProxyBody(proxy, body))
         == if proxy.shape.Box? then body else body.(headingRate := 0.0)
  {
    hide Unit;
    if proxy.shape.Box? {
      assert FromProxyBody(proxy, body).shape.prism == body.shape;
    }
  }

  /** Dropping the spin a capsule cannot hold only removes energy. */
  lemma {:induction false} FromProxyBodyEnergy(proxy: KinematicCollisionProxy, body: PlanarRigidBody, shift: Vector2)
    requires ValidProxy(proxy) && proxy.mass > 0.0 && ValidBody(body) && OnlyMoved(ProxyBody(proxy), body)
    requires body.shape == MovedBy(ProxyBody(proxy).shape, shift)
    ensures var next := FromProxyBody(proxy, body);
      && ValidProxy(next) && (Finite(proxy) ==> Finite(next)) && OnlyDriven(proxy, next)
      && next.shape == ShapeMovedBy(proxy.shape, shift)
      && (Finite(proxy) ==> KineticEnergy(ProxyRigid(next)) <= KineticEnergy(BodyRigid(body)))
  {
    hide Times, Dot, Unit, Add;
    if proxy.shape.Capsule? {
      TimesZero(0.0);
      SpinEnergyNotNegative(CAPSULE_BODY_YAW_INERTIA, -body.headingRate);
    }
  }

  lemma {:induction false} SpinEnergyNotNegative(inertia: real, spin: real)
    requires inertia >= 0.0
    ensures Times(inertia, Times(spin, spin)) >= 0.0
  {
    TimesPositive(inertia, Square(spin));
  }

  ghost predicate PairHeld(first: KinematicCollisionProxy, second: KinematicCollisionProxy, manifold: CollisionManifold)
    requires ValidProxy(first) && first.mass > 0.0
  {
    ProxyBodyIsValid(first);
    Held(ProxyBody(first), second, manifold)
  }

  /** The pair's push-out: all of it to the first while the second's base holds, else split by inverse mass. */
  ghost function PairPushOut(
    first: KinematicCollisionProxy, second: KinematicCollisionProxy, manifold: CollisionManifold)
    : (Vector2, Vector2)
    requires ValidProxy(first) && first.mass > 0.0 && second.mass > 0.0
  {
    if PairHeld(first, second, manifold) then (PushOutOf(manifold), ZERO)
    else PairShifts(first.mass, second.mass, manifold)
  }

  /** The same identity, mass and carrier; an anchored proxy may be released, but none is anchored anew. */
  ghost predicate SameRole(proxy: KinematicCollisionProxy, next: KinematicCollisionProxy) {
    && next.proxyId == proxy.proxyId && next.mass == proxy.mass && next.supportedVehicleId == proxy.supportedVehicleId
    && (Anchored(next) ==> Anchored(proxy))
  }

  ghost predicate SameRoles(proxies: seq<KinematicCollisionProxy>, next: seq<KinematicCollisionProxy>) {
    |next| == |proxies| && forall i :: 0 <= i < |proxies| ==> SameRole(proxies[i], next[i])
  }

  lemma RolesAccumulate(
    proxies: seq<KinematicCollisionProxy>, middle: seq<KinematicCollisionProxy>, next: seq<KinematicCollisionProxy>)
    requires SameRoles(proxies, middle) && SameRoles(middle, next)
    ensures SameRoles(proxies, next)
  {
  }

  lemma {:induction false} UnmovedShape(shape: ProxyShape)
    ensures ShapeMovedBy(shape, ZERO) == shape
  {
    hide ZERO;
    if shape.Box? {
      NoMove(shape.prism.center);
    } else {
      NoMove(shape.capsule.center);
    }
  }

  lemma NoMove(v: Vector2)
    ensures Add(v, ZERO) == v
  {
  }

  /** How one pair contact came out: the first as the solved body and as driven by it, the second before its bound. */
  datatype PairSolve = PairSolve(
    body: PlanarRigidBody, driven: KinematicCollisionProxy, rubbed: KinematicCollisionProxy, impulse: real,
    tangentImpulse: real)

  /**
   * What a pair contact does to both motions: the finite contact law with the first proxy as the body, which then
   * bounds its speed.
   */
  ghost predicate PairLaw(
    first: KinematicCollisionProxy, second: KinematicCollisionProxy, manifold: CollisionManifold, solve: PairSolve,
    nextFirst: KinematicCollisionProxy, nextSecond: KinematicCollisionProxy, hypot: (real, real) -> real)
    requires ValidProxy(first) && first.mass > 0.0 && second.mass > 0.0
  {
    hide *;
    ProxyBodyIsValid(first);
    var body := ProxyBody(first);
    && ValidBody(solve.body) && OnlyDriven(first, solve.driven)
    && FiniteOutcome(body, second, manifold, solve.body, nextSecond, solve.impulse)
    && FiniteLaw(body, second, manifold, solve.body, nextSecond, solve.rubbed, solve.impulse, solve.tangentImpulse,
         hypot)
    && ProxyBody(solve.driven) == (if first.shape.Box? then solve.body else solve.body.(headingRate := 0.0))
    && nextFirst
       == ClampFiniteProxySpeed(solve.driven, hypot(solve.driven.velocity.east, solve.driven.velocity.north))
  }

  /** One pair contact: the first proxy plays the body, and both speeds end within their bounds. */
  method ResolvePair(
    first: KinematicCollisionProxy, second: KinematicCollisionProxy, manifold: CollisionManifold,
    hypot: (real, real) -> real)
    returns (nextFirst: KinematicCollisionProxy, nextSecond: KinematicCollisionProxy, impulse: real,
             ghost solve: PairSolve)
    requires ValidProxy(first) && ValidProxy(second) && first.mass > 0.0 && second.mass > 0.0 && Unit(manifold.normal)
    ensures ValidProxy(nextFirst) && OnlyDriven(first, nextFirst)
    ensures ValidProxy(nextSecond) && SameRole(first, nextFirst) && SameRole(second, nextSecond)
    ensures nextFirst.mass == first.mass && nextSecond.mass == second.mass
    ensures Finite(first) && Finite(second) ==>
      && Finite(nextFirst) && Finite(nextSecond)
      && ProxyEnergy(nextFirst) + ProxyEnergy(nextSecond) <= ProxyEnergy(first) + ProxyEnergy(second)
    ensures var shifts := PairPushOut(first, second, manifold);
      nextFirst.shape == ShapeMovedBy(first.shape, shifts.0) && nextSecond.shape == ShapeMovedBy(second.shape, shifts.1)
    ensures PairHeld(first, second, manifold) ==>
      nextSecond == second.(breakawayImpulse := second.breakawayImpulse - impulse) && Anchored(nextSecond)
    ensures Anchored(second) && !PairHeld(first, second, manifold) ==> nextSecond.breakawayReleased
    ensures impulse >= 0.0 && solve.impulse == impulse
    ensures PairLaw(first, second, manifold, solve, nextFirst, nextSecond, hypot)
    ensures !Anchored(second) ==>
      LinearMomentum(ProxyBody(solve.driven), solve.rubbed) == LinearMomentum(ProxyBody(first), second)
  {
    hide Unit, KineticEnergy, NormalMomentum, PairShifts, ClampFiniteProxySpeed, RequiredImpulse,
      BodyRigid, ProxyRigid, FromProxyBody, ShapeMovedBy, PushOutOf, Multiply, FiniteLaw, Add;
    ProxyBodyIsValid(first);
    var body := ProxyBody(first);
    ghost var rubbed, tangentImpulse;
    var solved;
    solved, nextSecond, impulse, tangentImpulse, rubbed := ResolveFiniteProxyContact(body, second, manifold, hypot);
    ghost var shift := PairPushOut(first, second, manifold).0;
    UnmovedShape(second.shape);
    FromProxyBodyEnergy(first, solved, shift);
    FromProxyBodyRoundTrip(first, solved);
    var driven := FromProxyBody(first, solved);
    solve := PairSolve(solved, driven, rubbed, impulse, tangentImpulse);
    SpeedClampEnergy(driven, hypot(driven.velocity.east, driven.velocity.north));
    nextFirst := ClampFiniteProxySpeed(driven, hypot(driven.velocity.east, driven.velocity.north));
  }

  type ContactBook = map<(string, string), CollisionContact>

  /** Both partners of every pair contact record the same impulse, with opposite normals. */
  ghost predicate Reciprocal(book: ContactBook) {
    forall a, b :: (a, b) in book ==>
      && (b, a) in book
      && book[(a, b)].accumulatedImpulse == book[(b, a)].accumulatedImpulse
      && book[(a, b)].normal == Multiply(book[(b, a)].normal, -1.0)
      && book[(a, b)].contactPoint == book[(b, a)].contactPoint
      && book[(a, b)].maximumPenetration == book[(b, a)].maximumPenetration
  }

  function Accumulated(
    book: ContactBook, receiver: string, other: string, normal: Vector2, manifold: CollisionManifold, impulse: real)
    : CollisionContact
  {
    var before := if (receiver, other) in book then book[(receiver, other)]
                  else CollisionContact(other, ZERO, ZERO, 0.0, 0.0);
    CollisionContact(other, normal, manifold.contactPoint,
      Max(before.maximumPenetration, manifold.penetration), before.accumulatedImpulse + impulse)
  }

  /** One pair contact is filed under both partners and nothing else changes; the second's entry mirrors the first's. */
  ghost predicate Filed(
    book: ContactBook, first: string, second: string, manifold: CollisionManifold, impulse: real, next: ContactBook)
  {
    && next.Keys == book.Keys + {(first, second), (second, first)}
    && next[(first, second)] == Accumulated(book, first, second, manifold.normal, manifold, impulse)
    && Reciprocal(next)
    && forall key :: key in book && key != (first, second) && key != (second, first) ==> next[key] == book[key]
  }

  /** Files one pair contact under both partners. */
  method AccumulatePair(book: ContactBook, first: string, second: string, manifold: CollisionManifold, impulse: real)
    returns (next: ContactBook)
    requires Reciprocal(book) && first != second
    ensures Filed(book, first, second, manifold, impulse, next) && Reciprocal(next)
  {
    hide Multiply;
    DoubleFlip(manifold.normal);
    var opposite := Multiply(manifold.normal, -1.0);
    next := book[(first, second) := Accumulated(book, first, second, manifold.normal, manifold, impulse)];
    next := next[(second, first) := Accumulated(book, second, first, opposite, manifold, impulse)];
  }

  ghost predicate DistinctIds(proxies: seq<KinematicCollisionProxy>) {
    forall i, j :: 0 <= i < j < |proxies| ==> proxies[i].proxyId != proxies[j].proxyId
  }

  function BoundedRate(proxy: KinematicCollisionProxy): KinematicCollisionProxy {
    if proxy.shape.Box? && proxy.mass > 0.0
    then proxy.(headingRate := Clamp(proxy.headingRate,
           -MAXIMUM_FINITE_PROXY_HEADING_RATE_RAD_S, MAXIMUM_FINITE_PROXY_HEADING_RATE_RAD_S))
    else proxy
  }

  function BoundedRates(proxies: seq<KinematicCollisionProxy>): (bounded: seq<KinematicCollisionProxy>)
    ensures |bounded| == |proxies| && forall i :: 0 <= i < |proxies| ==> bounded[i] == BoundedRate(proxies[i])
  {
    seq(|proxies|, i requires 0 <= i < |proxies| => BoundedRate(proxies[i]))
  }

  /** Bounds the heading rate of every finite box, as validation does before each pair solve. */
  method ClampHeadingRates(proxies: seq<KinematicCollisionProxy>) returns (clamped: seq<KinematicCollisionProxy>)
    requires AllValid(proxies) && DistinctIds(proxies)
    ensures |clamped| == |proxies| && AllValid(clamped) && DistinctIds(clamped) && SameRoles(proxies, clamped)
    ensures AllFinite(proxies) ==> AllFinite(clamped) && ProxyEnergies(clamped) <= ProxyEnergies(proxies)
    ensures clamped == BoundedRates(proxies)
  {
    hide ProxyEnergies, KineticEnergy;
    clamped := proxies;
    for i := 0 to |proxies|
      invariant |clamped| == |proxies|
      invariant forall k :: 0 <= k < |proxies| ==> clamped[k] == if k < i then BoundedRate(proxies[k]) else proxies[k]
      invariant AllValid(clamped) && DistinctIds(clamped) && SameRoles(proxies, clamped)
      invariant AllFinite(proxies) ==> AllFinite(clamped) && ProxyEnergies(clamped) <= ProxyEnergies(proxies)
    {
      var proxy := clamped[i];
      if proxy.shape.Box? && proxy.mass > 0.0 {
        var bounded := BoundedRate(proxy);
        BoundedSpin(ProxyRigid(proxy), MAXIMUM_FINITE_PROXY_HEADING_RATE_RAD_S);
        EnergiesAfterUpdate(clamped, i, bounded);
        clamped := clamped[i := bounded];
      }
    }
  }

  lemma {:induction false} PairUpdate(
    proxies: seq<KinematicCollisionProxy>, i: nat, j: nat, first: KinematicCollisionProxy,
    second: KinematicCollisionProxy)
    requires i < |proxies| && j < |proxies| && i != j && AllValid(proxies) && DistinctIds(proxies)
    requires ValidProxy(first) && ValidProxy(second)
    requires SameRole(proxies[i], first) && SameRole(proxies[j], second)
    ensures var next := proxies[i := first][j := second];
      && AllValid(next) && DistinctIds(next) && SameRoles(proxies, next)
      && (AllFinite(proxies) && Finite(first) && Finite(second) ==> AllFinite(next))
      && ProxyEnergies(next) == ProxyEnergies(proxies) - ProxyEnergy(proxies[i]) - ProxyEnergy(proxies[j])
                                + ProxyEnergy(first) + ProxyEnergy(second)
  {
    hide ProxyEnergy, ProxyEnergies, ValidProxy;
    EnergiesAfterUpdate(proxies, i, first);
    EnergiesAfterUpdate(proxies[i := first], j, second);
  }

  /** The order in which a pair is solved: an anchored first proxy changes places with the second. */
  function PairOrder(proxies: seq<KinematicCollisionProxy>, a: nat, b: nat): (nat, nat)
    requires a < |proxies| && b < |proxies|
  {
    if Anchored(proxies[a]) then (b, a) else (a, b)
  }

  /**
   * The guards of the pair loop: the first proxy in the list and the second in the solve have mass, not both are
   * anchored.
   */
  predicate TakesPart(proxies: seq<KinematicCollisionProxy>, a: nat, b: nat)
    requires a < |proxies| && b < |proxies|
  {
    var order := PairOrder(proxies, a, b);
    var first, second := proxies[order.0], proxies[order.1];
    && proxies[a].mass > 0.0 && !(Anchored(proxies[a]) && Anchored(proxies[b])) && second.mass > 0.0
    && first.supportedVehicleId != second.proxyId && second.supportedVehicleId != first.proxyId
  }

  /** An anchored proxy against a later one with prescribed motion: the guards let it through without a mass. */
  predicate ZeroMassPair(proxies: seq<KinematicCollisionProxy>, a: nat, b: nat)
    requires a < |proxies| && b < |proxies|
  {
    && Anchored(proxies[a]) && proxies[b].mass == 0.0
    && proxies[a].supportedVehicleId != proxies[b].proxyId && proxies[b].supportedVehicleId != proxies[a].proxyId
  }

  /** Exactly these pairs reach the solve with nothing to divide by. */
  lemma {:induction false} ZeroMassExactly(proxies: seq<KinematicCollisionProxy>, a: nat, b: nat)
    requires a < |proxies| && b < |proxies| && AllValid(proxies)
    ensures TakesPart(proxies, a, b) && proxies[PairOrder(proxies, a, b).0].mass == 0.0 <==> ZeroMassPair(proxies, a, b)
    ensures TakesPart(proxies, a, b) ==> proxies[PairOrder(proxies, a, b).1].mass > 0.0
  {
    assert ValidProxy(proxies[a]) && ValidProxy(proxies[b]);
  }

  ghost predicate NoZeroMassPairs(proxies: seq<KinematicCollisionProxy>) {
    forall a: nat, b: nat :: a < b < |proxies| ==> !ZeroMassPair(proxies, a, b)
  }

  lemma {:induction false} RolesKeepMasses(proxies: seq<KinematicCollisionProxy>, next: seq<KinematicCollisionProxy>)
    requires SameRoles(proxies, next)
    ensures NoZeroMassPairs(proxies) ==> NoZeroMassPairs(next)
    ensures DistinctIds(proxies) ==> DistinctIds(next)
  {
    forall a: nat, b: nat | a < b < |proxies|
      ensures ZeroMassPair(next, a, b) ==> ZeroMassPair(proxies, a, b)
    {
      assert SameRole(proxies[a], next[a]) && SameRole(proxies[b], next[b]);
    }
  }

  lemma FiniteHaveMasses(proxies: seq<KinematicCollisionProxy>)
    requires AllFinite(proxies)
    ensures NoZeroMassPairs(proxies)
  {
  }

  /** The contact of a pair that takes part. */
  function PairManifold(proxies: seq<KinematicCollisionProxy>, a: nat, b: nat, hypot: (real, real) -> real)
    : Option<CollisionManifold>
    requires a < |proxies| && b < |proxies| && AllValid(proxies)
  {
    if !TakesPart(proxies, a, b) then None
    else
      var order := PairOrder(proxies, a, b);
      var first, second := proxies[order.0], proxies[order.1];
      IntersectShapes(first.shape, second.shape, Subtract(first.velocity, second.velocity), hypot)
  }

  /** A contact that the solve cannot take: its body has no mass. */
  ghost predicate Undefined(proxies: seq<KinematicCollisionProxy>, a: nat, b: nat, hypot: (real, real) -> real)
    requires a < |proxies| && b < |proxies| && AllValid(proxies)
  {
    ZeroMassPair(proxies, a, b) && PairManifold(proxies, a, b, hypot).Some?
  }

  /** No pair of one of the first `n` proxies with a later one is in contact. */
  ghost predicate RowsClear(proxies: seq<KinematicCollisionProxy>, n: nat, hypot: (real, real) -> real)
    requires n <= |proxies| && AllValid(proxies)
  {
    forall a: nat, b: nat :: a < n && a < b < |proxies| ==> PairManifold(proxies, a, b, hypot).None?
  }

  /** The proxies and the pair contacts filed so far. */
  datatype Pairing = Pairing(proxies: seq<KinematicCollisionProxy>, book: ContactBook)

  /** What visiting one pair does: nothing without a contact, otherwise the pair's law and one filing. */
  ghost predicate PairStep(
    before: Pairing, a: nat, b: nat, solve: PairSolve, after: Pairing, hypot: (real, real) -> real)
    requires a < b < |before.proxies| && AllValid(before.proxies)
  {
    var found := PairManifold(before.proxies, a, b, hypot);
    if found.None? then after == before
    else
      var order := PairOrder(before.proxies, a, b);
      var first, second := before.proxies[order.0], before.proxies[order.1];
      && first.mass > 0.0 && second.mass > 0.0 && |after.proxies| == |before.proxies|
      && after.proxies
         == before.proxies[order.0 := after.proxies[order.0]][order.1 := after.proxies[order.1]]
      && PairLaw(first, second, found.value, solve, after.proxies[order.0], after.proxies[order.1], hypot)
      && Filed(before.book, first.proxyId, second.proxyId, found.value, solve.impulse, after.book)
  }

  lemma IdleStep(before: Pairing, a: nat, b: nat, solve: PairSolve, hypot: (real, real) -> real)
    requires a < b < |before.proxies| && AllValid(before.proxies)
    requires PairManifold(before.proxies, a, b, hypot).None?
    ensures PairStep(before, a, b, solve, before, hypot)
  {
  }

  lemma {:induction false} SolvedStep(
    before: Pairing, a: nat, b: nat, manifold: CollisionManifold, solve: PairSolve,
    nextFirst: KinematicCollisionProxy, nextSecond: KinematicCollisionProxy, after: Pairing,
    hypot: (real, real) -> real)
    requires a < b < |before.proxies| && AllValid(before.proxies)
    requires PairManifold(before.proxies, a, b, hypot) == Some(manifold)
    requires var order := PairOrder(before.proxies, a, b);
      var first, second := before.proxies[order.0], before.proxies[order.1];
      && first.mass > 0.0 && second.mass > 0.0 && PairLaw(first, second, manifold, solve, nextFirst, nextSecond, hypot)
      && after.proxies == before.proxies[order.0 := nextFirst][order.1 := nextSecond]
      && Filed(before.book, first.proxyId, second.proxyId, manifold, solve.impulse, after.book)
    ensures PairStep(before, a, b, solve, after, hypot)
  {
    hide PairManifold, PairLaw, Filed, AllValid;
    var order := PairOrder(before.proxies, a, b);
    assert after.proxies[order.0] == nextFirst && after.proxies[order.1] == nextSecond;
  }

  /** Stands in for the outcome of a visit that finds no contact. */
  function NoSolve(proxy: KinematicCollisionProxy): PairSolve {
    PairSolve(ProxyBody(proxy), proxy, proxy, 0.0, 0.0)
  }

  /** One visit of a pair, with the state before it. */
  datatype PairVisit = PairVisit(before: Pairing, solve: PairSolve)

  /** The state before visit `k`, or at the end of the row. */
  function BeforeVisit(row: seq<PairVisit>, k: nat, end: Pairing): Pairing {
    if k < |row| then row[k].before else end
  }

  /** Proxy `a` meets the proxies after it one by one. */
  ghost predicate LawfulRow(
    start: Pairing, a: nat, row: seq<PairVisit>, end: Pairing, hypot: (real, real) -> real)
  {
    && BeforeVisit(row, 0, end) == start
    && forall k: nat :: k < |row| ==>
      && AllValid(row[k].before.proxies) && a + 1 + k < |row[k].before.proxies|
      && PairStep(row[k].before, a, a + 1 + k, row[k].solve, BeforeVisit(row, k + 1, end), hypot)
  }

  lemma {:induction false} LongerRow(
    start: Pairing, a: nat, row: seq<PairVisit>, last: PairVisit, end: Pairing, hypot: (real, real) -> real)
    requires LawfulRow(start, a, row, last.before, hypot)
    requires AllValid(last.before.proxies) && a + 1 + |row| < |last.before.proxies|
    requires PairStep(last.before, a, a + 1 + |row|, last.solve, end, hypot)
    ensures LawfulRow(start, a, row + [last], end, hypot)
  {
    hide PairStep, AllValid;
    var longer := row + [last];
    forall k: nat | k < |longer|
      ensures AllValid(longer[k].before.proxies) && a + 1 + k < |longer[k].before.proxies|
      ensures PairStep(longer[k].before, a, a + 1 + k, longer[k].solve, BeforeVisit(longer, k + 1, end), hypot)
    {
      if k < |row| {
        assert BeforeVisit(longer, k + 1, end) == BeforeVisit(row, k + 1, last.before);
      }
    }
  }

  /** Visits that find no contact. */
  lemma {:induction false} IdleRow(
    start: Pairing, a: nat, row: seq<PairVisit>, visit: PairVisit, hypot: (real, real) -> real)
    requires AllValid(start.proxies) && a + |row| < |start.proxies| && visit.before == start
    requires forall k: nat :: k < |row| ==> row[k] == visit
    requires forall b: nat :: a < b < |start.proxies| ==> PairManifold(start.proxies, a, b, hypot).None?
    ensures LawfulRow(start, a, row, start, hypot)
  {
    hide PairManifold, AllValid;
  }

  /** One pass as recorded: the row of every proxy, with the state before it. */
  datatype PairRow = PairRow(before: Pairing, visits: seq<PairVisit>)

  function BeforeRow(rows: seq<PairRow>, a: nat, end: Pairing): Pairing {
    if a < |rows| then rows[a].before else end
  }

  /** Some pair of proxy `a` with a later one is in contact before its row. */
  ghost predicate RowTouches(proxies: seq<KinematicCollisionProxy>, a: nat, hypot: (real, real) -> real) {
    AllValid(proxies) && exists b: nat :: a < b < |proxies| && PairManifold(proxies, a, b, hypot).Some?
  }

  /** Every proxy in turn meets all the later ones. */
  ghost predicate LawfulRows(start: Pairing, rows: seq<PairRow>, end: Pairing, hypot: (real, real) -> real) {
    && BeforeRow(rows, 0, end) == start
    && forall a: nat :: a < |rows| ==>
      && |rows[a].visits| == |start.proxies| - a - 1
      && LawfulRow(rows[a].before, a, rows[a].visits, BeforeRow(rows, a + 1, end), hypot)
  }

  lemma {:induction false} LongerRows(
    start: Pairing, rows: seq<PairRow>, last: PairRow, end: Pairing, hypot: (real, real) -> real)
    requires LawfulRows(start, rows, last.before, hypot) && |last.visits| == |start.proxies| - |rows| - 1
    requires LawfulRow(last.before, |rows|, last.visits, end, hypot)
    ensures LawfulRows(start, rows + [last], end, hypot)
  {
    hide LawfulRow;
    var longer := rows + [last];
    forall a: nat | a < |longer|
      ensures |longer[a].visits| == |start.proxies| - a - 1
      ensures LawfulRow(longer[a].before, a, longer[a].visits, BeforeRow(longer, a + 1, end), hypot)
    {
      if a < |rows| {
        assert BeforeRow(longer, a + 1, end) == BeforeRow(rows, a + 1, last.before);
      }
    }
  }

  /** Some row of the pass found a contact. */
  ghost predicate PassTouches(rows: seq<PairRow>, hypot: (real, real) -> real) {
    exists a: nat :: a < |rows| && RowTouches(rows[a].before.proxies, a, hypot)
  }

  lemma {:induction false} OneMoreRow(rows: seq<PairRow>, last: PairRow, hypot: (real, real) -> real)
    ensures PassTouches(rows + [last], hypot)
       <==> PassTouches(rows, hypot) || RowTouches(last.before.proxies, |rows|, hypot)
  {
    hide RowTouches;
    var longer := rows + [last];
    assert longer[|rows|] == last;
    assert forall a: nat :: a < |rows| ==> longer[a] == rows[a];
  }

  /** The whole pair solve as recorded: each pass with the state before it. */
  datatype PairPass = PairPass(before: Pairing, rows: seq<PairRow>)

  function BeforePass(passes: seq<PairPass>, k: nat, end: Pairing): Pairing {
    if k < |passes| then passes[k].before else end
  }

  /** Passes over all pairs follow each other, every one but the last having found a contact. */
  ghost predicate LawfulPairPasses(
    start: Pairing, passes: seq<PairPass>, end: Pairing, hypot: (real, real) -> real)
  {
    && BeforePass(passes, 0, end) == start
    && (forall k: nat :: k < |passes| ==>
      && |passes[k].rows| == |start.proxies|
      && LawfulRows(passes[k].before, passes[k].rows, BeforePass(passes, k + 1, end), hypot))
    && forall k: nat :: k < |passes| - 1 ==> PassTouches(passes[k].rows, hypot)
  }

  lemma {:induction false} LongerPairPasses(
    start: Pairing, passes: seq<PairPass>, last: PairPass, end: Pairing, hypot: (real, real) -> real)
    requires LawfulPairPasses(start, passes, last.before, hypot) && |last.rows| == |start.proxies|
    requires LawfulRows(last.before, last.rows, end, hypot)
    requires passes != [] ==> PassTouches(passes[|passes| - 1].rows, hypot)
    ensures LawfulPairPasses(start, passes + [last], end, hypot)
  {
    hide LawfulRows, PassTouches;
    var longer := passes + [last];
    forall k: nat | k < |longer|
      ensures |longer[k].rows| == |start.proxies|
      ensures LawfulRows(longer[k].before, longer[k].rows, BeforePass(longer, k + 1, end), hypot)
    {
      if k < |passes| {
        assert BeforePass(longer, k + 1, end) == BeforePass(passes, k + 1, last.before);
      }
    }
    forall k: nat | k < |longer| - 1
      ensures PassTouches(longer[k].rows, hypot)
    {
      assert longer[k] == passes[k];
    }
  }

  /** One to four passes: the fourth is the last, and so is one that found no contact. */
  ghost predicate AllPairPasses(passes: seq<PairPass>, hypot: (real, real) -> real) {
    && 1 <= |passes| <= PAIR_PASSES
    && (|passes| == PAIR_PASSES || !PassTouches(passes[|passes| - 1].rows, hypot))
  }

  /**
   * Up to four passes over every pair; a pass that changes nothing leaves every pair apart. A contact without a mass to
   * divide by ends the solve, which only happens when the list has such a pair from the start.
   */
  method ResolveRuntimeProxyPairs(proxies: seq<KinematicCollisionProxy>, hypot: (real, real) -> real)
    returns (next: seq<KinematicCollisionProxy>, book: ContactBook, defined: bool, ghost settled: bool,
             ghost passes: seq<PairPass>)
    requires IsHypot(hypot) && AllValid(proxies) && DistinctIds(proxies)
    ensures AllValid(next) && DistinctIds(next) && SameRoles(proxies, next)
    ensures AllFinite(proxies) ==> AllFinite(next) && ProxyEnergies(next) <= ProxyEnergies(proxies)
    ensures Reciprocal(book)
    ensures settled ==> defined && RowsClear(next, |next|, hypot)
    ensures NoZeroMassPairs(proxies) || AllFinite(proxies) ==> defined
    ensures !defined ==> exists a: nat, b: nat :: a < b < |next| && Undefined(next, a, b, hypot)
    ensures AllValid(BoundedRates(proxies)) && (RowsClear(BoundedRates(proxies), |proxies|, hypot) ==>
      settled && next == BoundedRates(proxies) && book == map[])
    ensures defined ==>
      && AllPairPasses(passes, hypot) && (settled <==> !PassTouches(passes[|passes| - 1].rows, hypot))
      && LawfulPairPasses(Pairing(BoundedRates(proxies), map[]), passes, Pairing(next, book), hypot)
  {
    hide LawfulRow, LawfulRows, LawfulPairPasses, PassTouches, RowTouches, PairManifold, Reciprocal, ProxyEnergies,
      SameRoles, ZeroMassPair, NoZeroMassPairs, Undefined, BoundedRates;
    if AllFinite(proxies) {
      FiniteHaveMasses(proxies);
    }
    next := ClampHeadingRates(proxies);
    ghost var start := next;
    book, defined, passes := map[], true, [];
    EmptyBookIsReciprocal();
    NoPassesYet(Pairing(next, book), hypot);
    RolesKeepMasses(proxies, next);
    var pass := 0;
    var changed := true;
    while pass < PAIR_PASSES && changed && defined
      invariant |next| == |proxies| && AllValid(next) && DistinctIds(next) && SameRoles(proxies, next)
        && Reciprocal(book)
      invariant AllFinite(proxies) ==> AllFinite(next) && ProxyEnergies(next) <= ProxyEnergies(proxies)
      invariant !changed ==> defined && RowsClear(next, |next|, hypot)
      invariant NoZeroMassPairs(proxies) ==> defined && NoZeroMassPairs(next)
      invariant !defined ==> exists a: nat, b: nat :: a < b < |next| && Undefined(next, a, b, hypot)
      invariant RowsClear(start, |start|, hypot) ==> next == start && book == map[] && (pass > 0 ==> !changed)
      invariant pass == 0 ==> changed && defined
      invariant defined ==> |passes| == pass <= PAIR_PASSES
      invariant defined && pass > 0 ==> (changed <==> PassTouches(passes[pass - 1].rows, hypot))
      invariant defined ==> LawfulPairPasses(Pairing(start, map[]), passes, Pairing(next, book), hypot)
      decreases PAIR_PASSES - pass
    {
      ghost var passStart := Pairing(next, book);
      ghost var rows: seq<PairRow> := [];
      NoRowsYet(passStart, hypot);
      changed := false;
      var a := 0;
      while a < |next| && defined
        invariant 0 <= a <= |next| == |proxies|
        invariant AllValid(next) && DistinctIds(next) && SameRoles(proxies, next) && Reciprocal(book)
        invariant AllFinite(proxies) ==> AllFinite(next) && ProxyEnergies(next) <= ProxyEnergies(proxies)
        invariant !changed ==> defined && RowsClear(next, a, hypot)
        invariant NoZeroMassPairs(proxies) ==> defined && NoZeroMassPairs(next)
        invariant !defined ==> exists c: nat, b: nat :: c < b < |next| && Undefined(next, c, b, hypot)
        invariant RowsClear(start, |start|, hypot) ==> next == start && book == map[] && !changed
        invariant defined ==> |rows| == a && (changed <==> PassTouches(rows, hypot))
        invariant defined ==> LawfulRows(passStart, rows, Pairing(next, book), hypot)
        decreases |next| - a
      {
        var touched;
        ghost var before, earlier := next, book;
        ghost var visits;
        next, book, touched, defined, visits := ResolvePairsOf(next, a, book, hypot);
        RolesAccumulate(proxies, before, next);
        RolesKeepMasses(before, next);
        changed := changed || touched;
        if defined {
          ghost var row := PairRow(Pairing(before, earlier), visits);
          LongerRows(passStart, rows, row, Pairing(next, book), hypot);
          OneMoreRow(rows, row, hypot);
          rows := rows + [row];
        }
        a := a + 1;
      }
      pass := pass + 1;
      if defined {
        LongerPairPasses(Pairing(start, map[]), passes, PairPass(passStart, rows), Pairing(next, book), hypot);
        passes := passes + [PairPass(passStart, rows)];
      }
    }
    settled := !changed;
  }

  lemma NoVisitsYet(start: Pairing, a: nat, hypot: (real, real) -> real)
    ensures LawfulRow(start, a, [], start, hypot)
  {
  }

  lemma NoRowsYet(start: Pairing, hypot: (real, real) -> real)
    ensures LawfulRows(start, [], start, hypot) && !PassTouches([], hypot)
  {
  }

  lemma NoPassesYet(start: Pairing, hypot: (real, real) -> real)
    ensures LawfulPairPasses(start, [], start, hypot)
  {
  }

  lemma EmptyBookIsReciprocal()
    ensures Reciprocal(map[])
  {
  }

  /** One visit of a pair; a contact without a mass to divide by changes nothing and is not defined. */
  method VisitPair(
    proxies: seq<KinematicCollisionProxy>, a: nat, b: nat, recorded: ContactBook, hypot: (real, real) -> real)
    returns (next: seq<KinematicCollisionProxy>, book: ContactBook, touched: bool, defined: bool,
             ghost solve: PairSolve)
    requires IsHypot(hypot) && AllValid(proxies) && DistinctIds(proxies) && a < b < |proxies| && Reciprocal(recorded)
    requires proxies[a].mass > 0.0
    ensures AllValid(next) && DistinctIds(next) && SameRoles(proxies, next) && Reciprocal(book)
    ensures AllFinite(proxies) ==> AllFinite(next) && ProxyEnergies(next) <= ProxyEnergies(proxies)
    ensures touched <==> PairManifold(proxies, a, b, hypot).Some?
    ensures !defined ==> next == proxies && book == recorded
    ensures !defined <==> Undefined(proxies, a, b, hypot)
    ensures defined ==> PairStep(Pairing(proxies, recorded), a, b, solve, Pairing(next, book), hypot)
  {
    hide KineticEnergy, ProxyEnergies, IntersectShapes, PairPushOut, PairHeld, ShapeMovedBy, Reciprocal, Unit,
      ProxyEnergy, SameRole, PairLaw, Filed, PairStep, ProxyBody, OnlyDriven, LinearMomentum;
    next, book, touched, defined := proxies, recorded, false, true;
    solve := NoSolve(proxies[a]);
    SelfRoles(proxies);
    ghost var before, found := Pairing(proxies, recorded), PairManifold(proxies, a, b, hypot);
    if found.None? {
      IdleStep(before, a, b, solve, hypot);
    }
    if Anchored(next[a]) && Anchored(next[b]) {
      assert found.None?;
      return;
    }
    var i, j := if Anchored(next[a]) then b else a, if Anchored(next[a]) then a else b;
    var first, second := next[i], next[j];
    if second.mass <= 0.0
       || first.supportedVehicleId == second.proxyId || second.supportedVehicleId == first.proxyId {
      assert found.None?;
      return;
    }
    var relative := Subtract(first.velocity, second.velocity);
    var manifold := IntersectShapes(first.shape, second.shape, relative, hypot);
    assert found == manifold;
    if manifold.None? {
      return;
    }
    touched := true;
    if first.mass == 0.0 {
      ZeroMassExactly(next, a, b);
      defined := false;
      return;
    }
    PositiveMass(first);
    ShapeNormalIsUnit(first.shape, second.shape, relative, hypot);
    var nextFirst, nextSecond, impulse;
    nextFirst, nextSecond, impulse, solve := ResolvePair(first, second, manifold.value, hypot);
    PairUpdate(next, i, j, nextFirst, nextSecond);
    next := next[i := nextFirst][j := nextSecond];
    book := AccumulatePair(book, first.proxyId, second.proxyId, manifold.value, impulse);
    SolvedStep(before, a, b, manifold.value, solve, nextFirst, nextSecond, Pairing(next, book), hypot);
  }

  /** The inner loop of one pass: proxy `a` against every later proxy, as far as there is a mass to divide by. */
  method ResolvePairsOf(
    proxies: seq<KinematicCollisionProxy>, a: nat, recorded: ContactBook, hypot: (real, real) -> real)
    returns (next: seq<KinematicCollisionProxy>, book: ContactBook, changed: bool, defined: bool,
             ghost visits: seq<PairVisit>)
    requires IsHypot(hypot) && AllValid(proxies) && DistinctIds(proxies) && a < |proxies| && Reciprocal(recorded)
    ensures |next| == |proxies| && AllValid(next) && DistinctIds(next) && SameRoles(proxies, next) && Reciprocal(book)
    ensures AllFinite(proxies) ==> AllFinite(next) && ProxyEnergies(next) <= ProxyEnergies(proxies)
    ensures !changed ==> next == proxies && book == recorded && defined
    ensures !changed <==> forall b: nat :: a < b < |proxies| ==> PairManifold(proxies, a, b, hypot).None?
    ensures !defined ==> exists b: nat :: a < b < |next| && Undefined(next, a, b, hypot)
    ensures NoZeroMassPairs(proxies) ==> defined
    ensures changed <==> RowTouches(proxies, a, hypot)
    ensures defined ==>
      |visits| == |proxies| - a - 1 && LawfulRow(Pairing(proxies, recorded), a, visits, Pairing(next, book), hypot)
  {
    hide ProxyEnergies, Reciprocal, SameRole, LawfulRow, PairManifold, ZeroMassPair, DistinctIds;
    next, book, changed, defined := proxies, recorded, false, true;
    ghost var start := Pairing(proxies, recorded);
    SelfRoles(proxies);
    if next[a].mass <= 0.0 {
      ghost var idle := PairVisit(start, NoSolve(proxies[a]));
      visits := seq(|proxies| - a - 1, _ => idle);
      NoMassNoPairs(proxies, a, hypot);
      IdleRow(start, a, visits, idle, hypot);
      return;
    }
    visits := [];
    NoVisitsYet(start, a, hypot);
    for b := a + 1 to |next|
      invariant AllValid(next) && DistinctIds(next) && SameRoles(proxies, next) && Reciprocal(book)
        && next[a].mass > 0.0
      invariant AllFinite(proxies) ==> AllFinite(next) && ProxyEnergies(next) <= ProxyEnergies(proxies)
      invariant !changed ==> next == proxies && book == recorded
      invariant !changed <==> forall k: nat :: a < k < b ==> PairManifold(proxies, a, k, hypot).None?
      invariant |visits| == b - a - 1 && LawfulRow(start, a, visits, Pairing(next, book), hypot)
    {
      ghost var before, earlier, solve := next, Pairing(next, book), NoSolve(next[a]);
      var touched;
      next, book, touched, defined, solve := VisitPair(next, a, b, book, hypot);
      RolesAccumulate(proxies, before, next);
      RolesKeepMasses(proxies, before);
      SameRoleKeepsMass(before[a], next[a]);
      changed := changed || touched;
      if !defined {
        return;
      }
      LongerRow(start, a, visits, PairVisit(earlier, solve), Pairing(next, book), hypot);
      visits := visits + [PairVisit(earlier, solve)];
    }
  }

  /** Without a mass of its own a proxy takes part in no pair. */
  lemma {:induction false} NoMassNoPairs(proxies: seq<KinematicCollisionProxy>, a: nat, hypot: (real, real) -> real)
    requires AllValid(proxies) && a < |proxies| && proxies[a].mass <= 0.0
    ensures forall b: nat :: a < b < |proxies| ==> PairManifold(proxies, a, b, hypot).None?
  {
    hide IntersectShapes;
    forall b: nat | a < b < |proxies|
      ensures PairManifold(proxies, a, b, hypot).None?
    {
      assert !TakesPart(proxies, a, b);
    }
  }

  lemma SameRoleKeepsMass(proxy: KinematicCollisionProxy, next: KinematicCollisionProxy)
    requires SameRole(proxy, next)
    ensures next.mass == proxy.mass
  {
  }

  lemma SelfRoles(proxies: seq<KinematicCollisionProxy>)
    ensures SameRoles(proxies, proxies)
  {
  }

  lemma PositiveMass(proxy: KinematicCollisionProxy)
    requires ValidProxy(proxy) && proxy.mass != 0.0
    ensures proxy.mass > 0.0
  {
  }

  const UNIT_BOX := ObbPrism(ZERO, 0.0, Vector2(0.0, 1.0), 1.0, 1.0, 1.0)

  /** An anchored pole, and an obstacle of prescribed motion that stands on the same spot. */
  const POLE := KinematicCollisionProxy(
    "a", Box(UNIT_BOX), ZERO, 0.0, CollisionMaterial(0.5, 0.0), 180.0, 10.0, 60.0, false, 1000.0, false, "")
  const WALKER := KinematicCollisionProxy(
    "b", Box(UNIT_BOX), ZERO, 0.0, CollisionMaterial(0.5, 0.0), 0.0, 0.0, 0.0, false, 0.0, false, "")

  lemma NoOffset(axis: Vector2)
    ensures Dot(Subtract(ZERO, ZERO), axis) == 0.0
  {
  }

  lemma {:induction false} CentreIsInside()
    ensures Inside(UNIT_BOX, ZERO) && VerticalOverlap(0.0, 1.0, 0.0, 1.0) > 0.0
  {
    hide Dot, Subtract, Right;
    NoOffset(UNIT_BOX.forward);
    NoOffset(Right(UNIT_BOX.forward));
  }

  lemma {:induction false} UnitBoxesTouch(velocity: Vector2)
    ensures ValidShape(UNIT_BOX) && IntersectObbPrisms(UNIT_BOX, UNIT_BOX, velocity).Some?
  {
    hide Unit, Inside, IntersectObbPrisms;
    NorthIsUnit();
    CentreIsInside();
    SharedPointGivesManifold(UNIT_BOX, UNIT_BOX, velocity, ZERO);
  }

  /** Two valid proxies whose contact the solve cannot take. */
  lemma {:induction false} ZeroMassContactExists(hypot: (real, real) -> real)
    ensures AllValid([POLE, WALKER]) && DistinctIds([POLE, WALKER]) && Undefined([POLE, WALKER], 0, 1, hypot)
  {
    hide ValidShape, IntersectObbPrisms, Subtract;
    UnitBoxesTouch(Subtract(ZERO, ZERO));
    assert "a" != "b" && "a" != "" && "b" != "";
  }

  // ---- Steps of the Ego ----

  /** What visiting one static collider does: nothing without a manifold, otherwise push-out and the contact law. */
  ghost predicate StaticStep(
    collider: StaticObbCollider, bypassed: bool, before: PlanarRigidBody, after: PlanarRigidBody, impulse: (real, real))
    requires ValidBody(before) && ValidBody(after) && ValidShape(collider.shape)
  {
    var found := IntersectObbPrisms(before.shape, collider.shape, before.velocity);
    if bypassed || found.None? then after == before && impulse == (0.0, 0.0)
    else
      && OnlyMoved(before, after) && after.shape == MovedBy(before.shape, PushOutOf(found.value))
      && ContactLaw(StaticPair(before.(shape := after.shape), ZERO, found.value.contactPoint), collider.material,
           found.value.normal, impulse.0, impulse.1, StaticPair(after, ZERO, found.value.contactPoint))
  }

  /** The Ego and the proxies around it. */
  datatype Scene = Scene(body: PlanarRigidBody, proxies: seq<KinematicCollisionProxy>)

  ghost predicate ValidScene(scene: Scene) {
    ValidBody(scene.body) && AllValid(scene.proxies)
  }

  /** What visiting one proxy does: a finite contact with both moving, or a contact with its prescribed motion. */
  ghost predicate ProxyStep(
    before: Scene, i: nat, passedOver: bool, found: Option<CollisionManifold>, after: Scene, impulse: (real, real),
    hypot: (real, real) -> real)
    requires ValidScene(before) && ValidScene(after) && i < |before.proxies|
  {
    var proxy := before.proxies[i];
    if passedOver || found.None? then after == before && impulse == (0.0, 0.0)
    else if proxy.mass > 0.0 then
      && |after.proxies| == |before.proxies| && after.proxies == before.proxies[i := after.proxies[i]]
      && FiniteOutcome(before.body, proxy, found.value, after.body, after.proxies[i], impulse.0)
      && exists rubbed ::
           FiniteLaw(before.body, proxy, found.value, after.body, after.proxies[i], rubbed, impulse.0, impulse.1, hypot)
    else
      var point := found.value.contactPoint;
      && after.proxies == before.proxies && OnlyMoved(before.body, after.body)
      && after.body.shape == MovedBy(before.body.shape, PushOutOf(found.value))
      && ContactLaw(
           StaticPair(before.body.(shape := after.body.shape), KinematicContactVelocity(proxy, point), point),
           proxy.material, found.value.normal, impulse.0, impulse.1,
           StaticPair(after.body, KinematicContactVelocity(proxy, point), point))
  }

  /** One iteration: every static candidate, then every candidate proxy, with the impulses of each visit. */
  datatype Pass = Pass(
    before: Scene, statics: seq<nat>, bodies: seq<PlanarRigidBody>, staticImpulses: seq<(real, real)>,
    visited: seq<nat>, scenes: seq<Scene>, proxyImpulses: seq<(real, real)>)

  function PassImpulses(passes: seq<Pass>): real {
    if passes == [] then 0.0
    else
      var last := passes[|passes| - 1];
      PassImpulses(passes[..|passes| - 1]) + NormalImpulses(last.staticImpulses) + NormalImpulses(last.proxyImpulses)
  }

  lemma {:induction false} OneMorePass(passes: seq<Pass>, last: Pass)
    ensures PassImpulses(passes + [last])
         == PassImpulses(passes) + NormalImpulses(last.staticImpulses) + NormalImpulses(last.proxyImpulses)
  {
    assert (passes + [last])[..|passes|] == passes;
  }

  /** One substep: the scene before it, its iterations on the advanced scene, and the contacts between proxies. */
  datatype Substep = Substep(
    before: Scene, grid: UniformGridIndex, passes: seq<Pass>, solved: Scene, book: ContactBook,
    pairPasses: seq<PairPass>)

  function StepImpulses(steps: seq<Substep>): real {
    if steps == [] then 0.0
    else StepImpulses(steps[..|steps| - 1]) + PassImpulses(steps[|steps| - 1].passes)
  }

  lemma {:induction false} OneMoreStep(steps: seq<Substep>, last: Substep)
    ensures StepImpulses(steps + [last]) == StepImpulses(steps) + PassImpulses(last.passes)
  {
    assert (steps + [last])[..|steps|] == steps;
  }

  /**
   * The contacts between proxies of a substep: lawful passes, a certificate of separation when the last one found no
   * contact, and nothing at all but the bounds on the heading rates when no pair was in contact.
   */
  ghost predicate PairsSolved(
    proxies: seq<KinematicCollisionProxy>, next: seq<KinematicCollisionProxy>, book: ContactBook,
    passes: seq<PairPass>, hypot: (real, real) -> real)
  {
    && AllValid(proxies) && AllValid(next) && SameRoles(proxies, next) && Reciprocal(book)
    && AllPairPasses(passes, hypot)
    && LawfulPairPasses(Pairing(BoundedRates(proxies), map[]), passes, Pairing(next, book), hypot)
    && (!PassTouches(passes[|passes| - 1].rows, hypot) ==> RowsClear(next, |next|, hypot))
    && AllValid(BoundedRates(proxies))
    && (RowsClear(BoundedRates(proxies), |proxies|, hypot) ==> next == BoundedRates(proxies) && book == map[])
  }

  function NormalImpulses(impulses: seq<(real, real)>): real {
    if impulses == [] then 0.0 else NormalImpulses(impulses[..|impulses| - 1]) + impulses[|impulses| - 1].0
  }

  lemma {:induction false} OneMoreImpulse(impulses: seq<(real, real)>, last: (real, real))
    ensures NormalImpulses(impulses + [last]) == NormalImpulses(impulses) + last.0
  {
    assert (impulses + [last])[..|impulses|] == impulses;
  }

  /** A turn of the heading keeps the forward axis a unit vector. */
  ghost predicate KeepsUnit(turned: (Vector2, real) -> Vector2) {
    forall forward, angle :: Unit(forward) ==> Unit(turned(forward, angle))
  }

  function AdvanceBody(body: PlanarRigidBody, dt: real, turned: (Vector2, real) -> Vector2): PlanarRigidBody {
    var forward := turned(body.shape.forward, Times(body.headingRate, dt));
    var moved := Add(body.shape.center, Multiply(body.velocity, dt));
    body.(shape := body.shape.(
      forward := forward,
      center := if body.centerOfMassOffset != 0.0
                then Add(moved, Multiply(Subtract(body.shape.forward, forward), body.centerOfMassOffset))
                else moved))
  }

  /** However the box turns, its mass centre moves by exactly the linear velocity times the step. */
  lemma {:induction false} AdvanceMovesMassCentre(body: PlanarRigidBody, dt: real, turned: (Vector2, real) -> Vector2)
    requires KeepsUnit(turned)
    ensures var next := AdvanceBody(body, dt, turned);
      && BodyCenterOfMass(next) == Add(BodyCenterOfMass(body), Multiply(body.velocity, dt))
      && (ValidBody(body) ==> ValidBody(next) && KineticEnergy(BodyRigid(next)) == KineticEnergy(BodyRigid(body)))
      && OnlyMoved(body, next)
  {
    hide Unit, KineticEnergy;
    assert Multiply(body.shape.forward, 0.0) == ZERO;
    assert Multiply(AdvanceBody(body, dt, turned).shape.forward, 0.0) == ZERO;
  }

  function AdvanceProxy(
    proxy: KinematicCollisionProxy, dt: real, turned: (Vector2, real) -> Vector2): KinematicCollisionProxy {
    if Anchored(proxy) then proxy
    else
      var moved := ShapeMovedBy(proxy.shape, Multiply(proxy.velocity, dt));
      match moved
      case Box(prism) => proxy.(shape := Box(prism.(forward := turned(prism.forward, Times(proxy.headingRate, dt)))))
      case Capsule(_) => proxy.(shape := moved)
  }

  lemma {:induction false} AdvanceProxyKeepsEnergy(
    proxy: KinematicCollisionProxy, dt: real, turned: (Vector2, real) -> Vector2)
    requires KeepsUnit(turned) && ValidProxy(proxy)
    ensures var next := AdvanceProxy(proxy, dt, turned);
      && ValidProxy(next) && (Finite(proxy) ==> Finite(next)) && SameRole(proxy, next)
      && ProxyEnergy(next) == ProxyEnergy(proxy)
  {
    hide Unit, KineticEnergy, Multiply;
  }

  function AdvanceProxies(proxies: seq<KinematicCollisionProxy>, dt: real, turned: (Vector2, real) -> Vector2)
    : (next: seq<KinematicCollisionProxy>)
    ensures |next| == |proxies|
    ensures forall i :: 0 <= i < |proxies| ==> next[i] == AdvanceProxy(proxies[i], dt, turned)
  {
    seq(|proxies|, i requires 0 <= i < |proxies| => AdvanceProxy(proxies[i], dt, turned))
  }

  lemma {:induction false} AdvanceProxiesKeepsEnergy(
    proxies: seq<KinematicCollisionProxy>, dt: real, turned: (Vector2, real) -> Vector2)
    requires KeepsUnit(turned) && AllValid(proxies)
    ensures var next := AdvanceProxies(proxies, dt, turned);
      && AllValid(next) && (AllFinite(proxies) ==> AllFinite(next)) && SameRoles(proxies, next)
      && ProxyEnergies(next) == ProxyEnergies(proxies)
  {
    hide ProxyEnergy, AdvanceProxy, ValidProxy, Finite, SameRole;
    forall i | 0 <= i < |proxies|
      ensures ValidProxy(AdvanceProxy(proxies[i], dt, turned))
      ensures Finite(proxies[i]) ==> Finite(AdvanceProxy(proxies[i], dt, turned))
      ensures SameRole(proxies[i], AdvanceProxy(proxies[i], dt, turned))
      ensures ProxyEnergy(AdvanceProxy(proxies[i], dt, turned)) == ProxyEnergy(proxies[i])
    {
      AdvanceProxyKeepsEnergy(proxies[i], dt, turned);
    }
    if proxies != [] {
      AdvanceProxiesKeepsEnergy(proxies[1..], dt, turned);
      assert AdvanceProxies(proxies, dt, turned)[1..] == AdvanceProxies(proxies[1..], dt, turned);
    }
  }

  function ShapeAabb(shape: ProxyShape): HorizontalAabb {
    match shape
    case Box(prism) => BoxAabb(prism)
    case Capsule(capsule) => CapsuleAabb(capsule)
  }

  function ShapeAabbs(proxies: seq<KinematicCollisionProxy>): (aabbs: seq<HorizontalAabb>)
    ensures |aabbs| == |proxies| && forall i :: 0 <= i < |aabbs| ==> aabbs[i] == ShapeAabb(proxies[i].shape)
  {
    seq(|proxies|, i requires 0 <= i < |proxies| => ShapeAabb(proxies[i].shape))
  }

  /** Immutable static colliders with their grid; heading changes and lengths come from outside. */
  class CollisionWorld {
    const staticColliders: seq<StaticObbCollider>
    const uniformGrid: bool
    const staticGrid: UniformGridIndex
    const hypot: (real, real) -> real
    const turned: (Vector2, real) -> Vector2

    ghost predicate Valid() {
      && staticGrid.Valid() && Outward(staticGrid.below, staticGrid.above) && IsHypot(hypot)
      && |staticGrid.objects| == |staticColliders|
      && (forall i :: 0 <= i < |staticColliders| ==>
            && ValidShape(staticColliders[i].shape) && ValidMaterial(staticColliders[i].material)
            && staticGrid.objects[i] == BoxAabb(staticColliders[i].shape))
      && KeepsUnit(turned)
    }

    constructor (
      colliders: seq<StaticObbCollider>, uniformGrid: bool, hypot: (real, real) -> real,
      turned: (Vector2, real) -> Vector2, below: real -> real, above: real -> real)
      requires IsHypot(hypot) && Outward(below, above)
      requires forall i :: 0 <= i < |colliders| ==>
        ValidShape(colliders[i].shape) && ValidMaterial(colliders[i].material)
      requires KeepsUnit(turned)
      ensures Valid() && staticColliders == colliders && this.uniformGrid == uniformGrid
    {
      staticColliders, this.uniformGrid := colliders, uniformGrid;
      this.hypot, this.turned := hypot, turned;
      var aabbs := seq(|colliders|, i requires 0 <= i < |colliders| => BoxAabb(colliders[i].shape));
      staticGrid := new UniformGridIndex(aabbs, below, above);
    }

    ghost predicate Bypassed(curbs: set<string>, i: nat)
      requires i < |staticColliders|
    {
      staticColliders[i].colliderId in curbs
    }

    /** No static collider outside the supported curbs overlaps the body at this pose. */
    ghost predicate ClearOfStatics(body: PlanarRigidBody, curbs: set<string>) {
      forall i: nat :: i < |staticColliders| && !Bypassed(curbs, i) ==>
        IntersectObbPrisms(body.shape, staticColliders[i].shape, body.velocity).None?
    }

    /** The broad phase's static candidates include everything the narrow phase would report at this pose. */
    method StaticCandidates(body: PlanarRigidBody) returns (candidates: seq<nat>)
      requires Valid() && ValidBody(body)
      ensures StrictlyIncreasing(candidates)
      ensures forall k :: 0 <= k < |candidates| ==> candidates[k] < |staticColliders|
      ensures forall i: nat ::
        (i < |staticColliders| && IntersectObbPrisms(body.shape, staticColliders[i].shape, body.velocity).Some?)
        ==> i in candidates
    {
      if !uniformGrid {
        candidates := AllIndices(|staticColliders|);
        return;
      }
      candidates := staticGrid.Query(BoxAabb(body.shape));
      forall k | 0 <= k < |candidates|
        ensures candidates[k] < |staticColliders|
      {
        assert candidates[k] in candidates;
      }
      forall i: nat | i < |staticColliders|
        && IntersectObbPrisms(body.shape, staticColliders[i].shape, body.velocity).Some?
        ensures i in candidates
      {
        hide IntersectObbPrisms, BoxAabb;
        var shapes := seq(|staticColliders|, k requires 0 <= k < |staticColliders| => staticColliders[k].shape);
        GridLosesNoContact(staticGrid, shapes, body.shape, body.velocity, i);
      }
    }

    /** A pass over `visited`, which covers every collider the body can touch: one lawful step per collider. */
    ghost predicate StaticPass(
      body: PlanarRigidBody, curbs: set<string>, visited: seq<nat>, trace: seq<PlanarRigidBody>,
      impulses: seq<(real, real)>)
    {
      && |trace| == |impulses| + 1 && |impulses| <= |visited| && trace[0] == body
      && (forall k :: 0 <= k < |visited| ==>
        visited[k] < |staticColliders| && ValidShape(staticColliders[visited[k]].shape))
      && (forall k :: 0 <= k < |trace| ==> ValidBody(trace[k]))
      && (forall k :: 0 <= k < |impulses| ==>
            StaticStep(staticColliders[visited[k]], Bypassed(curbs, visited[k]), trace[k], trace[k + 1], impulses[k]))
    }

    lemma {:induction false} LongerPass(
      body: PlanarRigidBody, curbs: set<string>, visited: seq<nat>, trace: seq<PlanarRigidBody>,
      impulses: seq<(real, real)>,
      next: PlanarRigidBody, impulse: (real, real))
      requires StaticPass(body, curbs, visited, trace, impulses) && |impulses| < |visited| && ValidBody(next)
      requires StaticStep(staticColliders[visited[|impulses|]], Bypassed(curbs, visited[|impulses|]),
                 trace[|impulses|], next, impulse)
      ensures StaticPass(body, curbs, visited, trace + [next], impulses + [impulse])
      ensures NormalImpulses(impulses + [impulse]) == NormalImpulses(impulses) + impulse.0
    {
      hide StaticStep, ValidBody, ValidShape, Bypassed, NormalImpulses;
      OneMoreImpulse(impulses, impulse);
      var longer, more := trace + [next], impulses + [impulse];
      assert forall k :: 0 <= k < |trace| ==> longer[k] == trace[k];
      assert forall k :: 0 <= k < |impulses| ==> more[k] == impulses[k];
      assert longer[|trace|] == next && more[|impulses|] == impulse;
    }

    /** Every static collider that the box test reports at this pose is among the visited ones. */
    ghost predicate CoversStatics(body: PlanarRigidBody, visited: seq<nat>) {
      forall i: nat ::
        (i < |staticColliders| && IntersectObbPrisms(body.shape, staticColliders[i].shape, body.velocity).Some?)
        ==> i in visited
    }

    /** One pass over the static candidates; a pass without a hit certifies that no static collider overlaps. */
    method VisitStatics(body: PlanarRigidBody, contacts: seq<CollisionContact>, curbs: set<string>)
      returns (next: PlanarRigidBody, recorded: seq<CollisionContact>, overlapFound: bool,
               ghost visited: seq<nat>, ghost trace: seq<PlanarRigidBody>, ghost impulses: seq<(real, real)>)
      requires Valid() && ValidBody(body) && StrictlySorted(ContactIds(contacts))
      ensures ValidBody(next) && OnlyMoved(body, next) && StrictlySorted(ContactIds(recorded))
      ensures KineticEnergy(BodyRigid(next)) <= KineticEnergy(BodyRigid(body))
      ensures !overlapFound ==> next == body && recorded == contacts && ClearOfStatics(body, curbs)
      ensures StrictlyIncreasing(visited) && StaticPass(body, curbs, visited, trace, impulses)
      ensures |impulses| == |visited| && trace[|visited|] == next && CoversStatics(body, visited)
      ensures TotalImpulse(recorded) == TotalImpulse(contacts) + NormalImpulses(impulses)
    {
      hide Unit, KineticEnergy, IntersectObbPrisms, ContactLaw, NormalMomentum, StrictlySorted, TotalImpulse,
        NormalImpulses, StaticPair, PushOutOf, MovedBy, StaticPass;
      next, recorded, overlapFound := body, contacts, false;
      var candidates := StaticCandidates(body);
      visited, trace, impulses := candidates, [body], [];
      FirstPass(body, curbs, visited);
      for k := 0 to |candidates|
        invariant ValidBody(next) && OnlyMoved(body, next) && StrictlySorted(ContactIds(recorded))
        invariant KineticEnergy(BodyRigid(next)) <= KineticEnergy(BodyRigid(body))
        invariant !overlapFound ==> next == body && recorded == contacts
        invariant !overlapFound ==> forall j :: 0 <= j < k && !Bypassed(curbs, candidates[j]) ==>
          IntersectObbPrisms(body.shape, staticColliders[candidates[j]].shape, body.velocity).None?
        invariant StaticPass(body, curbs, visited, trace, impulses)
        invariant |impulses| == k && |trace| == k + 1 && trace[k] == next
        invariant TotalImpulse(recorded) == TotalImpulse(contacts) + NormalImpulses(impulses)
      {
        var collider := staticColliders[candidates[k]];
        if collider.colliderId in curbs {
          LongerPass(body, curbs, visited, trace, impulses, next, (0.0, 0.0));
          trace, impulses := trace + [next], impulses + [(0.0, 0.0)];
          continue;
        }
        var manifold := IntersectObbPrisms(next.shape, collider.shape, next.velocity);
        if manifold.None? {
          LongerPass(body, curbs, visited, trace, impulses, next, (0.0, 0.0));
          trace, impulses := trace + [next], impulses + [(0.0, 0.0)];
          continue;
        }
        ManifoldIsLeastOverlap(next.shape, collider.shape, next.velocity);
        var before := next;
        var impulse;
        ghost var tangentImpulse;
        next, impulse, tangentImpulse := ResolveContact(before, collider.material, ZERO, manifold.value);
        StaticContactEnergy(before, next, manifold.value.contactPoint, collider.material, manifold.value.normal,
          impulse, tangentImpulse);
        LongerPass(body, curbs, visited, trace, impulses, next, (impulse, tangentImpulse));
        trace, impulses := trace + [next], impulses + [(impulse, tangentImpulse)];
        ghost var at;
        recorded, at := RecordContact(recorded, collider.colliderId, manifold.value, impulse);
        overlapFound := true;
      }
    }

    lemma FirstPass(body: PlanarRigidBody, curbs: set<string>, visited: seq<nat>)
      requires Valid() && ValidBody(body) && forall k :: 0 <= k < |visited| ==> visited[k] < |staticColliders|
      ensures StaticPass(body, curbs, visited, [body], []) && NormalImpulses([]) == 0.0
    {
    }

    /** The proxies whose filed bounds the query cannot rule out have no contact with the body. */
    ghost predicate ClearOfCandidates(
      body: PlanarRigidBody, proxies: seq<KinematicCollisionProxy>, grid: UniformGridIndex, supported: set<string>)
      requires ValidBody(body) && AllValid(proxies)
    {
      forall i: nat ::
        (i < |proxies| && !PassedOver(body, proxies[i], supported)
          && (uniformGrid ==> grid.Candidate(BoxAabb(body.shape), i)))
        ==> IntersectProxy(body, proxies[i]).None?
    }

    predicate PassedOver(body: PlanarRigidBody, proxy: KinematicCollisionProxy, supported: set<string>) {
      proxy.supportedVehicleId == body.bodyId || proxy.proxyId in supported
    }

    function IntersectProxy(body: PlanarRigidBody, proxy: KinematicCollisionProxy): Option<CollisionManifold>
      requires ValidBody(body) && ValidProxy(proxy)
    {
      IntersectShapes(Box(body.shape), proxy.shape, Subtract(body.velocity, proxy.velocity), hypot)
    }

    /** A pass over `visited`: one lawful step per candidate proxy. */
    ghost predicate ProxyPass(
      scene: Scene, supported: set<string>, visited: seq<nat>, trace: seq<Scene>, impulses: seq<(real, real)>)
    {
      && |trace| == |impulses| + 1 && |impulses| <= |visited| && trace[0] == scene
      && (forall k :: 0 <= k < |visited| ==> visited[k] < |scene.proxies|)
      && (forall k :: 0 <= k < |trace| ==> ValidScene(trace[k]) && |trace[k].proxies| == |scene.proxies|)
      && (forall k :: 0 <= k < |impulses| ==> VisitStep(trace[k], visited[k], supported, trace[k + 1], impulses[k]))
    }

    ghost predicate VisitStep(before: Scene, i: nat, supported: set<string>, after: Scene, impulse: (real, real))
      requires ValidScene(before) && ValidScene(after) && i < |before.proxies|
    {
      ProxyStep(before, i, PassedOver(before.body, before.proxies[i], supported),
        IntersectProxy(before.body, before.proxies[i]), after, impulse, hypot)
    }

    lemma {:induction false} LongerProxyPass(
      scene: Scene, supported: set<string>, visited: seq<nat>, trace: seq<Scene>, impulses: seq<(real, real)>,
      next: Scene, impulse: (real, real))
      requires ProxyPass(scene, supported, visited, trace, impulses) && |impulses| < |visited|
      requires ValidScene(next) && |next.proxies| == |scene.proxies|
      requires VisitStep(trace[|impulses|], visited[|impulses|], supported, next, impulse)
      ensures ProxyPass(scene, supported, visited, trace + [next], impulses + [impulse])
      ensures NormalImpulses(impulses + [impulse]) == NormalImpulses(impulses) + impulse.0
    {
      hide VisitStep, ValidScene, NormalImpulses;
      OneMoreImpulse(impulses, impulse);
      var longer, more := trace + [next], impulses + [impulse];
      assert forall k :: 0 <= k < |trace| ==> longer[k] == trace[k];
      assert forall k :: 0 <= k < |impulses| ==> more[k] == impulses[k];
      assert longer[|trace|] == next && more[|impulses|] == impulse;
    }

    lemma FirstProxyPass(scene: Scene, supported: set<string>, visited: seq<nat>)
      requires ValidScene(scene) && forall k :: 0 <= k < |visited| ==> visited[k] < |scene.proxies|
      ensures ProxyPass(scene, supported, visited, [scene], []) && NormalImpulses([]) == 0.0
    {
    }

    /** The broad phase's dynamic candidates, from a grid that may be older than the proxies' present positions. */
    method ProxyCandidates(body: PlanarRigidBody, proxies: seq<KinematicCollisionProxy>, grid: UniformGridIndex)
      returns (candidates: seq<nat>)
      requires grid.Valid() && |grid.objects| == |proxies|
      ensures forall k :: 0 <= k < |candidates| ==> candidates[k] < |proxies|
      ensures forall i: nat ::
        i in candidates <==> i < |proxies| && (uniformGrid ==> grid.Candidate(BoxAabb(body.shape), i))
    {
      hide CellRange;
      if uniformGrid {
        candidates := grid.Query(BoxAabb(body.shape));
      } else {
        candidates := AllIndices(|proxies|);
      }
      forall j | 0 <= j < |candidates|
        ensures candidates[j] < |proxies|
      {
        assert candidates[j] in candidates;
      }
    }

    /** The contact with one proxy, as the law of its kind. */
    method TouchProxy(
      body: PlanarRigidBody, proxies: seq<KinematicCollisionProxy>, i: nat, manifold: CollisionManifold,
      ghost supported: set<string>)
      returns (next: PlanarRigidBody, moved: seq<KinematicCollisionProxy>, impulse: real, ghost impulses: (real, real))
      requires Valid() && ValidBody(body) && AllValid(proxies) && i < |proxies|
      requires !PassedOver(body, proxies[i], supported) && IntersectProxy(body, proxies[i]) == Some(manifold)
      ensures ValidBody(next) && OnlyMoved(body, next) && AllValid(moved) && SameRoles(proxies, moved)
      ensures VisitStep(Scene(body, proxies), i, supported, Scene(next, moved), impulses) && impulses.0 == impulse
      ensures AllFinite(proxies) ==> AllFinite(moved) && TotalEnergy(next, moved) <= TotalEnergy(body, proxies)
    {
      hide Unit, KineticEnergy, IntersectShapes, ContactLaw, NormalMomentum, LinearMomentum, ProxyEnergies, PairShifts,
        ClampFiniteProxySpeed, RequiredImpulse, KinematicContactVelocity, Subtract, StaticPair, PushOutOf, MovedBy,
        ShapeMovedBy;
      var proxy := proxies[i];
      ShapeNormalIsUnit(Box(body.shape), proxy.shape, Subtract(body.velocity, proxy.velocity), hypot);
      if proxy.mass > 0.0 {
        ghost var rubbed, tangentImpulse;
        var nextProxy;
        next, nextProxy, impulse, tangentImpulse, rubbed := ResolveFiniteProxyContact(body, proxy, manifold, hypot);
        if AllFinite(proxies) {
          SceneEnergyAfterContact(body, proxies, i, next, nextProxy);
        }
        moved, impulses := proxies[i := nextProxy], (impulse, tangentImpulse);
      } else {
        ghost var tangentImpulse;
        next, impulse, tangentImpulse := ResolveContact(
          body, proxy.material, KinematicContactVelocity(proxy, manifold.contactPoint), manifold);
        moved, impulses := proxies, (impulse, tangentImpulse);
      }
    }

    /** The visited proxies are exactly the candidates: all of them, or those that the grid cannot rule out. */
    ghost predicate CoversProxies(
      body: PlanarRigidBody, proxies: seq<KinematicCollisionProxy>, grid: UniformGridIndex, visited: seq<nat>)
    {
      forall i: nat :: i in visited <==> i < |proxies| && (uniformGrid ==> grid.Candidate(BoxAabb(body.shape), i))
    }

    /** One pass over the dynamic candidates; without a hit none of them touches the body. */
    method VisitProxies(
      body: PlanarRigidBody, proxies: seq<KinematicCollisionProxy>, grid: UniformGridIndex,
      contacts: seq<CollisionContact>, supported: set<string>)
      returns (next: PlanarRigidBody, moved: seq<KinematicCollisionProxy>, recorded: seq<CollisionContact>,
               overlapFound: bool, ghost visited: seq<nat>, ghost trace: seq<Scene>,
               ghost impulses: seq<(real, real)>)
      requires Valid() && ValidBody(body) && AllValid(proxies) && grid.Valid() && |grid.objects| == |proxies|
      requires StrictlySorted(ContactIds(contacts))
      ensures ValidBody(next) && OnlyMoved(body, next) && AllValid(moved) && SameRoles(proxies, moved)
      ensures StrictlySorted(ContactIds(recorded))
      ensures AllFinite(proxies) ==> AllFinite(moved) && TotalEnergy(next, moved) <= TotalEnergy(body, proxies)
      ensures !overlapFound ==> next == body && moved == proxies && recorded == contacts
      ensures !overlapFound ==> ClearOfCandidates(body, proxies, grid, supported)
      ensures ProxyPass(Scene(body, proxies), supported, visited, trace, impulses) && |impulses| == |visited|
      ensures trace[|visited|] == Scene(next, moved) && CoversProxies(body, proxies, grid, visited)
      ensures TotalImpulse(recorded) == TotalImpulse(contacts) + NormalImpulses(impulses)
    {
      hide Unit, KineticEnergy, StrictlySorted, ProxyEnergies, CellRange, VisitStep, ProxyPass, NormalImpulses,
        TotalImpulse, IntersectProxy;
      next, moved, recorded, overlapFound := body, proxies, contacts, false;
      var candidates := ProxyCandidates(body, proxies, grid);
      visited, trace, impulses := candidates, [Scene(body, proxies)], [];
      FirstProxyPass(Scene(body, proxies), supported, visited);
      for k := 0 to |candidates|
        invariant ValidBody(next) && OnlyMoved(body, next) && AllValid(moved) && SameRoles(proxies, moved)
        invariant StrictlySorted(ContactIds(recorded))
        invariant AllFinite(proxies) ==> AllFinite(moved) && TotalEnergy(next, moved) <= TotalEnergy(body, proxies)
        invariant !overlapFound ==> next == body && moved == proxies && recorded == contacts
        invariant !overlapFound ==> forall j :: 0 <= j < k && !PassedOver(body, proxies[candidates[j]], supported) ==>
          IntersectProxy(body, proxies[candidates[j]]).None?
        invariant ProxyPass(Scene(body, proxies), supported, visited, trace, impulses)
        invariant |impulses| == k && |trace| == k + 1 && trace[k] == Scene(next, moved)
        invariant TotalImpulse(recorded) == TotalImpulse(contacts) + NormalImpulses(impulses)
      {
        var i := candidates[k];
        var manifold := IntersectProxy(next, moved[i]);
        if PassedOver(next, moved[i], supported) || manifold.None? {
          NothingHappens(Scene(next, moved), i, supported);
          LongerProxyPass(Scene(body, proxies), supported, visited, trace, impulses, Scene(next, moved), (0.0, 0.0));
          trace, impulses := trace + [Scene(next, moved)], impulses + [(0.0, 0.0)];
          continue;
        }
        var impulse;
        ghost var pushed;
        next, moved, impulse, pushed := TouchProxy(next, moved, i, manifold.value, supported);
        LongerProxyPass(Scene(body, proxies), supported, visited, trace, impulses, Scene(next, moved), pushed);
        trace, impulses := trace + [Scene(next, moved)], impulses + [pushed];
        ghost var at;
        recorded, at := RecordContact(recorded, moved[i].proxyId, manifold.value, impulse);
        overlapFound := true;
      }
      if !overlapFound {
        forall i: nat |
          i < |proxies| && !PassedOver(body, proxies[i], supported)
            && (uniformGrid ==> grid.Candidate(BoxAabb(body.shape), i))
          ensures IntersectProxy(body, proxies[i]).None?
        {
          assert i in candidates;
        }
      }
    }

    lemma NothingHappens(scene: Scene, i: nat, supported: set<string>)
      requires ValidScene(scene) && i < |scene.proxies|
      requires PassedOver(scene.body, scene.proxies[i], supported) || IntersectProxy(scene.body, scene.proxies[i]).None?
      ensures VisitStep(scene, i, supported, scene, (0.0, 0.0))
    {
    }

    /** Both halves of an iteration are lawful, and each visits everything that its part of the broad phase finds. */
    ghost predicate LawfulPass(
      pass: Pass, after: Scene, grid: UniformGridIndex, curbs: set<string>, supported: set<string>)
    {
      && ValidScene(pass.before) && ValidScene(after)
      && StaticPass(pass.before.body, curbs, pass.statics, pass.bodies, pass.staticImpulses)
      && |pass.staticImpulses| == |pass.statics| && CoversStatics(pass.before.body, pass.statics)
      && var between := Scene(pass.bodies[|pass.statics|], pass.before.proxies);
      && ProxyPass(between, supported, pass.visited, pass.scenes, pass.proxyImpulses)
      && |pass.proxyImpulses| == |pass.visited| && pass.scenes[|pass.visited|] == after
      && CoversProxies(between.body, between.proxies, grid, pass.visited)
    }

    ghost predicate LawfulPasses(
      start: Scene, passes: seq<Pass>, end: Scene, grid: UniformGridIndex, curbs: set<string>, supported: set<string>)
    {
      if passes == [] then end == start
      else
        var last := passes[|passes| - 1];
        && LawfulPass(last, end, grid, curbs, supported)
        && LawfulPasses(start, passes[..|passes| - 1], last.before, grid, curbs, supported)
    }

    lemma {:induction false} LongerPasses(
      start: Scene, passes: seq<Pass>, last: Pass, end: Scene, grid: UniformGridIndex, curbs: set<string>,
      supported: set<string>)
      requires LawfulPasses(start, passes, last.before, grid, curbs, supported)
      requires LawfulPass(last, end, grid, curbs, supported)
      ensures LawfulPasses(start, passes + [last], end, grid, curbs, supported)
      ensures PassImpulses(passes + [last])
           == PassImpulses(passes) + NormalImpulses(last.staticImpulses) + NormalImpulses(last.proxyImpulses)
    {
      hide LawfulPass;
      assert (passes + [last])[..|passes|] == passes;
      OneMorePass(passes, last);
    }

    /** One iteration of the solver as a whole. */
    method SolvePass(
      body: PlanarRigidBody, proxies: seq<KinematicCollisionProxy>, contacts: seq<CollisionContact>,
      grid: UniformGridIndex, curbs: set<string>, supported: set<string>)
      returns (next: PlanarRigidBody, moved: seq<KinematicCollisionProxy>, recorded: seq<CollisionContact>,
               overlapFound: bool, ghost pass: Pass)
      requires Valid() && ValidBody(body) && AllValid(proxies) && StrictlySorted(ContactIds(contacts))
      requires grid.Valid() && |grid.objects| == |proxies|
      ensures ValidBody(next) && OnlyMoved(body, next) && AllValid(moved) && SameRoles(proxies, moved)
      ensures StrictlySorted(ContactIds(recorded)) && |moved| == |proxies|
      ensures AllFinite(proxies) ==> AllFinite(moved) && TotalEnergy(next, moved) <= TotalEnergy(body, proxies)
      ensures pass.before == Scene(body, proxies) && LawfulPass(pass, Scene(next, moved), grid, curbs, supported)
      ensures TotalImpulse(recorded)
           == TotalImpulse(contacts) + NormalImpulses(pass.staticImpulses) + NormalImpulses(pass.proxyImpulses)
      ensures !overlapFound ==>
        && next == body && moved == proxies && recorded == contacts
        && ClearOfStatics(next, curbs) && ClearOfCandidates(next, moved, grid, supported)
    {
      hide Unit, KineticEnergy, ProxyEnergies, StrictlySorted, StaticPass, ProxyPass, NormalImpulses, TotalImpulse,
        CoversStatics, CoversProxies, ClearOfStatics, ClearOfCandidates;
      var hitStatic, hitProxy;
      ghost var statics, bodies, staticImpulses, visited, scenes, proxyImpulses;
      next, recorded, hitStatic, statics, bodies, staticImpulses := VisitStatics(body, contacts, curbs);
      BodiesOf(body, curbs, statics, bodies, staticImpulses);
      next, moved, recorded, hitProxy, visited, scenes, proxyImpulses :=
        VisitProxies(next, proxies, grid, recorded, supported);
      ScenesOf(Scene(bodies[|statics|], proxies), supported, visited, scenes, proxyImpulses);
      overlapFound := hitStatic || hitProxy;
      pass := Pass(Scene(body, proxies), statics, bodies, staticImpulses, visited, scenes, proxyImpulses);
    }

    lemma BodiesOf(
      body: PlanarRigidBody, curbs: set<string>, visited: seq<nat>, trace: seq<PlanarRigidBody>,
      impulses: seq<(real, real)>)
      requires StaticPass(body, curbs, visited, trace, impulses)
      ensures |trace| == |impulses| + 1
    {
    }

    lemma ScenesOf(
      scene: Scene, supported: set<string>, visited: seq<nat>, trace: seq<Scene>, impulses: seq<(real, real)>)
      requires ProxyPass(scene, supported, visited, trace, impulses)
      ensures |trace| == |impulses| + 1
    {
    }

    /**
     * One substep's iterations: at most eight, ending early once a pass finds no overlap. A settled substep leaves the
     * body clear of every static collider outside the supported curbs, and of every proxy that the substep's grid
     * keeps. The recorded contacts gain exactly the impulses of the iterations.
     */
    method SolveSubstep(
      body: PlanarRigidBody, proxies: seq<KinematicCollisionProxy>, contacts: seq<CollisionContact>,
      curbs: set<string>, supported: set<string>)
      returns (next: PlanarRigidBody, moved: seq<KinematicCollisionProxy>, recorded: seq<CollisionContact>,
               ghost settled: bool, ghost grid: UniformGridIndex, ghost passes: seq<Pass>)
      requires Valid() && ValidBody(body) && AllValid(proxies) && StrictlySorted(ContactIds(contacts))
      ensures ValidBody(next) && OnlyMoved(body, next) && AllValid(moved) && SameRoles(proxies, moved)
      ensures StrictlySorted(ContactIds(recorded))
      ensures AllFinite(proxies) ==> AllFinite(moved) && TotalEnergy(next, moved) <= TotalEnergy(body, proxies)
      ensures grid.Valid() && grid.objects == ShapeAabbs(proxies)
      ensures LawfulPasses(Scene(body, proxies), passes, Scene(next, moved), grid, curbs, supported)
      ensures 1 <= |passes| <= SOLVER_ITERATIONS && (settled || |passes| == SOLVER_ITERATIONS)
      ensures TotalImpulse(recorded) == TotalImpulse(contacts) + PassImpulses(passes)
      ensures settled ==> ClearOfStatics(next, curbs) && ClearOfCandidates(next, moved, grid, supported)
    {
      hide Unit, KineticEnergy, ProxyEnergies, StrictlySorted, NormalImpulses, TotalImpulse, LawfulPass, ClearOfStatics,
        ClearOfCandidates, SameRoles;
      next, moved, recorded, settled, passes := body, proxies, contacts, false, [];
      SelfRoles(proxies);
      var dynamicGrid := new UniformGridIndex(ShapeAabbs(proxies), staticGrid.below, staticGrid.above);
      grid := dynamicGrid;
      var iteration := 0;
      var overlapFound := true;
      while iteration < SOLVER_ITERATIONS && overlapFound
        invariant ValidBody(next) && OnlyMoved(body, next) && AllValid(moved) && SameRoles(proxies, moved)
        invariant StrictlySorted(ContactIds(recorded)) && |moved| == |proxies|
        invariant AllFinite(proxies) ==> AllFinite(moved) && TotalEnergy(next, moved) <= TotalEnergy(body, proxies)
        invariant LawfulPasses(Scene(body, proxies), passes, Scene(next, moved), grid, curbs, supported)
        invariant |passes| == iteration <= SOLVER_ITERATIONS && (iteration == 0 ==> overlapFound)
        invariant TotalImpulse(recorded) == TotalImpulse(contacts) + PassImpulses(passes)
        invariant !overlapFound ==> ClearOfStatics(next, curbs) && ClearOfCandidates(next, moved, grid, supported)
        decreases SOLVER_ITERATIONS - iteration
      {
        ghost var before := moved;
        ghost var done;
        next, moved, recorded, overlapFound, done := SolvePass(next, moved, recorded, dynamicGrid, curbs, supported);
        RolesAccumulate(proxies, before, moved);
        LongerPasses(Scene(body, proxies), passes, done, Scene(next, moved), grid, curbs, supported);
        passes := passes + [done];
        iteration := iteration + 1;
      }
      settled := !overlapFound;
    }

    /** A substep as recorded: advance, iterate on the advanced scene, then the contacts between proxies. */
    ghost predicate LawfulSubstep(step: Substep, after: Scene, part: real, curbs: set<string>, supported: set<string>) {
      var advanced := Scene(AdvanceBody(step.before.body, part, turned),
        AdvanceProxies(step.before.proxies, part, turned));
      && step.grid.objects == ShapeAabbs(advanced.proxies) && 1 <= |step.passes| <= SOLVER_ITERATIONS
      && LawfulPasses(advanced, step.passes, step.solved, step.grid, curbs, supported)
      && after.body == step.solved.body
      && PairsSolved(step.solved.proxies, after.proxies, step.book, step.pairPasses, hypot)
    }

    ghost predicate LawfulSubsteps(
      start: Scene, steps: seq<Substep>, end: Scene, part: real, curbs: set<string>, supported: set<string>)
    {
      if steps == [] then end == start
      else
        var last := steps[|steps| - 1];
        && LawfulSubstep(last, end, part, curbs, supported)
        && LawfulSubsteps(start, steps[..|steps| - 1], last.before, part, curbs, supported)
    }

    lemma {:induction false} LongerSubsteps(
      start: Scene, steps: seq<Substep>, last: Substep, end: Scene, part: real, curbs: set<string>,
      supported: set<string>)
      requires LawfulSubsteps(start, steps, last.before, part, curbs, supported)
      requires LawfulSubstep(last, end, part, curbs, supported)
      ensures LawfulSubsteps(start, steps + [last], end, part, curbs, supported)
      ensures StepImpulses(steps + [last]) == StepImpulses(steps) + PassImpulses(last.passes)
    {
      hide LawfulSubstep;
      assert (steps + [last])[..|steps|] == steps;
      OneMoreStep(steps, last);
    }

    /** One whole substep; without a mass to divide by in a pair contact it is not defined, and not recorded. */
    method TakeSubstep(
      body: PlanarRigidBody, proxies: seq<KinematicCollisionProxy>, contacts: seq<CollisionContact>, part: real,
      curbs: set<string>, supported: set<string>)
      returns (next: PlanarRigidBody, moved: seq<KinematicCollisionProxy>, recorded: seq<CollisionContact>,
               book: ContactBook, defined: bool, ghost settled: bool, ghost step: Substep)
      requires Valid() && ValidBody(body) && AllValid(proxies) && DistinctIds(proxies)
      requires StrictlySorted(ContactIds(contacts))
      ensures ValidBody(next) && OnlyMoved(body, next) && AllValid(moved) && DistinctIds(moved)
      ensures SameRoles(proxies, moved) && StrictlySorted(ContactIds(recorded)) && Reciprocal(book)
      ensures NoZeroMassPairs(proxies) ==> defined && NoZeroMassPairs(moved)
      ensures AllFinite(proxies) ==> AllFinite(moved) && TotalEnergy(next, moved) <= TotalEnergy(body, proxies)
      ensures settled ==> ClearOfStatics(next, curbs)
      ensures TotalImpulse(recorded) == TotalImpulse(contacts) + PassImpulses(step.passes)
      ensures defined ==>
        step.before == Scene(body, proxies) && step.book == book
        && LawfulSubstep(step, Scene(next, moved), part, curbs, supported)
    {
      hide Unit, KineticEnergy, ProxyEnergies, StrictlySorted, Reciprocal, AdvanceBody, AdvanceProxies, ValidBody,
        SameRoles, NoZeroMassPairs, Undefined, LawfulPasses, RowsClear, BoundedRates, PassImpulses, TotalImpulse,
        ClearOfStatics, ClearOfCandidates, LawfulPairPasses, PassTouches;
      AdvanceMovesMassCentre(body, part, turned);
      var advancedBody, advanced := AdvanceBody(body, part, turned), AdvanceProxies(proxies, part, turned);
      AdvanceProxiesKeepsEnergy(proxies, part, turned);
      ghost var grid, passes;
      var solved;
      next, solved, recorded, settled, grid, passes :=
        SolveSubstep(advancedBody, advanced, contacts, curbs, supported);
      RolesAccumulate(proxies, advanced, solved);
      RolesKeepMasses(proxies, solved);
      ghost var apart, pairPasses;
      moved, book, defined, apart, pairPasses := ResolveRuntimeProxyPairs(solved, hypot);
      RolesAccumulate(proxies, solved, moved);
      RolesKeepMasses(solved, moved);
      step := Substep(Scene(body, proxies), grid, passes, Scene(next, solved), book, pairPasses);
    }

    /**
     * A whole step, in the least number of substeps that keeps every initial motion within the limits of one substep,
     * or 64. With only finite-mass obstacles the total kinetic energy of the Ego and the proxies never rises, whatever
     * the number of substeps, iterations and pair passes. A pair contact without a mass to divide by ends it. Every
     * substep is lawful, and the contacts hold exactly the impulses of all of them.
     */
    method Integrate(
      body: PlanarRigidBody, proxies: seq<KinematicCollisionProxy>, dt: real, curbs: set<string>,
      supported: set<string>)
      returns (next: PlanarRigidBody, moved: seq<KinematicCollisionProxy>, contacts: seq<CollisionContact>,
               pairContacts: seq<ContactBook>, budget: Budget, defined: bool, ghost required: int, ghost settled: bool,
               ghost steps: seq<Substep>)
      requires Valid() && ValidBody(body) && AllValid(proxies) && DistinctIds(proxies) && 0.0 < dt <= 0.1
      ensures forall n: int :: Enough(body, BoundedRates(proxies), dt, n, hypot) <==> required <= n
      ensures BudgetFor(budget, required, dt) && 0.0 < budget.integratedDt <= dt
      ensures Enough(body, BoundedRates(proxies), budget.integratedDt / budget.count as real, 1, hypot)
      ensures ValidBody(next) && OnlyMoved(body, next) && AllValid(moved) && SameRoles(proxies, moved)
      ensures NoZeroMassPairs(proxies) || AllFinite(proxies) ==> defined
      ensures AllFinite(proxies) ==> AllFinite(moved) && TotalEnergy(next, moved) <= TotalEnergy(body, proxies)
      ensures StrictlySorted(ContactIds(contacts))
      ensures forall k :: 0 <= k < |pairContacts| ==> Reciprocal(pairContacts[k])
      ensures settled ==> ClearOfStatics(next, curbs)
      ensures staticColliders == [] && proxies == [] ==>
        next == AdvanceBody(body, budget.integratedDt, turned) && contacts == []
      ensures (staticColliders != [] || proxies != []) && defined ==>
        && |steps| == |pairContacts| == budget.count && TotalImpulse(contacts) == StepImpulses(steps)
        && LawfulSubsteps(Scene(body, BoundedRates(proxies)), steps, Scene(next, moved),
             budget.integratedDt / budget.count as real, curbs, supported)
        && forall k :: 0 <= k < |steps| ==> pairContacts[k] == steps[k].book
    {
      hide Unit, KineticEnergy, ProxyEnergies, StrictlySorted, Reciprocal, AdvanceBody, AdvanceProxies, ValidBody,
        SameRoles, NoZeroMassPairs, Enough, LawfulSubstep, BoundedRates, PassImpulses, TotalImpulse;
      NoContactsSorted();
      next, contacts, pairContacts, defined, settled, steps := body, [], [], true, false, [];
      moved := ClampHeadingRates(proxies);
      RolesKeepMasses(proxies, moved);
      if AllFinite(proxies) {
        FiniteHaveMasses(proxies);
      }
      budget, required := PlanSubsteps(body, moved, dt, hypot);
      if |staticColliders| == 0 && |proxies| == 0 {
        AdvanceMovesMassCentre(body, budget.integratedDt, turned);
        next := AdvanceBody(body, budget.integratedDt, turned);
        settled := true;
        return;
      }
      ghost var start := Scene(body, moved);
      var part := budget.integratedDt / budget.count as real;
      for substep := 0 to budget.count
        invariant ValidBody(next) && OnlyMoved(body, next) && AllValid(moved) && DistinctIds(moved)
        invariant SameRoles(proxies, moved) && (NoZeroMassPairs(proxies) ==> NoZeroMassPairs(moved))
        invariant AllFinite(proxies) ==> AllFinite(moved) && TotalEnergy(next, moved) <= TotalEnergy(body, proxies)
        invariant StrictlySorted(ContactIds(contacts)) && defined
        invariant forall k :: 0 <= k < |pairContacts| ==> Reciprocal(pairContacts[k])
        invariant settled ==> ClearOfStatics(next, curbs)
        invariant |steps| == |pairContacts| == substep && TotalImpulse(contacts) == StepImpulses(steps)
        invariant LawfulSubsteps(start, steps, Scene(next, moved), part, curbs, supported)
        invariant forall k :: 0 <= k < |steps| ==> pairContacts[k] == steps[k].book
      {
        ghost var before := moved;
        ghost var taken;
        var book;
        next, moved, contacts, book, defined, settled, taken :=
          TakeSubstep(next, moved, contacts, part, curbs, supported);
        RolesAccumulate(proxies, before, moved);
        pairContacts := pairContacts + [book];
        if !defined {
          return;
        }
        LongerSubsteps(start, steps, taken, Scene(next, moved), part, curbs, supported);
        steps := steps + [taken];
      }
    }
  }
}
