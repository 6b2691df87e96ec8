/** How many substeps a tick needs so that no motion at its start exceeds the limits of one substep. */
module SubstepBudget {
  import opened Planar
  import opened ContactSolver

  const TRANSLATION_PER_SUBSTEP_M: real := 0.1
  const ROTATION_PER_SUBSTEP_RAD: real := 0.017453292519943295
  const MAXIMUM_SUBSTEPS: int := 64

  function Ceiling(x: real): int {
    -((-x).Floor)
  }

  lemma CeilingIsLeast(x: real, n: int)
    ensures Ceiling(x) <= n <==> x <= n as real
  {
  }

  lemma {:induction false} CeilingFits(x: real, limit: real, n: int)
    requires limit > 0.0
    ensures Ceiling(x / limit) <= n <==> x <= n as real * limit
  {
    CeilingIsLeast(x / limit, n);
    hide Ceiling;
  }

  function MaxInt(x: int, y: int): int {
    if x < y then y else x
  }

  // ---- Motions over a time ----

  function Turn(body: PlanarRigidBody, dt: real): real {
    Abs(Times(body.headingRate, dt))
  }

  /** Translation and swing of the mass centre, against an obstacle that moves with `velocity`. */
  function Travel(body: PlanarRigidBody, velocity: Vector2, dt: real, hypot: (real, real) -> real): real {
    var relative := Subtract(body.velocity, velocity);
    hypot(Times(relative.east, dt), Times(relative.north, dt)) + Times(Abs(body.centerOfMassOffset), Turn(body, dt))
  }

  function RelativeTurn(body: PlanarRigidBody, proxy: KinematicCollisionProxy, dt: real): real {
    Abs(Times(body.headingRate - proxy.headingRate, dt))
  }

  function PairTravel(
    first: KinematicCollisionProxy, second: KinematicCollisionProxy, dt: real, hypot: (real, real) -> real): real
  {
    var relative := Subtract(first.velocity, second.velocity);
    Times(hypot(relative.east, relative.north), dt)
  }

  // ---- What a number of substeps must satisfy ----

  predicate BodyFits(body: PlanarRigidBody, dt: real, n: int, hypot: (real, real) -> real) {
    && Travel(body, ZERO, dt, hypot) <= n as real * TRANSLATION_PER_SUBSTEP_M
    && Turn(body, dt) <= n as real * ROTATION_PER_SUBSTEP_RAD
  }

  predicate ProxyFits(
    body: PlanarRigidBody, proxy: KinematicCollisionProxy, dt: real, n: int, hypot: (real, real) -> real)
  {
    && Travel(body, proxy.velocity, dt, hypot) <= n as real * TRANSLATION_PER_SUBSTEP_M
    && (proxy.shape.Box? ==> RelativeTurn(body, proxy, dt) <= n as real * ROTATION_PER_SUBSTEP_RAD)
  }

  predicate PairFits(
    first: KinematicCollisionProxy, second: KinematicCollisionProxy, dt: real, n: int, hypot: (real, real) -> real)
  {
    first.mass > 0.0 && second.mass > 0.0 ==>
      PairTravel(first, second, dt, hypot) <= n as real * TRANSLATION_PER_SUBSTEP_M
  }

  ghost predicate RowFits(
    proxies: seq<KinematicCollisionProxy>, i: nat, upTo: nat, dt: real, n: int, hypot: (real, real) -> real)
    requires i < |proxies| && upTo <= |proxies|
  {
    forall j: nat :: i < j < upTo ==> PairFits(proxies[i], proxies[j], dt, n, hypot)
  }

  ghost predicate RowsFit(
    proxies: seq<KinematicCollisionProxy>, rows: nat, dt: real, n: int, hypot: (real, real) -> real)
    requires rows <= |proxies|
  {
    forall i: nat :: i < rows ==> RowFits(proxies, i, |proxies|, dt, n, hypot)
  }

  ghost predicate AgainstFit(
    body: PlanarRigidBody, proxies: seq<KinematicCollisionProxy>, upTo: nat, dt: real, n: int,
    hypot: (real, real) -> real)
    requires upTo <= |proxies|
  {
    forall i: nat :: i < upTo ==> ProxyFits(body, proxies[i], dt, n, hypot)
  }

  /**
   * With `n` parts no part's motion exceeds the limits: of the body, against each proxy, and between two finite
   * proxies.
   */
  ghost predicate Enough(
    body: PlanarRigidBody, proxies: seq<KinematicCollisionProxy>, dt: real, n: int, hypot: (real, real) -> real)
  {
    && n >= 1 && BodyFits(body, dt, n, hypot)
    && AgainstFit(body, proxies, |proxies|, dt, n, hypot) && RowsFit(proxies, |proxies|, dt, n, hypot)
  }

  function BodyNeeds(body: PlanarRigidBody, dt: real, hypot: (real, real) -> real): int {
    MaxInt(1, MaxInt(Ceiling(Travel(body, ZERO, dt, hypot) / TRANSLATION_PER_SUBSTEP_M),
                     Ceiling(Turn(body, dt) / ROTATION_PER_SUBSTEP_RAD)))
  }

  function ProxyNeeds(
    body: PlanarRigidBody, proxy: KinematicCollisionProxy, dt: real, hypot: (real, real) -> real): int
  {
    var required := Ceiling(Travel(body, proxy.velocity, dt, hypot) / TRANSLATION_PER_SUBSTEP_M);
    if proxy.shape.Box?
    then MaxInt(required, Ceiling(RelativeTurn(body, proxy, dt) / ROTATION_PER_SUBSTEP_RAD))
    else required
  }

  lemma {:induction false} BodyNeedIsExact(body: PlanarRigidBody, dt: real, n: int, hypot: (real, real) -> real)
    ensures BodyNeeds(body, dt, hypot) <= n <==> n >= 1 && BodyFits(body, dt, n, hypot)
  {
    CeilingFits(Travel(body, ZERO, dt, hypot), TRANSLATION_PER_SUBSTEP_M, n);
    CeilingFits(Turn(body, dt), ROTATION_PER_SUBSTEP_RAD, n);
    hide Travel, Turn;
  }

  lemma {:induction false} ProxyNeedIsExact(
    body: PlanarRigidBody, proxy: KinematicCollisionProxy, dt: real, n: int, hypot: (real, real) -> real)
    ensures ProxyNeeds(body, proxy, dt, hypot) <= n <==> ProxyFits(body, proxy, dt, n, hypot)
  {
    CeilingFits(Travel(body, proxy.velocity, dt, hypot), TRANSLATION_PER_SUBSTEP_M, n);
    CeilingFits(RelativeTurn(body, proxy, dt), ROTATION_PER_SUBSTEP_RAD, n);
    hide Travel, RelativeTurn;
  }

  lemma {:induction false} PairNeedIsExact(
    first: KinematicCollisionProxy, second: KinematicCollisionProxy, dt: real, n: int, hypot: (real, real) -> real)
    requires first.mass > 0.0 && second.mass > 0.0
    ensures Ceiling(PairTravel(first, second, dt, hypot) / TRANSLATION_PER_SUBSTEP_M) <= n
        <==> PairFits(first, second, dt, n, hypot)
  {
    CeilingFits(PairTravel(first, second, dt, hypot), TRANSLATION_PER_SUBSTEP_M, n);
    hide PairTravel;
  }

  /** The most that the body and the first `upTo` proxies need. */
  function NeedAgainst(
    body: PlanarRigidBody, proxies: seq<KinematicCollisionProxy>, upTo: nat, dt: real, hypot: (real, real) -> real): int
    requires upTo <= |proxies|
  {
    if upTo == 0 then BodyNeeds(body, dt, hypot)
    else MaxInt(NeedAgainst(body, proxies, upTo - 1, dt, hypot), ProxyNeeds(body, proxies[upTo - 1], dt, hypot))
  }

  /** The most of `start` and what one finite proxy needs against the finite ones from it up to `upTo`. */
  function NeedInRow(
    proxies: seq<KinematicCollisionProxy>, i: nat, upTo: nat, start: int, dt: real, hypot: (real, real) -> real): int
    requires i < upTo <= |proxies|
  {
    if upTo == i + 1 then start
    else
      var sofar, second := NeedInRow(proxies, i, upTo - 1, start, dt, hypot), proxies[upTo - 1];
      if second.mass <= 0.0 then sofar
      else MaxInt(sofar, Ceiling(PairTravel(proxies[i], second, dt, hypot) / TRANSLATION_PER_SUBSTEP_M))
  }

  function NeedInRows(
    proxies: seq<KinematicCollisionProxy>, rows: nat, start: int, dt: real, hypot: (real, real) -> real): int
    requires rows <= |proxies|
  {
    if rows == 0 then start
    else
      var sofar := NeedInRows(proxies, rows - 1, start, dt, hypot);
      if proxies[rows - 1].mass <= 0.0 then sofar else NeedInRow(proxies, rows - 1, |proxies|, sofar, dt, hypot)
  }

  lemma {:induction false} AgainstIsExact(
    body: PlanarRigidBody, proxies: seq<KinematicCollisionProxy>, upTo: nat, dt: real, n: int,
    hypot: (real, real) -> real)
    requires upTo <= |proxies|
    ensures NeedAgainst(body, proxies, upTo, dt, hypot) <= n
        <==> n >= 1 && BodyFits(body, dt, n, hypot) && AgainstFit(body, proxies, upTo, dt, n, hypot)
  {
    hide BodyFits, ProxyFits, BodyNeeds, ProxyNeeds;
    BodyNeedIsExact(body, dt, n, hypot);
    if upTo > 0 {
      AgainstIsExact(body, proxies, upTo - 1, dt, n, hypot);
      ProxyNeedIsExact(body, proxies[upTo - 1], dt, n, hypot);
    }
  }

  lemma {:induction false} RowIsExact(
    proxies: seq<KinematicCollisionProxy>, i: nat, upTo: nat, start: int, dt: real, n: int,
    hypot: (real, real) -> real)
    requires i < upTo <= |proxies| && proxies[i].mass > 0.0
    ensures NeedInRow(proxies, i, upTo, start, dt, hypot) <= n
      <==> start <= n && RowFits(proxies, i, upTo, dt, n, hypot)
  {
    hide PairTravel, Ceiling;
    if upTo > i + 1 {
      RowIsExact(proxies, i, upTo - 1, start, dt, n, hypot);
      if proxies[upTo - 1].mass > 0.0 {
        PairNeedIsExact(proxies[i], proxies[upTo - 1], dt, n, hypot);
      }
    }
  }

  lemma {:induction false} RowsAreExact(
    proxies: seq<KinematicCollisionProxy>, rows: nat, start: int, dt: real, n: int, hypot: (real, real) -> real)
    requires rows <= |proxies|
    ensures NeedInRows(proxies, rows, start, dt, hypot) <= n <==> start <= n && RowsFit(proxies, rows, dt, n, hypot)
  {
    hide NeedInRow;
    if rows > 0 {
      RowsAreExact(proxies, rows - 1, start, dt, n, hypot);
      if proxies[rows - 1].mass > 0.0 {
        hide RowFits;
        RowIsExact(proxies, rows - 1, |proxies|, NeedInRows(proxies, rows - 1, start, dt, hypot), dt, n, hypot);
      }
    }
  }

  /** Exactly the least number of substeps that keeps every motion within the limits. */
  method RequiredSubsteps(
    body: PlanarRigidBody, proxies: seq<KinematicCollisionProxy>, dt: real, hypot: (real, real) -> real)
    returns (required: int)
    ensures forall n: int :: Enough(body, proxies, dt, n, hypot) <==> required <= n
  {
    hide BodyNeeds, ProxyNeeds, Ceiling, PairTravel, BodyFits, AgainstFit, RowsFit;
    required := BodyNeeds(body, dt, hypot);
    for i := 0 to |proxies|
      invariant required == NeedAgainst(body, proxies, i, dt, hypot)
    {
      required := MaxInt(required, ProxyNeeds(body, proxies[i], dt, hypot));
    }
    ghost var start := required;
    for i := 0 to |proxies|
      invariant required == NeedInRows(proxies, i, start, dt, hypot)
    {
      if proxies[i].mass <= 0.0 {
        continue;
      }
      ghost var before := required;
      for j := i + 1 to |proxies|
        invariant required == NeedInRow(proxies, i, j, before, dt, hypot)
      {
        if proxies[j].mass <= 0.0 {
          continue;
        }
        required := MaxInt(required,
          Ceiling(PairTravel(proxies[i], proxies[j], dt, hypot) / TRANSLATION_PER_SUBSTEP_M));
      }
    }
    forall n: int
      ensures Enough(body, proxies, dt, n, hypot) <==> required <= n
    {
      AgainstIsExact(body, proxies, |proxies|, dt, n, hypot);
      RowsAreExact(proxies, |proxies|, start, dt, n, hypot);
    }
  }

  // ---- The budget of a tick ----

  /** The substeps taken and the time they cover; a tick that needs more than 64 is cut short. */
  datatype Budget = Budget(count: nat, clamped: bool, integratedDt: real)

  /** The least number of substeps that keeps every initial motion within the limits, cut off at 64. */
  method PlanSubsteps(
    body: PlanarRigidBody, proxies: seq<KinematicCollisionProxy>, dt: real, hypot: (real, real) -> real)
    returns (budget: Budget, ghost required: int)
    requires IsHypot(hypot) && dt > 0.0
    ensures forall n: int :: Enough(body, proxies, dt, n, hypot) <==> required <= n
    ensures BudgetFor(budget, required, dt) && 0.0 < budget.integratedDt <= dt
    ensures budget.integratedDt == dt <==> Enough(body, proxies, dt, MAXIMUM_SUBSTEPS, hypot)
    ensures Enough(body, proxies, budget.integratedDt / budget.count as real, 1, hypot)
  {
    hide Enough;
    var substeps := RequiredSubsteps(body, proxies, dt, hypot);
    required := substeps;
    AtLeastOne(body, proxies, dt, substeps, hypot);
    if substeps > MAXIMUM_SUBSTEPS {
      budget := Budget(MAXIMUM_SUBSTEPS, true, dt * MAXIMUM_SUBSTEPS as real / substeps as real);
    } else {
      budget := Budget(substeps, false, dt);
    }
    SameShare(dt, substeps as real);
    ClampingShortens(budget, substeps, dt);
    SubstepsAreFine(body, proxies, dt, substeps, hypot);
  }

  lemma AtLeastOne(
    body: PlanarRigidBody, proxies: seq<KinematicCollisionProxy>, dt: real, n: int, hypot: (real, real) -> real)
    requires Enough(body, proxies, dt, n, hypot)
    ensures n >= 1
  {
  }

  lemma SameShare(dt: real, required: real)
    requires required > 0.0
    ensures dt * 64.0 / required / 64.0 == dt / required
  {
  }

  /**
   * Each substep is the tick divided by the substeps it needs, also when not all of them are taken: clamping shortens
   * the time that is integrated, never coarsens it. All of the tick is integrated exactly when at most 64 are needed.
   */
  ghost predicate BudgetFor(budget: Budget, required: int, dt: real) {
    && required >= 1 && budget.clamped == (required > MAXIMUM_SUBSTEPS)
    && budget.count == (if budget.clamped then MAXIMUM_SUBSTEPS else required)
    && budget.integratedDt / budget.count as real == dt / required as real
    && (!budget.clamped ==> budget.integratedDt == dt)
  }

  lemma {:induction false} ClampingShortens(budget: Budget, required: int, dt: real)
    requires BudgetFor(budget, required, dt) && dt > 0.0
    ensures 0.0 < budget.integratedDt <= dt && (budget.integratedDt == dt <==> required <= MAXIMUM_SUBSTEPS)
  {
    var share := dt / required as real;
    QuotientTimes(dt, required as real);
    QuotientTimes(budget.integratedDt, budget.count as real);
    TimesCommutes(share, required as real);
    TimesCommutes(share, budget.count as real);
    TimesOrder(share, budget.count as real, required as real);
    TimesPositive(share, budget.count as real);
    hide Times;
  }

  /** The length of a scaled vector is the scaled length. */
  lemma {:induction false} ScaledLength(x: real, y: real, share: real, hypot: (real, real) -> real)
    requires IsHypot(hypot) && share >= 0.0
    ensures hypot(Times(x, share), Times(y, share)) == Times(hypot(x, y), share)
  {
    var length := hypot(x, y);
    assert IsLength(length, x, y)
      && IsLength(hypot(Times(x, share), Times(y, share)), Times(x, share), Times(y, share));
    TimesPositive(length, share);
    ScaledProduct(length, share);
    ScaledProduct(x, share);
    ScaledProduct(y, share);
    TimesDistributes(Times(share, share), Times(x, x), Times(y, y));
    SquaresOrder(hypot(Times(x, share), Times(y, share)), Times(length, share));
    hide Times;
  }

  lemma ScaledProduct(x: real, share: real)
    ensures Times(Times(x, share), Times(x, share)) == Times(Times(share, share), Times(x, x))
  {
  }

  lemma ShareOf(x: real, dt: real, n: real)
    requires n > 0.0
    ensures Times(x, dt / n) == Times(Times(x, dt), 1.0 / n)
  {
  }

  lemma ShareOfMagnitude(x: real, n: real)
    requires n > 0.0
    ensures Abs(Times(x, 1.0 / n)) == Times(Abs(x), 1.0 / n)
  {
  }

  lemma ShareFits(x: real, n: real, limit: real)
    requires n > 0.0
    ensures Times(x, 1.0 / n) <= 1.0 * limit <==> x <= n * limit
  {
  }

  lemma ShareOfSum(x: real, factor: real, y: real, share: real)
    ensures Times(x, share) + Times(factor, Times(y, share)) == Times(x + Times(factor, y), share)
  {
  }

  lemma {:induction false} ShareOfTravel(
    body: PlanarRigidBody, velocity: Vector2, dt: real, n: real, hypot: (real, real) -> real)
    requires IsHypot(hypot) && n > 0.0
    ensures Turn(body, dt / n) == Times(Turn(body, dt), 1.0 / n)
    ensures Travel(body, velocity, dt / n, hypot) == Times(Travel(body, velocity, dt, hypot), 1.0 / n)
  {
    hide Times, Subtract, Abs, IsHypot;
    var relative := Subtract(body.velocity, velocity);
    ShareOf(body.headingRate, dt, n);
    ShareOfMagnitude(Times(body.headingRate, dt), n);
    ShareOf(relative.east, dt, n);
    ShareOf(relative.north, dt, n);
    ScaledLength(Times(relative.east, dt), Times(relative.north, dt), 1.0 / n, hypot);
    ShareOfSum(hypot(Times(relative.east, dt), Times(relative.north, dt)), Abs(body.centerOfMassOffset), Turn(body, dt),
      1.0 / n);
  }

  /** No motion of the tick's start exceeds the limits in any of the substeps, and fewer substeps would not do. */
  lemma {:induction false} SubstepsAreFine(
    body: PlanarRigidBody, proxies: seq<KinematicCollisionProxy>, dt: real, n: int, hypot: (real, real) -> real)
    requires IsHypot(hypot) && n >= 1
    ensures Enough(body, proxies, dt, n, hypot) <==> Enough(body, proxies, dt / n as real, 1, hypot)
  {
    hide Times, Travel, Turn, RelativeTurn, PairTravel, IsHypot;
    BodyShare(body, dt, n, hypot);
    forall i: nat | i < |proxies|
      ensures ProxyFits(body, proxies[i], dt, n, hypot) <==> ProxyFits(body, proxies[i], dt / n as real, 1, hypot)
      ensures RowFits(proxies, i, |proxies|, dt, n, hypot) <==> RowFits(proxies, i, |proxies|, dt / n as real, 1, hypot)
    {
      ProxyShare(body, proxies[i], dt, n, hypot);
      forall j: nat | i < j < |proxies|
        ensures PairFits(proxies[i], proxies[j], dt, n, hypot)
          <==> PairFits(proxies[i], proxies[j], dt / n as real, 1, hypot)
      {
        PairShare(proxies[i], proxies[j], dt, n, hypot);
      }
      hide PairFits, ProxyFits;
    }
    hide BodyFits, ProxyFits, RowFits;
  }

  lemma {:induction false} BodyShare(body: PlanarRigidBody, dt: real, n: int, hypot: (real, real) -> real)
    requires IsHypot(hypot) && n >= 1
    ensures BodyFits(body, dt, n, hypot) <==> BodyFits(body, dt / n as real, 1, hypot)
  {
    hide Times, Travel, Turn, IsHypot;
    ShareOfTravel(body, ZERO, dt, n as real, hypot);
    ShareFits(Travel(body, ZERO, dt, hypot), n as real, TRANSLATION_PER_SUBSTEP_M);
    ShareFits(Turn(body, dt), n as real, ROTATION_PER_SUBSTEP_RAD);
  }

  lemma {:induction false} ProxyShare(
    body: PlanarRigidBody, proxy: KinematicCollisionProxy, dt: real, n: int, hypot: (real, real) -> real)
    requires IsHypot(hypot) && n >= 1
    ensures ProxyFits(body, proxy, dt, n, hypot) <==> ProxyFits(body, proxy, dt / n as real, 1, hypot)
  {
    hide Times, Travel, IsHypot, Abs;
    ShareOfTravel(body, proxy.velocity, dt, n as real, hypot);
    ShareFits(Travel(body, proxy.velocity, dt, hypot), n as real, TRANSLATION_PER_SUBSTEP_M);
    ShareOf(body.headingRate - proxy.headingRate, dt, n as real);
    ShareOfMagnitude(Times(body.headingRate - proxy.headingRate, dt), n as real);
    ShareFits(RelativeTurn(body, proxy, dt), n as real, ROTATION_PER_SUBSTEP_RAD);
  }

  lemma {:induction false} PairShare(
    first: KinematicCollisionProxy, second: KinematicCollisionProxy, dt: real, n: int, hypot: (real, real) -> real)
    requires n >= 1
    ensures PairFits(first, second, dt, n, hypot) <==> PairFits(first, second, dt / n as real, 1, hypot)
  {
    hide Times, Subtract;
    var relative := Subtract(first.velocity, second.velocity);
    ShareOf(hypot(relative.east, relative.north), dt, n as real);
    ShareFits(PairTravel(first, second, dt, hypot), n as real, TRANSLATION_PER_SUBSTEP_M);
  }
}
