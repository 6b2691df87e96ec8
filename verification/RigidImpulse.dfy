/** Impulses on planar rigid bodies: work, momentum, restitution and friction for a pair in contact. */
module RigidImpulse {
  import opened Planar

  /**
   * Linear velocity of the mass centre and counter-clockwise spin, with masses and their inverses.
   * An immovable obstacle has no mass and no inverse mass; a capsule has no inertia and no inverse inertia.
   */
  datatype Rigid = Rigid(
    velocity: Vector2, spin: real, mass: real, inertia: real, inverseMass: real, inverseInertia: real)

  ghost predicate ValidRigid(r: Rigid) {
    && r.inverseMass >= 0.0 && r.inverseInertia >= 0.0 && r.mass >= 0.0 && r.inertia >= 0.0
    && (Times(r.mass, r.inverseMass) == 1.0 || (r.mass == 0.0 && r.inverseMass == 0.0 && r.velocity == ZERO))
    && (Times(r.inertia, r.inverseInertia) == 1.0 || (r.inertia == 0.0 && r.inverseInertia == 0.0 && r.spin == 0.0))
  }

  function KineticEnergy(r: Rigid): real {
    0.5 * Times(r.mass, Dot(r.velocity, r.velocity)) + 0.5 * Times(r.inertia, Times(r.spin, r.spin))
  }

  /** The velocity of the body's point at `offset` from its mass centre. */
  function PointVelocity(r: Rigid, offset: Vector2): Vector2 {
    VelocityAt(r.velocity, r.spin, offset)
  }

  /** The body after impulse `j` along `direction` at `offset`. */
  function Impelled(r: Rigid, offset: Vector2, direction: Vector2, j: real): Rigid {
    r.(velocity := Add(r.velocity, Multiply(direction, Times(j, r.inverseMass))),
       spin := r.spin + Times(Cross(offset, direction), Times(j, r.inverseInertia)))
  }

  /** Velocity gained along `direction` per unit of impulse. */
  function Mobility(r: Rigid, offset: Vector2, direction: Vector2): real {
    r.inverseMass + Times(Times(Cross(offset, direction), Cross(offset, direction)), r.inverseInertia)
  }

  function Along(r: Rigid, offset: Vector2, direction: Vector2): real {
    Dot(PointVelocity(r, offset), direction)
  }

  lemma AlongSplits(r: Rigid, offset: Vector2, direction: Vector2)
    ensures Along(r, offset, direction) == Dot(r.velocity, direction) + Times(r.spin, Cross(offset, direction))
  {
  }

  /** An impulse changes the point velocity along its own direction by impulse times mobility. */
  lemma {:induction false} ImpulseChangesVelocity(r: Rigid, offset: Vector2, direction: Vector2, j: real)
    requires Unit(direction)
    ensures Along(Impelled(r, offset, direction, j), offset, direction)
         == Along(r, offset, direction) + Times(j, Mobility(r, offset, direction))
  {
    var after := Impelled(r, offset, direction, j);
    AlongSplits(r, offset, direction);
    AlongSplits(after, offset, direction);
    DotOfSum(r.velocity, direction, Times(j, r.inverseMass), direction);
    var arm := Cross(offset, direction);
    hide Dot, Cross, Along, Add, Multiply;
    assert Times(Times(j, r.inverseMass), Dot(direction, direction)) == Times(j, r.inverseMass);
    SpinGain(r.spin, arm, j, r.inverseMass, r.inverseInertia);
  }

  lemma DotOfSum(v: Vector2, w: Vector2, factor: real, axis: Vector2)
    ensures Dot(Add(v, Multiply(w, factor)), axis) == Dot(v, axis) + Times(factor, Dot(w, axis))
  {
  }

  lemma SpinGain(spin: real, arm: real, j: real, inverseMass: real, inverseInertia: real)
    ensures Times(spin + Times(arm, Times(j, inverseInertia)), arm) + Times(j, inverseMass)
         == Times(spin, arm) + Times(j, inverseMass + Times(Times(arm, arm), inverseInertia))
  {
  }

  lemma {:induction false} LinearWork(m: real, im: real, v: Vector2, d: Vector2, j: real)
    requires Unit(d)
    requires Times(m, im) == 1.0 || (m == 0.0 && im == 0.0 && v == ZERO)
    ensures var w := Add(v, Multiply(d, Times(j, im)));
      Times(m, Dot(w, w)) == Times(m, Dot(v, v)) + 2.0 * Times(j, Dot(v, d)) + Times(Times(j, j), im)
  {
    var w := Add(v, Multiply(d, Times(j, im)));
    var f := Times(j, im);
    assert Dot(w, w) == Dot(v, v) + 2.0 * Times(f, Dot(v, d)) + Times(Times(f, f), Dot(d, d));
    var vd, vv := Dot(v, d), Dot(v, v);
    assert Dot(d, d) == 1.0;
    assert v == ZERO ==> vd == 0.0;
    WeightedSquare(m, im, j, vv, vd, Dot(w, w));
  }

  lemma {:induction false} WeightedSquare(m: real, im: real, j: real, vv: real, vd: real, ww: real)
    requires ww == vv + 2.0 * Times(Times(j, im), vd) + Times(Times(j, im), Times(j, im))
    requires Times(m, im) == 1.0 || (m == 0.0 && im == 0.0 && vd == 0.0)
    ensures Times(m, ww) == Times(m, vv) + 2.0 * Times(j, vd) + Times(Times(j, j), im)
  {
    if Times(m, im) == 1.0 {
      assert Times(m, ww) == Times(m, vv) + 2.0 * Times(Times(m, im), Times(j, vd))
                             + Times(Times(m, im), Times(Times(j, j), im));
    }
  }

  lemma {:induction false} SpinWork(inertia: real, iI: real, spin: real, arm: real, j: real)
    requires Times(inertia, iI) == 1.0 || (inertia == 0.0 && iI == 0.0 && spin == 0.0)
    ensures var w := spin + Times(arm, Times(j, iI));
      Times(inertia, Times(w, w))
      == Times(inertia, Times(spin, spin)) + 2.0 * Times(j, Times(spin, arm))
        + Times(Times(j, j), Times(Times(arm, arm), iI))
  {
    var w := spin + Times(arm, Times(j, iI));
    if Times(inertia, iI) == 1.0 {
      assert Times(inertia, Times(w, w)) == Times(inertia, Times(spin, spin))
          + 2.0 * Times(Times(inertia, iI), Times(j, Times(spin, arm)))
          + Times(Times(inertia, iI), Times(Times(j, j), Times(Times(arm, arm), iI)));
    }
  }

  /** The energy an impulse adds: impulse times velocity, plus half the mobility times its square. */
  lemma {:induction false} ImpulseWork(r: Rigid, offset: Vector2, direction: Vector2, j: real)
    requires ValidRigid(r) && Unit(direction)
    ensures KineticEnergy(Impelled(r, offset, direction, j))
         == KineticEnergy(r) + Times(j, Along(r, offset, direction))
            + 0.5 * Times(Times(j, j), Mobility(r, offset, direction))
  {
    hide Times, Dot, Cross, Along, Add, Multiply;
    LinearWork(r.mass, r.inverseMass, r.velocity, direction, j);
    SpinWork(r.inertia, r.inverseInertia, r.spin, Cross(offset, direction), j);
    AlongSplits(r, offset, direction);
    TimesDistributes(j, Dot(r.velocity, direction), Times(r.spin, Cross(offset, direction)));
    TimesDistributes(Times(j, j), r.inverseMass,
      Times(Times(Cross(offset, direction), Cross(offset, direction)), r.inverseInertia));
  }

  // ---- Two bodies in contact: equal and opposite impulses ----

  datatype Pair = Pair(first: Rigid, second: Rigid, firstOffset: Vector2, secondOffset: Vector2)

  ghost predicate ValidPair(pair: Pair) {
    ValidRigid(pair.first) && ValidRigid(pair.second)
  }

  function PairImpelled(pair: Pair, direction: Vector2, j: real): Pair {
    pair.(first := Impelled(pair.first, pair.firstOffset, direction, j),
          second := Impelled(pair.second, pair.secondOffset, direction, -j))
  }

  /** Relative velocity of the two contact points; negative while the bodies close along the normal. */
  function Approach(pair: Pair, direction: Vector2): real {
    Along(pair.first, pair.firstOffset, direction) - Along(pair.second, pair.secondOffset, direction)
  }

  function PairMobility(pair: Pair, direction: Vector2): real {
    Mobility(pair.first, pair.firstOffset, direction) + Mobility(pair.second, pair.secondOffset, direction)
  }

  function PairEnergy(pair: Pair): real {
    KineticEnergy(pair.first) + KineticEnergy(pair.second)
  }

  lemma NegatedTimes(j: real, x: real)
    ensures Times(-j, x) == -Times(j, x) && Times(-j, -j) == Times(j, j)
  {
  }

  lemma {:induction false} PairWork(pair: Pair, direction: Vector2, j: real)
    requires ValidPair(pair) && Unit(direction)
    ensures PairEnergy(PairImpelled(pair, direction, j))
         == PairEnergy(pair) + Times(j, Approach(pair, direction))
            + 0.5 * Times(Times(j, j), PairMobility(pair, direction))
  {
    hide Times, Along, Mobility, KineticEnergy, Impelled, ValidRigid, Unit;
    ImpulseWork(pair.first, pair.firstOffset, direction, j);
    ImpulseWork(pair.second, pair.secondOffset, direction, -j);
    NegatedTimes(j, Along(pair.second, pair.secondOffset, direction));
    TimesDistributes(j, Along(pair.first, pair.firstOffset, direction),
      Along(pair.second, pair.secondOffset, direction));
    TimesDistributes(Times(j, j), Mobility(pair.first, pair.firstOffset, direction),
      Mobility(pair.second, pair.secondOffset, direction));
  }

  lemma {:induction false} PairImpulseChangesApproach(pair: Pair, direction: Vector2, j: real)
    requires Unit(direction)
    ensures Approach(PairImpelled(pair, direction, j), direction)
         == Approach(pair, direction) + Times(j, PairMobility(pair, direction))
  {
    hide Times, Along, Mobility, Impelled, Unit;
    ImpulseChangesVelocity(pair.first, pair.firstOffset, direction, j);
    ImpulseChangesVelocity(pair.second, pair.secondOffset, direction, -j);
    NegatedTimes(j, Mobility(pair.second, pair.secondOffset, direction));
    TimesDistributes(j, Mobility(pair.first, pair.firstOffset, direction),
      Mobility(pair.second, pair.secondOffset, direction));
  }

  /** The impulse opposes the approach and at most reverses it. */
  ghost predicate Dissipative(j: real, approach: real, mobility: real) {
    || (approach <= 0.0 && j >= 0.0 && Times(j, mobility) <= -2.0 * approach)
    || (approach >= 0.0 && j <= 0.0 && Times(j, mobility) >= -2.0 * approach)
  }

  lemma {:induction false} DissipativeWork(j: real, approach: real, mobility: real)
    requires Dissipative(j, approach, mobility)
    ensures Times(j, approach) + 0.5 * Times(Times(j, j), mobility) <= 0.0
  {
    assert Times(j, approach) + 0.5 * Times(Times(j, j), mobility)
      == 0.5 * Times(j, Times(j, mobility) + 2.0 * approach);
    if j >= 0.0 {
      TimesPositive(j, Times(j, mobility) + 2.0 * approach);
    } else {
      TimesPositive(-j, -(Times(j, mobility) + 2.0 * approach));
      NegatedTimes(-j, Times(j, mobility) + 2.0 * approach);
      NegatedTimes(j, -(Times(j, mobility) + 2.0 * approach));
    }
    hide Times;
  }

  /** A dissipative impulse never adds kinetic energy to the pair. */
  lemma {:induction false} DissipativeImpulse(pair: Pair, direction: Vector2, j: real)
    requires ValidPair(pair) && Unit(direction)
    requires Dissipative(j, Approach(pair, direction), PairMobility(pair, direction))
    ensures PairEnergy(PairImpelled(pair, direction, j)) <= PairEnergy(pair)
  {
    hide Times, Approach, PairMobility, PairEnergy, PairImpelled, ValidPair, Unit;
    PairWork(pair, direction, j);
    DissipativeWork(j, Approach(pair, direction), PairMobility(pair, direction));
  }

  function Restitution(approach: real, mobility: real, restitution: real): real
    requires mobility != 0.0
  {
    -(1.0 + restitution) * approach / mobility
  }

  /** The normal impulse reverses the closing velocity, scaled by the restitution, and is dissipative. */
  lemma {:induction false} RestitutionImpulse(approach: real, mobility: real, restitution: real)
    requires approach < 0.0 && mobility > 0.0 && 0.0 <= restitution <= 1.0
    ensures var j := Restitution(approach, mobility, restitution);
      && j > 0.0 && approach + Times(j, mobility) == -Times(restitution, approach)
      && Dissipative(j, approach, mobility)
  {
    var x := Times(1.0 + restitution, -approach);
    assert x == -(1.0 + restitution) * approach && x == -approach - Times(restitution, approach);
    TimesPositive(1.0 + restitution, -approach);
    TimesOrder(-approach, restitution, 1.0);
    assert Times(-approach, restitution) == -Times(restitution, approach) && Times(-approach, 1.0) == -approach;
    hide Times;
    QuotientTimes(x, mobility);
  }

  /** Coulomb friction: the impulse stays in the cone and either stops the sliding or opposes it at the limit. */
  lemma {:induction false} FrictionImpulse(approach: real, mobility: real, limit: real)
    requires mobility > 0.0 && limit >= 0.0
    ensures var j := Clamp(-approach / mobility, -limit, limit);
      && Abs(j) <= limit && Dissipative(j, approach, mobility)
      && var after := approach + Times(j, mobility);
         after == 0.0 || (j == limit && after < 0.0) || (j == -limit && after > 0.0)
  {
    QuotientTimes(-approach, mobility);
    var free, j := -approach / mobility, Clamp(-approach / mobility, -limit, limit);
    TimesPositive(mobility, j);
    TimesOrder(mobility, j, free);
    TimesOrder(mobility, free, j);
    TimesCommutes(mobility, j);
    TimesCommutes(mobility, free);
    hide Times;
  }

  lemma {:induction false} MobilityPositive(pair: Pair, direction: Vector2)
    requires pair.first.inverseMass > 0.0 && pair.first.inverseInertia >= 0.0
    requires pair.second.inverseMass >= 0.0 && pair.second.inverseInertia >= 0.0
    ensures PairMobility(pair, direction) > 0.0
  {
    SpinMobility(pair.first.inverseInertia, Cross(pair.firstOffset, direction));
    SpinMobility(pair.second.inverseInertia, Cross(pair.secondOffset, direction));
    hide Times;
  }

  lemma {:induction false} SpinMobility(inverseInertia: real, arm: real)
    requires inverseInertia >= 0.0
    ensures Times(Times(arm, arm), inverseInertia) >= 0.0
  {
    TimesPositive(Square(arm), inverseInertia);
  }

  // ---- Momentum ----

  function Momentum(pair: Pair): Vector2 {
    Add(Multiply(pair.first.velocity, pair.first.mass), Multiply(pair.second.velocity, pair.second.mass))
  }

  /**
   * Angular momentum of one body about a point; the contact lies `arm` from that point and `offset` from the mass
   * centre.
   */
  function AngularMomentum(r: Rigid, offset: Vector2, arm: Vector2): real {
    Times(r.inertia, r.spin) + Times(r.mass, Cross(Subtract(arm, offset), r.velocity))
  }

  function PairAngularMomentum(pair: Pair, arm: Vector2): real {
    AngularMomentum(pair.first, pair.firstOffset, arm) + AngularMomentum(pair.second, pair.secondOffset, arm)
  }

  lemma {:induction false} LinearMomentumGain(m: real, im: real, v: Vector2, d: Vector2, j: real)
    requires Times(m, im) == 1.0
    ensures Multiply(Add(v, Multiply(d, Times(j, im))), m) == Add(Multiply(v, m), Multiply(d, j))
  {
    assert Multiply(d, Times(j, Times(m, im))) == Multiply(d, j);
  }

  lemma MomentOfSpin(inertia: real, inverse: real, spin: real, moment: real, j: real)
    ensures Times(inertia, spin + Times(moment, Times(j, inverse)))
         == Times(inertia, spin) + Times(Times(inertia, inverse), Times(j, moment))
  {
  }

  lemma MomentOfVelocity(mass: real, inverse: real, before: real, moment: real, j: real)
    ensures Times(mass, before + Times(Times(j, inverse), moment))
         == Times(mass, before) + Times(Times(mass, inverse), Times(j, moment))
  {
  }

  lemma CrossOfDifference(arm: Vector2, offset: Vector2, direction: Vector2, j: real)
    ensures Times(j, Cross(Subtract(arm, offset), direction))
      == Times(j, Cross(arm, direction)) - Times(j, Cross(offset, direction))
  {
  }

  lemma UnitTimes(x: real, y: real)
    requires x == 1.0
    ensures Times(x, y) == y
  {
  }

  /**
   * An impulse changes a body's angular momentum about any point by its own moment, less what an unspinnable body
   * drops.
   */
  lemma {:induction false} AngularMomentumGain(r: Rigid, offset: Vector2, direction: Vector2, j: real, arm: Vector2)
    requires Times(r.mass, r.inverseMass) == 1.0
    requires Times(r.inertia, r.inverseInertia) == 1.0 || (r.inertia == 0.0 && r.inverseInertia == 0.0)
    ensures AngularMomentum(Impelled(r, offset, direction, j), offset, arm)
         == AngularMomentum(r, offset, arm) + Times(j, Cross(arm, direction))
            - if r.inertia == 0.0 then Times(j, Cross(offset, direction)) else 0.0
  {
    hide Times, Cross, Add, Multiply, Subtract;
    var lever := Subtract(arm, offset);
    MomentOfSpin(r.inertia, r.inverseInertia, r.spin, Cross(offset, direction), j);
    CrossOfSum(lever, r.velocity, direction, Times(j, r.inverseMass));
    MomentOfVelocity(r.mass, r.inverseMass, Cross(lever, r.velocity), Cross(lever, direction), j);
    CrossOfDifference(arm, offset, direction, j);
    UnitTimes(Times(r.mass, r.inverseMass), Times(j, Cross(lever, direction)));
    ZeroTimes(r.inverseInertia);
    ZeroTimes(Times(j, Cross(offset, direction)));
    if Times(r.inertia, r.inverseInertia) == 1.0 {
      UnitTimes(Times(r.inertia, r.inverseInertia), Times(j, Cross(offset, direction)));
    }
  }

  /** Equal and opposite impulses at one point conserve the pair's angular momentum, unless the second cannot spin. */
  lemma {:induction false} PairAngularGain(pair: Pair, direction: Vector2, j: real, arm: Vector2)
    requires Times(pair.first.mass, pair.first.inverseMass) == 1.0
    requires Times(pair.second.mass, pair.second.inverseMass) == 1.0
    requires Times(pair.first.inertia, pair.first.inverseInertia) == 1.0
    requires Times(pair.second.inertia, pair.second.inverseInertia) == 1.0
          || (pair.second.inertia == 0.0 && pair.second.inverseInertia == 0.0)
    ensures PairAngularMomentum(PairImpelled(pair, direction, j), arm)
         == PairAngularMomentum(pair, arm)
            + if pair.second.inertia == 0.0 then Times(j, Cross(pair.secondOffset, direction)) else 0.0
  {
    hide Times, Cross, AngularMomentum;
    AngularMomentumGain(pair.first, pair.firstOffset, direction, j, arm);
    AngularMomentumGain(pair.second, pair.secondOffset, direction, -j, arm);
    NegatedTimes(j, Cross(arm, direction));
    NegatedTimes(j, Cross(pair.secondOffset, direction));
    ZeroTimes(pair.first.inverseInertia);
  }

  lemma CrossOfSum(offset: Vector2, v: Vector2, w: Vector2, factor: real)
    ensures Cross(offset, Add(v, Multiply(w, factor))) == Cross(offset, v) + Times(factor, Cross(offset, w))
  {
  }

  /** Equal and opposite impulses conserve linear momentum. */
  lemma {:induction false} PairMomentum(pair: Pair, direction: Vector2, j: real)
    requires Times(pair.first.mass, pair.first.inverseMass) == 1.0
    requires Times(pair.second.mass, pair.second.inverseMass) == 1.0
    ensures Momentum(PairImpelled(pair, direction, j)) == Momentum(pair)
  {
    LinearMomentumGain(pair.first.mass, pair.first.inverseMass, pair.first.velocity, direction, j);
    LinearMomentumGain(pair.second.mass, pair.second.inverseMass, pair.second.velocity, direction, -j);
    var p1, p2 := Multiply(pair.first.velocity, pair.first.mass), Multiply(pair.second.velocity, pair.second.mass);
    assert Add(Add(p1, Multiply(direction, j)), Add(p2, Multiply(direction, -j))) == Add(p1, p2);
    hide Times, Multiply, Add;
  }

  // ---- Bounds on spin and speed ----

  /** Bounding the spin of a body that has inertia never adds energy. */
  lemma {:induction false} BoundedSpin(r: Rigid, bound: real)
    requires r.inertia >= 0.0 && bound >= 0.0
    ensures KineticEnergy(r.(spin := Clamp(r.spin, -bound, bound))) <= KineticEnergy(r)
  {
    var bounded := Clamp(r.spin, -bound, bound);
    EvenSquare(r.spin);
    EvenSquare(bounded);
    SquaresOrder(Abs(bounded), Abs(r.spin));
    TimesOrder(r.inertia, Times(bounded, bounded), Times(r.spin, r.spin));
    hide Times;
  }

  lemma ScaledSquare(v: Vector2, factor: real)
    ensures Dot(Multiply(v, factor), Multiply(v, factor)) == Times(Times(factor, factor), Dot(v, v))
  {
  }

  lemma {:induction false} LengthNotNegative(v: Vector2)
    ensures Dot(v, v) >= 0.0
  {
    assert Dot(v, v) == Square(v.east) + Square(v.north);
    hide Dot, Square;
  }

  lemma {:induction false} SquaredFraction(top: real, speed: real)
    requires 0.0 <= top < speed
    ensures 0.0 <= Times(top / speed, top / speed) <= 1.0
  {
    var factor := top / speed;
    QuotientTimes(top, speed);
    TimesCommutes(factor, speed);
    TimesOrder(speed, 1.0, factor);
    assert Times(speed, 1.0) == speed;
    TimesPositive(factor, factor);
    SquaresOrder(factor, 1.0);
    assert Times(1.0, 1.0) == 1.0;
    hide Times;
  }

  /** Scaling the velocity down to a top speed never adds energy. */
  lemma {:induction false} BoundedSpeed(r: Rigid, speed: real, top: real)
    requires r.mass >= 0.0 && 0.0 <= top < speed
    ensures KineticEnergy(r.(velocity := Multiply(r.velocity, top / speed))) <= KineticEnergy(r)
  {
    hide Times, Dot, Multiply;
    var factor, square := top / speed, Dot(r.velocity, r.velocity);
    ScaledSquare(r.velocity, factor);
    LengthNotNegative(r.velocity);
    SquaredFraction(top, speed);
    TimesOrder(square, Times(factor, factor), 1.0);
    TimesCommutes(Times(factor, factor), square);
    TimesOne(square);
    TimesOrder(r.mass, Times(Times(factor, factor), square), square);
  }
}
