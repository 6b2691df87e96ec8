/** Planar east/north vectors and the scalar helpers that every solver shares. */
module Planar {

  function Abs(x: real): real {
    if x < 0.0 then -x else x
  }

  function Min(x: real, y: real): real {
    if y < x then y else x
  }

  function Max(x: real, y: real): real {
    if x < y then y else x
  }

  function Clamp(x: real, low: real, high: real): real
    requires low <= high
  {
    if x < low then low else if high < x then high else x
  }

  /** Multiplication as a named function: equal factors give equal products by congruence. */
  function Times(x: real, y: real): real {
    x * y
  }

  function Square(x: real): (square: real)
    ensures square >= 0.0
    ensures x != 0.0 ==> square > 0.0
  {
    TimesPositive(Abs(x), Abs(x));
    Times(x, x)
  }

  datatype Vector2 = Vector2(east: real, north: real)

  const ZERO := Vector2(0.0, 0.0)

  function Dot(a: Vector2, b: Vector2): real {
    a.east * b.east + a.north * b.north
  }

  function Cross(a: Vector2, b: Vector2): real {
    a.east * b.north - a.north * b.east
  }

  function Add(a: Vector2, b: Vector2): Vector2 {
    Vector2(a.east + b.east, a.north + b.north)
  }

  function Subtract(a: Vector2, b: Vector2): Vector2 {
    Vector2(a.east - b.east, a.north - b.north)
  }

  function Multiply(v: Vector2, scalar: real): Vector2 {
    Vector2(v.east * scalar, v.north * scalar)
  }

  /** Velocity of the point at `offset` from a mass centre; the spin is counter-clockwise. */
  function VelocityAt(velocity: Vector2, spin: real, offset: Vector2): Vector2 {
    Vector2(velocity.east - spin * offset.north, velocity.north + spin * offset.east)
  }

  ghost predicate Unit(v: Vector2) {
    Dot(v, v) == 1.0
  }

  /** The clockwise perpendicular: the right axis that belongs to a forward axis. */
  function Right(forward: Vector2): Vector2 {
    Vector2(forward.north, -forward.east)
  }

  /** `length` is the Euclidean length of (x, y): non-negative, with the right square. */
  ghost predicate IsLength(length: real, x: real, y: real) {
    length >= 0.0 && Times(length, length) == Times(x, x) + Times(y, y)
  }

  /** Any function that returns Euclidean lengths may stand for `hypot`. */
  ghost predicate IsHypot(hypot: (real, real) -> real) {
    forall x, y :: IsLength(hypot(x, y), x, y)
  }

  lemma TimesPositive(x: real, y: real)
    ensures x > 0.0 && y > 0.0 ==> Times(x, y) > 0.0
    ensures x >= 0.0 && y >= 0.0 ==> Times(x, y) >= 0.0
    ensures x >= 0.0 && y <= 0.0 ==> Times(x, y) <= 0.0
    ensures x > 0.0 && y < 0.0 ==> Times(x, y) < 0.0
  {
  }

  lemma TimesDistributes(x: real, y: real, z: real)
    ensures Times(x, y - z) == Times(x, y) - Times(x, z)
    ensures Times(x, y + z) == Times(x, y) + Times(x, z)
  {
  }

  lemma {:induction false} TimesOrder(x: real, y: real, z: real)
    requires x >= 0.0
    ensures y <= z ==> Times(x, y) <= Times(x, z)
    ensures x > 0.0 && y < z ==> Times(x, y) < Times(x, z)
  {
    hide Times;
    TimesDistributes(x, z, y);
    TimesPositive(x, z - y);
  }

  lemma {:induction false} TimesCancels(x: real, y: real, z: real)
    requires x > 0.0 && Times(x, y) == Times(x, z)
    ensures y == z
  {
    hide Times;
    TimesOrder(x, y, z);
    TimesOrder(x, z, y);
  }

  lemma EvenSquare(x: real)
    ensures Times(-x, -x) == Times(x, x)
  {
  }

  /** On non-negative numbers squaring preserves and reflects the order. */
  lemma {:induction false} SquaresOrder(x: real, y: real)
    requires 0.0 <= x && 0.0 <= y
    ensures x < y <==> Times(x, x) < Times(y, y)
    ensures x == y <==> Times(x, x) == Times(y, y)
  {
    if x < y {
      SquareLess(x, y);
    } else if y < x {
      SquareLess(y, x);
    }
  }

  lemma {:induction false} SquareLess(x: real, y: real)
    requires 0.0 <= x < y
    ensures Times(x, x) < Times(y, y)
  {
    TimesPositive(y - x, y + x);
    assert Times(y - x, y + x) == Times(y, y) - Times(x, x);
  }

  lemma TimesCommutes(x: real, y: real)
    ensures Times(x, y) == Times(y, x)
  {
  }

  lemma TimesOne(x: real)
    ensures Times(x, 1.0) == x
  {
  }

  lemma TimesZero(x: real)
    ensures Times(x, 0.0) == 0.0
  {
  }

  lemma ZeroTimes(x: real)
    ensures Times(0.0, x) == 0.0
  {
  }

  lemma QuotientTimes(x: real, y: real)
    requires y > 0.0
    ensures Times(x / y, y) == x
    ensures x >= 0.0 ==> x / y >= 0.0
    ensures x > 0.0 ==> x / y > 0.0
    ensures x <= 0.0 ==> x / y <= 0.0
  {
  }

  lemma ProductOfQuotient(x: real, z: real)
    requires z != 0.0
    ensures Times(z, x / z) == x
  {
  }

  lemma PositiveQuotient(x: real, y: real)
    requires x > 0.0 && y > 0.0
    ensures x / y > 0.0
  {
  }

  lemma FractionBounds(x: real, y: real)
    requires 0.0 <= x <= y && y > 0.0
    ensures 0.0 <= x / y <= 1.0
  {
  }

  lemma {:induction false} LengthBoundsCoordinates(length: real, x: real, y: real)
    requires IsLength(length, x, y)
    ensures -length <= x <= length && -length <= y <= length
  {
    hide Times;
    assert Square(x) >= 0.0 && Square(y) >= 0.0;
    SquaresOrder(length, Abs(x));
    SquaresOrder(length, Abs(y));
    EvenSquare(x);
    EvenSquare(y);
  }

  lemma DoubleFlip(v: Vector2)
    ensures Multiply(Multiply(v, -1.0), -1.0) == v
  {
  }

  lemma DotOfDifference(v: Vector2, w: Vector2, axis: Vector2)
    ensures Dot(Subtract(v, w), axis) == Dot(v, axis) - Dot(w, axis)
  {
  }
}
