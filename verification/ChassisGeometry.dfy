/** What the chassis frame, the shell and the contact rows mean in space, without reference to how they are computed. */
module ChassisGeometry {
  import opened Options
  import opened Planar
  import opened ChassisSolver

  // ---- The body frame ----

  /** The angle-addition identities of sine and cosine. */
  ghost predicate AddsAngles(trig: Trigonometry) {
    forall x, y ::
      && trig.sine(x + y) == trig.sine(x) * trig.cosine(y) + trig.cosine(x) * trig.sine(y)
      && trig.cosine(x + y) == trig.cosine(x) * trig.cosine(y) - trig.sine(x) * trig.sine(y)
  }

  function Add3(a: Vector3, b: Vector3): Vector3 {
    Vector3(a.x + b.x, a.y + b.y, a.z + b.z)
  }

  function Scale3(a: Vector3, factor: real): Vector3 {
    Vector3(Times(a.x, factor), Times(a.y, factor), Times(a.z, factor))
  }

  function Weighted(a: Vector3, x: real, b: Vector3, y: real): Vector3 {
    Vector3(Mix(a.x, x, b.x, y), Mix(a.y, x, b.y, y), Mix(a.z, x, b.z, y))
  }

  function Mix(a: real, x: real, b: real, y: real): real {
    Times(a, x) + Times(b, y)
  }

  function Negate3(a: Vector3): Vector3 {
    Vector3(-a.x, -a.y, -a.z)
  }

  /** The up axis of the pitched, not yet rolled body. */
  function PitchedUp(trig: Trigonometry, heading: real, pitch: real): Vector3 {
    Vector3(Times(-trig.sine(pitch), trig.sine(heading)), Times(-trig.sine(pitch), trig.cosine(heading)),
      trig.cosine(pitch))
  }

  function Forward(trig: Trigonometry, heading: real, pitch: real): Vector3 {
    Vector3(Times(trig.cosine(pitch), trig.sine(heading)), Times(trig.cosine(pitch), trig.cosine(heading)),
      trig.sine(pitch))
  }

  lemma AxisComponent(r: real, u: real, c: real, s: real)
    ensures Times(c, r) - Times(s, u) == Mix(r, c, u, -s) && Times(s, r) + Times(c, u) == Mix(r, s, u, c)
    ensures Times(-s, u) == Mix(0.0, c, u, -s) && Times(c, u) == Mix(0.0, s, u, c)
  {
  }

  /** Roll turns the horizontal right axis and the pitched up axis into each other. */
  lemma {:induction false} RolledAxes(trig: Trigonometry, pose: ChassisPose)
    ensures var basis := BasisOf(trig, pose);
      var right, up := HorizontalRight(trig, pose.heading), PitchedUp(trig, pose.heading, pose.pitch);
      && basis.forward == Forward(trig, pose.heading, pose.pitch)
      && basis.right == Weighted(right, trig.cosine(pose.roll), up, -trig.sine(pose.roll))
      && basis.up == Weighted(right, trig.sine(pose.roll), up, trig.cosine(pose.roll))
  {
    hide Times, Mix;
    var right, up := HorizontalRight(trig, pose.heading), PitchedUp(trig, pose.heading, pose.pitch);
    AxisComponent(right.x, up.x, trig.cosine(pose.roll), trig.sine(pose.roll));
    AxisComponent(right.y, up.y, trig.cosine(pose.roll), trig.sine(pose.roll));
    AxisComponent(right.z, up.z, trig.cosine(pose.roll), trig.sine(pose.roll));
  }

  lemma ScaledDifference(a: real, b: real, c: real, d: real, x: real)
    ensures Times(a, Times(b, x)) - Times(c, Times(d, x)) == Times(Times(a, b) - Times(c, d), x)
  {
  }

  lemma {:induction false} ScaledCross(a: Vector3, b: Vector3, x: real)
    ensures Cross3(a, Scale3(b, x)) == Scale3(Cross3(a, b), x)
  {
    hide Times;
    ScaledDifference(a.y, b.z, a.z, b.y, x);
    ScaledDifference(a.z, b.x, a.x, b.z, x);
    ScaledDifference(a.x, b.y, a.y, b.x, x);
  }

  lemma SumDifference(a: real, b: real, c: real, d: real, e: real, f: real)
    ensures Times(a, b + c) - Times(d, e + f) == (Times(a, b) - Times(d, e)) + (Times(a, c) - Times(d, f))
  {
  }

  lemma {:induction false} CrossOfSum3(a: Vector3, b: Vector3, c: Vector3)
    ensures Cross3(a, Add3(b, c)) == Add3(Cross3(a, b), Cross3(a, c))
  {
    hide Times;
    SumDifference(a.y, b.z, c.z, a.z, b.y, c.y);
    SumDifference(a.z, b.x, c.x, a.x, b.z, c.z);
    SumDifference(a.x, b.y, c.y, a.y, b.x, c.x);
  }

  lemma CrossOfSelf(a: Vector3)
    ensures Cross3(a, a) == Vector3(0.0, 0.0, 0.0)
  {
  }

  /** A cross product with a weighted sum. */
  lemma {:induction false} CrossOfWeighted(a: Vector3, b: Vector3, x: real, c: Vector3, y: real)
    ensures Cross3(a, Weighted(b, x, c, y)) == Weighted(Cross3(a, b), x, Cross3(a, c), y)
  {
    WeightedIsSum(b, x, c, y);
    WeightedIsSum(Cross3(a, b), x, Cross3(a, c), y);
    CrossOfSum3(a, Scale3(b, x), Scale3(c, y));
    ScaledCross(a, b, x);
    ScaledCross(a, c, y);
    hide Cross3, Add3, Scale3, Weighted;
  }

  lemma WeightedIsSum(a: Vector3, x: real, b: Vector3, y: real)
    ensures Weighted(a, x, b, y) == Add3(Scale3(a, x), Scale3(b, y))
  {
  }

  lemma HeadingProducts(hs: real, hc: real, x: real)
    ensures Times(Times(x, hs), -hs) - Times(Times(x, hc), hc) == -Times(x, Times(hs, hs) + Times(hc, hc))
    ensures Times(hc, Times(x, hc)) - Times(-hs, Times(x, hs)) == Times(x, Times(hs, hs) + Times(hc, hc))
    ensures Times(-hs, x) == -Times(x, hs) && Times(hc, x) == Times(x, hc) && Times(0.0, x) == 0.0
      && Times(x, 0.0) == 0.0
    ensures Times(-x, hs) == -Times(x, hs) && Times(-x, hc) == -Times(x, hc) && Times(x, -hs) == -Times(x, hs)
  {
  }

  lemma PitchProducts(ps: real, pc: real, x: real, y: real)
    ensures Times(Times(pc, x), pc) - Times(ps, Times(-ps, x)) == Times(x, Times(ps, ps) + Times(pc, pc))
    ensures Times(Times(pc, x), Times(-ps, y)) == Times(Times(pc, y), Times(-ps, x))
  {
  }

  /** Forward, horizontal right and pitched up are a frame: each is turned into the next by the third. */
  lemma {:induction false} FrameCrosses(trig: Trigonometry, heading: real, pitch: real)
    requires Circular(trig)
    ensures var forward, right, up :=
        Forward(trig, heading, pitch), HorizontalRight(trig, heading), PitchedUp(trig, heading, pitch);
      && Cross3(forward, right) == Negate3(up) && Cross3(forward, up) == right
      && Cross3(right, forward) == up && Cross3(right, up) == Negate3(forward)
  {
    assert Square(trig.sine(heading)) + Square(trig.cosine(heading)) == 1.0;
    assert Square(trig.sine(pitch)) + Square(trig.cosine(pitch)) == 1.0;
    hide Times;
    var hs, hc, ps, pc := trig.sine(heading), trig.cosine(heading), trig.sine(pitch), trig.cosine(pitch);
    HeadingProducts(hs, hc, pc);
    HeadingProducts(hs, hc, ps);
    HeadingProducts(hs, hc, -ps);
    HeadingProducts(hs, hc, Times(pc, hs));
    HeadingProducts(hs, hc, Times(pc, hc));
    HeadingProducts(hs, hc, Times(-ps, hs));
    HeadingProducts(hs, hc, Times(-ps, hc));
    PitchProducts(ps, pc, hs, hc);
    PitchProducts(ps, pc, hc, hs);
    TimesOne(pc);
    TimesOne(-ps);
    TimesOne(hs);
    TimesOne(hc);
  }

  // ---- Clearance moves with the pose as the Jacobian says ----

  function Standing(pose: ChassisPose, c: ContactConstraint): real {
    Times(c.normal.x, pose.east - c.point.x) + Times(c.normal.y, pose.north - c.point.y)
    + Times(c.normal.z, pose.up - c.point.z)
  }

  lemma ClearanceSplits(pose: ChassisPose, basis: BodyBasis, c: ContactConstraint)
    ensures Clearance(pose, basis, c) == Standing(pose, c) + Dot3(c.normal, WorldOffset(basis, c.localOffset))
  {
  }

  /** The part of a shell point's offset that a rotation turns, and where a quarter turn would take it. */
  datatype Turning = Turning(rest: Vector3, arm: Vector3, quarter: Vector3)

  function At(turning: Turning, sine: real, cosine: real): Vector3 {
    Add3(turning.rest, Weighted(turning.arm, cosine, turning.quarter, sine))
  }

  lemma DotAt(n: Vector3, turning: Turning, sine: real, cosine: real)
    ensures Dot3(n, At(turning, sine, cosine)) - Dot3(n, At(turning, 0.0, 1.0))
         == sine * Dot3(n, turning.quarter) + (1.0 - cosine) * -Dot3(n, turning.arm)
  {
  }

  /** What rolling turns: the offset across the forward axis. */
  function RollTurning(trig: Trigonometry, pose: ChassisPose, local: Vector3): Turning {
    var basis := BasisOf(trig, pose);
    Turning(Scale3(basis.forward, local.x), Weighted(basis.right, local.y, basis.up, local.z),
      Weighted(basis.right, local.z, basis.up, -local.y))
  }

  /** What pitching turns: the offset across the horizontal right axis. */
  function PitchTurning(trig: Trigonometry, pose: ChassisPose, local: Vector3): Turning {
    var forward, right, up := Forward(trig, pose.heading, pose.pitch), HorizontalRight(trig, pose.heading),
      PitchedUp(trig, pose.heading, pose.pitch);
    var height := Height(trig, pose, local);
    Turning(Scale3(right, Across(trig, pose, local)), Weighted(forward, local.x, up, height),
      Weighted(up, local.x, forward, -height))
  }

  /** The shell point's place to the right and above in the pitched, not yet rolled body. */
  function Across(trig: Trigonometry, pose: ChassisPose, local: Vector3): real {
    Times(local.y, trig.cosine(pose.roll)) + Times(local.z, trig.sine(pose.roll))
  }

  function Height(trig: Trigonometry, pose: ChassisPose, local: Vector3): real {
    Times(local.z, trig.cosine(pose.roll)) - Times(local.y, trig.sine(pose.roll))
  }

  lemma OffsetAsSum(basis: BodyBasis, local: Vector3)
    ensures WorldOffset(basis, local)
         == Add3(Scale3(basis.forward, local.x), Weighted(basis.right, local.y, basis.up, local.z))
  {
  }

  lemma MixedTwice(right: real, up: real, y: real, z: real, c: real, s: real, ch: real, sh: real)
    ensures var turnedC, turnedS := c * ch - s * sh, s * ch + c * sh;
      Mix(Mix(right, turnedC, up, -turnedS), y, Mix(right, turnedS, up, turnedC), z)
      == Mix(Mix(Mix(right, c, up, -s), y, Mix(right, s, up, c), z), ch,
             Mix(Mix(right, c, up, -s), z, Mix(right, s, up, c), -y), sh)
  {
  }

  lemma {:induction false} RolledWeights(
    right: Vector3, up: Vector3, y: real, z: real, c: real, s: real, ch: real, sh: real)
    ensures var turnedC, turnedS := c * ch - s * sh, s * ch + c * sh;
      Weighted(Weighted(right, turnedC, up, -turnedS), y, Weighted(right, turnedS, up, turnedC), z)
      == Weighted(Weighted(Weighted(right, c, up, -s), y, Weighted(right, s, up, c), z), ch,
                  Weighted(Weighted(right, c, up, -s), z, Weighted(right, s, up, c), -y), sh)
  {
    hide Mix;
    MixedTwice(right.x, up.x, y, z, c, s, ch, sh);
    MixedTwice(right.y, up.y, y, z, c, s, ch, sh);
    MixedTwice(right.z, up.z, y, z, c, s, ch, sh);
  }

  lemma UnturnedWeights(a: Vector3, b: Vector3)
    ensures Weighted(a, 1.0, b, 0.0) == a
  {
  }

  /** After rolling by `h` the shell point's offset has turned by `h` about the forward axis. */
  lemma {:induction false} RolledOffset(trig: Trigonometry, pose: ChassisPose, local: Vector3, h: real)
    requires AddsAngles(trig)
    ensures WorldOffset(BasisOf(trig, pose.(roll := pose.roll + h)), local)
         == At(RollTurning(trig, pose, local), trig.sine(h), trig.cosine(h))
    ensures WorldOffset(BasisOf(trig, pose), local) == At(RollTurning(trig, pose, local), 0.0, 1.0)
  {
    var rolled := pose.(roll := pose.roll + h);
    hide Weighted, Scale3, Add3, WorldOffset, MakeBodyBasis, HorizontalRight, PitchedUp, Forward;
    AngleSum(trig, pose.roll, h);
    OffsetAsSum(BasisOf(trig, rolled), local);
    OffsetAsSum(BasisOf(trig, pose), local);
    RolledAxes(trig, pose);
    RolledAxes(trig, rolled);
    UnturnedWeights(RollTurning(trig, pose, local).arm, RollTurning(trig, pose, local).quarter);
    var right, up := HorizontalRight(trig, pose.heading), PitchedUp(trig, pose.heading, pose.pitch);
    var c, s, ch, sh := trig.cosine(pose.roll), trig.sine(pose.roll), trig.cosine(h), trig.sine(h);
    var turnedC, turnedS := c * ch - s * sh, s * ch + c * sh;
    assert trig.cosine(rolled.roll) == turnedC && trig.sine(rolled.roll) == turnedS;
    assert BasisOf(trig, rolled).right == Weighted(right, turnedC, up, -turnedS);
    assert BasisOf(trig, rolled).up == Weighted(right, turnedS, up, turnedC);
    assert BasisOf(trig, pose).right == Weighted(right, c, up, -s)
      && BasisOf(trig, pose).up == Weighted(right, s, up, c);
    RolledWeights(right, up, local.y, local.z, c, s, ch, sh);
    var turning := RollTurning(trig, pose, local);
    assert Weighted(BasisOf(trig, rolled).right, local.y, BasisOf(trig, rolled).up, local.z)
        == Weighted(turning.arm, ch, turning.quarter, sh);
  }

  lemma AngleSum(trig: Trigonometry, x: real, y: real)
    requires AddsAngles(trig)
    ensures trig.sine(x + y) == trig.sine(x) * trig.cosine(y) + trig.cosine(x) * trig.sine(y)
    ensures trig.cosine(x + y) == trig.cosine(x) * trig.cosine(y) - trig.sine(x) * trig.sine(y)
  {
  }

  /** The cross product with the forward axis is that quarter turn. */
  lemma {:induction false} RollArm(trig: Trigonometry, pose: ChassisPose, local: Vector3)
    requires Circular(trig)
    ensures var basis := BasisOf(trig, pose);
      Cross3(basis.forward, WorldOffset(basis, local)) == RollTurning(trig, pose, local).quarter
  {
    hide Cross3, Weighted, Scale3, Add3, WorldOffset, MakeBodyBasis, HorizontalRight, PitchedUp, Forward, Negate3;
    var basis := BasisOf(trig, pose);
    var right, up := HorizontalRight(trig, pose.heading), PitchedUp(trig, pose.heading, pose.pitch);
    var s, c := trig.sine(pose.roll), trig.cosine(pose.roll);
    OffsetAsSum(basis, local);
    RolledAxes(trig, pose);
    FrameCrosses(trig, pose.heading, pose.pitch);
    CrossOfSum3(basis.forward, Scale3(basis.forward, local.x), Weighted(basis.right, local.y, basis.up, local.z));
    ScaledCross(basis.forward, basis.forward, local.x);
    CrossOfSelf(basis.forward);
    CrossOfWeighted(basis.forward, basis.right, local.y, basis.up, local.z);
    CrossOfWeighted(basis.forward, right, c, up, -s);
    CrossOfWeighted(basis.forward, right, s, up, c);
    NegatedWeights(up, right, c, s);
    NegatedWeights(up, right, s, c);
    NegatedWeights(basis.up, basis.right, local.y, local.z);
    NothingAdded(Weighted(Negate3(basis.up), local.y, basis.right, local.z), local.x);
  }

  lemma MixNegated(up: real, right: real, x: real, y: real)
    ensures Mix(-up, x, right, y) == Mix(right, y, up, -x)
    ensures Mix(-up, x, right, -y) == -Mix(right, y, up, x)
  {
  }

  lemma {:induction false} NegatedWeights(up: Vector3, right: Vector3, x: real, y: real)
    ensures Weighted(Negate3(up), x, right, y) == Weighted(right, y, up, -x)
    ensures Weighted(Negate3(up), x, right, -y) == Negate3(Weighted(right, y, up, x))
  {
    hide Mix;
    MixNegated(up.x, right.x, x, y);
    MixNegated(up.y, right.y, x, y);
    MixNegated(up.z, right.z, x, y);
  }

  lemma NothingAdded(v: Vector3, x: real)
    ensures Add3(Scale3(Vector3(0.0, 0.0, 0.0), x), v) == v
  {
  }

  lemma PitchedComponent(k: real, c: real, s: real, ch: real, sh: real, turnedC: real, turnedS: real)
    requires turnedC == c * ch - s * sh && turnedS == s * ch + c * sh
    ensures Times(turnedC, k) == Mix(Times(c, k), ch, Times(-s, k), sh)
    ensures Times(-turnedS, k) == Mix(Times(-s, k), ch, Times(c, k), -sh)
    ensures turnedS == Mix(s, ch, c, sh) && turnedC == Mix(c, ch, s, -sh)
  {
  }

  lemma {:induction false} PitchedAxes(trig: Trigonometry, heading: real, pitch: real, h: real)
    requires AddsAngles(trig)
    ensures var forward, up := Forward(trig, heading, pitch), PitchedUp(trig, heading, pitch);
      && Forward(trig, heading, pitch + h) == Weighted(forward, trig.cosine(h), up, trig.sine(h))
      && PitchedUp(trig, heading, pitch + h) == Weighted(up, trig.cosine(h), forward, -trig.sine(h))
  {
    hide Mix;
    var c, s, ch, sh := trig.cosine(pitch), trig.sine(pitch), trig.cosine(h), trig.sine(h);
    AngleSum(trig, pitch, h);
    PitchedComponent(trig.sine(heading), c, s, ch, sh, trig.cosine(pitch + h), trig.sine(pitch + h));
    PitchedComponent(trig.cosine(heading), c, s, ch, sh, trig.cosine(pitch + h), trig.sine(pitch + h));
  }

  lemma Regrouped(f: real, r: real, u: real, x: real, y: real, z: real, c: real, s: real)
    ensures Times(f, x) + Mix(Mix(r, c, u, -s), y, Mix(r, s, u, c), z)
         == Times(r, Times(y, c) + Times(z, s)) + Mix(f, x, u, Times(z, c) - Times(y, s))
  {
  }

  lemma TurnedMix(f: real, u: real, x: real, b: real, ch: real, sh: real)
    ensures Mix(Mix(f, ch, u, sh), x, Mix(u, ch, f, -sh), b) == Mix(Mix(f, x, u, b), ch, Mix(u, x, f, -b), sh)
    ensures Mix(u, x, -f, b) == Mix(u, x, f, -b)
  {
  }

  /** The offset from forward, horizontal right and pitched up. */
  lemma {:induction false} OffsetByPitchedAxes(
    forward: Vector3, right: Vector3, up: Vector3, local: Vector3, c: real, s: real)
    ensures Add3(Scale3(forward, local.x),
              Weighted(Weighted(right, c, up, -s), local.y, Weighted(right, s, up, c), local.z))
         == Add3(Scale3(right, Times(local.y, c) + Times(local.z, s)),
              Weighted(forward, local.x, up, Times(local.z, c) - Times(local.y, s)))
  {
    hide Mix, Times;
    Regrouped(forward.x, right.x, up.x, local.x, local.y, local.z, c, s);
    Regrouped(forward.y, right.y, up.y, local.x, local.y, local.z, c, s);
    Regrouped(forward.z, right.z, up.z, local.x, local.y, local.z, c, s);
  }

  lemma {:induction false} PitchedWeights(forward: Vector3, up: Vector3, x: real, b: real, ch: real, sh: real)
    ensures Weighted(Weighted(forward, ch, up, sh), x, Weighted(up, ch, forward, -sh), b)
         == Weighted(Weighted(forward, x, up, b), ch, Weighted(up, x, forward, -b), sh)
    ensures Weighted(up, x, Negate3(forward), b) == Weighted(up, x, forward, -b)
  {
    hide Mix;
    TurnedMix(forward.x, up.x, x, b, ch, sh);
    TurnedMix(forward.y, up.y, x, b, ch, sh);
    TurnedMix(forward.z, up.z, x, b, ch, sh);
  }

  lemma {:induction false} OffsetByTurning(trig: Trigonometry, pose: ChassisPose, local: Vector3)
    ensures var turning := PitchTurning(trig, pose, local);
      WorldOffset(BasisOf(trig, pose), local) == Add3(turning.rest, turning.arm)
  {
    hide Weighted, Scale3, Add3, WorldOffset, MakeBodyBasis, HorizontalRight, PitchedUp, Forward;
    OffsetAsSum(BasisOf(trig, pose), local);
    RolledAxes(trig, pose);
    OffsetByPitchedAxes(Forward(trig, pose.heading, pose.pitch), HorizontalRight(trig, pose.heading),
      PitchedUp(trig, pose.heading, pose.pitch), local, trig.cosine(pose.roll), trig.sine(pose.roll));
  }

  /** After pitching by `h` the shell point's offset has turned by `h` about the horizontal right axis. */
  lemma {:induction false} PitchedOffset(trig: Trigonometry, pose: ChassisPose, local: Vector3, h: real)
    requires AddsAngles(trig)
    ensures WorldOffset(BasisOf(trig, pose.(pitch := pose.pitch + h)), local)
         == At(PitchTurning(trig, pose, local), trig.sine(h), trig.cosine(h))
    ensures WorldOffset(BasisOf(trig, pose), local) == At(PitchTurning(trig, pose, local), 0.0, 1.0)
  {
    hide Weighted, Scale3, Add3, WorldOffset, MakeBodyBasis, HorizontalRight, PitchedUp, Forward;
    var pitched, turning := pose.(pitch := pose.pitch + h), PitchTurning(trig, pose, local);
    OffsetByTurning(trig, pitched, local);
    OffsetByTurning(trig, pose, local);
    PitchedAxes(trig, pose.heading, pose.pitch, h);
    PitchedWeights(Forward(trig, pose.heading, pose.pitch), PitchedUp(trig, pose.heading, pose.pitch), local.x,
      Height(trig, pose, local), trig.cosine(h), trig.sine(h));
    UnturnedWeights(turning.arm, turning.quarter);
  }

  /** The cross product with the horizontal right axis is that quarter turn. */
  lemma {:induction false} PitchArm(trig: Trigonometry, pose: ChassisPose, local: Vector3)
    requires Circular(trig)
    ensures Cross3(HorizontalRight(trig, pose.heading), WorldOffset(BasisOf(trig, pose), local))
         == PitchTurning(trig, pose, local).quarter
  {
    hide Cross3, Weighted, Scale3, Add3, WorldOffset, MakeBodyBasis, HorizontalRight, PitchedUp, Forward, Negate3;
    var forward, right, up := Forward(trig, pose.heading, pose.pitch), HorizontalRight(trig, pose.heading),
      PitchedUp(trig, pose.heading, pose.pitch);
    var turning := PitchTurning(trig, pose, local);
    var across, height := Across(trig, pose, local), Height(trig, pose, local);
    OffsetByTurning(trig, pose, local);
    FrameCrosses(trig, pose.heading, pose.pitch);
    CrossOfSum3(right, turning.rest, turning.arm);
    ScaledCross(right, right, across);
    CrossOfSelf(right);
    CrossOfWeighted(right, forward, local.x, up, height);
    PitchedWeights(forward, up, local.x, height, 1.0, 0.0);
    NothingAdded(turning.quarter, across);
  }

  lemma {:induction false} TurnedClearance(
    before: ChassisPose, after: ChassisPose, trig: Trigonometry, c: ContactConstraint, turning: Turning, h: real)
    requires Standing(after, c) == Standing(before, c)
    requires WorldOffset(BasisOf(trig, before), c.localOffset) == At(turning, 0.0, 1.0)
    requires WorldOffset(BasisOf(trig, after), c.localOffset) == At(turning, trig.sine(h), trig.cosine(h))
    ensures Clearance(after, BasisOf(trig, after), c) - Clearance(before, BasisOf(trig, before), c)
         == trig.sine(h) * Dot3(c.normal, turning.quarter) + (1.0 - trig.cosine(h)) * -Dot3(c.normal, turning.arm)
  {
    hide Dot3, WorldOffset, MakeBodyBasis, At, Standing, Clearance;
    ClearanceSplits(before, BasisOf(trig, before), c);
    ClearanceSplits(after, BasisOf(trig, after), c);
    DotAt(c.normal, turning, trig.sine(h), trig.cosine(h));
  }

  /**
   * The rows of the solver are how the clearance moves with the pose. Rolling or pitching by any angle changes a
   * contact's clearance by the sine of the angle times the Jacobian's entry, up to a multiple of one minus the cosine
   * that does not depend on the angle; lifting changes it by the lift times the Jacobian's entry.
   */
  lemma {:induction false} JacobianIsTheDerivative(trig: Trigonometry, pose: ChassisPose, c: ContactConstraint, h: real)
    requires Circular(trig) && AddsAngles(trig)
    ensures var clearance := Clearance(pose, BasisOf(trig, pose), c);
      var rolled, pitched, lifted :=
        pose.(roll := pose.roll + h), pose.(pitch := pose.pitch + h), pose.(up := pose.up + h);
      && Clearance(rolled, BasisOf(trig, rolled), c) - clearance
         == trig.sine(h) * Jacobian(trig, pose, c).roll + (1.0 - trig.cosine(h)) * RollBend(trig, pose, c)
      && Clearance(pitched, BasisOf(trig, pitched), c) - clearance
         == trig.sine(h) * Jacobian(trig, pose, c).pitch + (1.0 - trig.cosine(h)) * PitchBend(trig, pose, c)
      && Clearance(lifted, BasisOf(trig, lifted), c) - clearance == Times(Jacobian(trig, pose, c).up, h)
  {
    hide Dot3, Cross3, WorldOffset, MakeBodyBasis, HorizontalRight, RollTurning, PitchTurning, At, Clearance, Times;
    RolledOffset(trig, pose, c.localOffset, h);
    RollArm(trig, pose, c.localOffset);
    TurnedClearance(pose, pose.(roll := pose.roll + h), trig, c, RollTurning(trig, pose, c.localOffset), h);
    PitchedOffset(trig, pose, c.localOffset, h);
    PitchArm(trig, pose, c.localOffset);
    TurnedClearance(pose, pose.(pitch := pose.pitch + h), trig, c, PitchTurning(trig, pose, c.localOffset), h);
    LiftedClearance(pose, BasisOf(trig, pose), c, h);
  }

  /** The part of the change that is quadratic in the angle; it does not depend on the angle. */
  function RollBend(trig: Trigonometry, pose: ChassisPose, c: ContactConstraint): real {
    -Dot3(c.normal, RollTurning(trig, pose, c.localOffset).arm)
  }

  function PitchBend(trig: Trigonometry, pose: ChassisPose, c: ContactConstraint): real {
    -Dot3(c.normal, PitchTurning(trig, pose, c.localOffset).arm)
  }

  /** The change of pose seen by one contact, to first order. */
  function FirstOrder(j: Rates, before: ChassisPose, after: ChassisPose): real {
    Times(j.up, after.up - before.up) + Times(j.roll, after.roll - before.roll)
    + Times(j.pitch, after.pitch - before.pitch)
  }

  /** A lone penetrating contact's correction, inside the trust region, closes its penetration to first order. */
  lemma {:induction false} LoneCorrectionClosesPenetration(
    trig: Trigonometry, pose: ChassisPose, box: ChassisBox, c: ContactConstraint)
    requires Circular(trig) && ValidBox(box) && Penetrates(trig, pose, box, c)
    requires var push := PushSum(trig, pose, box, [c]);
      && Abs(push.up) <= MAXIMUM_TRANSLATION_STEP_M && Abs(push.roll) <= MAXIMUM_ROTATION_STEP_RAD
      && Abs(push.pitch) <= MAXIMUM_ROTATION_STEP_RAD
    ensures FirstOrder(Jacobian(trig, pose, c), pose, CorrectedPose(trig, pose, box, [c]))
         == -Clearance(pose, BasisOf(trig, pose), c)
  {
    hide Clearance, Jacobian, EffectivePitchInertia, InverseEffectiveMass, Penetrates, Pushed;
    PitchInertiaPositive(trig, box, pose.roll);
    PenetratingCanMove(trig, pose, box, c);
    var masses, j := MassesOf(trig, box, pose.roll), Jacobian(trig, pose, c);
    assert [c][..0] == [];
    var push := PushSum(trig, pose, box, [c]);
    assert push == Pushed(masses, NO_RATES, j, -Clearance(pose, BasisOf(trig, pose), c));
    assert PushCount(trig, pose, box, [c]) == 1;
    PushIsLeast(masses, j, -Clearance(pose, BasisOf(trig, pose), c), push);
    TimesOne(push.up);
    TimesOne(push.roll);
    TimesOne(push.pitch);
    hide Times;
  }

  lemma PenetratingCanMove(trig: Trigonometry, pose: ChassisPose, box: ChassisBox, c: ContactConstraint)
    requires Circular(trig) && ValidBox(box) && Penetrates(trig, pose, box, c)
    ensures InverseMassAt(trig, pose, box, c) > 0.0
  {
  }

  // ---- The shell ----

  /** A point of the box in the body's own frame. */
  ghost predicate InShell(box: ChassisBox, p: Vector3) {
    && Abs(p.x - box.centerForwardOffset) <= box.halfLength && Abs(p.y) <= box.halfWidth
    && Abs(p.z - box.centerUpOffset) <= box.halfHeight
  }

  /** The sampled corner that lies furthest against a direction. */
  function LowestCorner(d: Vector3): (k: nat)
    ensures k < 8
  {
    (if d.x >= 0.0 then 0 else 4) + (if d.y >= 0.0 then 0 else 2) + (if d.z >= 0.0 then 0 else 1)
  }

  lemma {:induction false} LeastTimes(d: real, low: real, high: real, x: real)
    requires low <= x <= high
    ensures Times(d, if d >= 0.0 then low else high) <= Times(d, x)
  {
    TimesDistributes(d, x, if d >= 0.0 then low else high);
    if d >= 0.0 {
      TimesPositive(d, x - low);
    } else {
      TimesPositive(-d, high - x);
      OppositeFactors(d, x - high);
    }
    hide Times;
  }

  lemma OppositeFactors(x: real, y: real)
    ensures Times(-x, -y) == Times(x, y)
  {
  }

  /** Every sample belongs to the box, and no point of the box lies deeper along any direction than some sample. */
  lemma {:induction false} SamplesSpanTheBox(box: ChassisBox, d: Vector3, p: Vector3)
    requires ValidBox(box) && InShell(box, p)
    ensures forall k :: 0 <= k < 14 ==> InShell(box, ShellSamples(box)[k])
    ensures Dot3(d, ShellSamples(box)[LowestCorner(d)]) <= Dot3(d, p)
  {
    var l, w, f := box.halfLength, box.halfWidth, box.centerForwardOffset;
    var low, high := box.centerUpOffset - box.halfHeight, box.centerUpOffset + box.halfHeight;
    var corner := ShellSamples(box)[LowestCorner(d)];
    assert corner.x == (if d.x >= 0.0 then f - l else f + l) && corner.y == (if d.y >= 0.0 then -w else w)
        && corner.z == if d.z >= 0.0 then low else high;
    hide Times;
    LeastTimes(d.x, f - l, f + l, p.x);
    LeastTimes(d.y, -w, w, p.y);
    LeastTimes(d.z, low, high, p.z);
  }

  /** `length` gives Euclidean lengths. */
  ghost predicate IsLength3(length: Vector3 -> real) {
    forall v :: length(v) >= 0.0 && Square(length(v)) == Dot3(v, v)
  }

  lemma SquareOfProduct(q: real, size: real)
    ensures Times(Times(size, size), Times(q, q)) == Times(Times(q, size), Times(q, size))
  {
  }

  lemma {:induction false} NormalizedIsUnit(n: Vector3, size: real)
    requires size > 0.0 && Square(size) == Dot3(n, n)
    ensures var unit := Vector3(n.x / size, n.y / size, n.z / size);
      Dot3(unit, unit) == 1.0 && Scale3(unit, size) == n
  {
    hide Times;
    var square, unit := Times(size, size), Vector3(n.x / size, n.y / size, n.z / size);
    QuotientTimes(n.x, size);
    QuotientTimes(n.y, size);
    QuotientTimes(n.z, size);
    SquareOfProduct(unit.x, size);
    SquareOfProduct(unit.y, size);
    SquareOfProduct(unit.z, size);
    TimesDistributes(square, Times(unit.x, unit.x), Times(unit.y, unit.y));
    TimesDistributes(square, Times(unit.x, unit.x) + Times(unit.y, unit.y), Times(unit.z, unit.z));
    TimesPositive(size, size);
    TimesOne(square);
    TimesCancels(square, Dot3(unit, unit), 1.0);
  }

  /**
   * A plane found under a shell point passes through the hit, belongs to that point, and has a unit normal that points
   * the way of the hit's and upwards.
   */
  lemma {:induction false} PlaneIsTheHit(
    trig: Trigonometry, pose: ChassisPose, local: Vector3, query: (Vector3, real) -> Option<GroundHit>,
    length: Vector3 -> real)
    requires IsLength3(length) && PlaneUnder(trig, pose, local, query, length).Some?
    ensures var c, offset :=
      PlaneUnder(trig, pose, local, query, length).value, WorldOffset(BasisOf(trig, pose), local);
      var hit := query(Vector3(pose.east + offset.x, pose.north + offset.y, pose.up + offset.z + QUERY_LIFT_M),
        QUERY_DEPTH_M);
      && hit.Some? && c.localOffset == local && c.point == hit.value.point
      && Dot3(c.normal, c.normal) == 1.0 && c.normal.z > 0.0
      && Scale3(c.normal, length(hit.value.normal)) == hit.value.normal
  {
    hide WorldOffset, MakeBodyBasis, Times, Dot3, Scale3;
    var offset := WorldOffset(BasisOf(trig, pose), local);
    var n := query(
      Vector3(pose.east + offset.x, pose.north + offset.y, pose.up + offset.z + QUERY_LIFT_M),
        QUERY_DEPTH_M).value.normal;
    var size := length(n);
    NormalizedIsUnit(n, size);
    PositiveQuotient(n.z, size);
  }

  /** Pitching turns about the horizontal right axis, so its inertia weighs the body's own by that axis's two parts. */
  lemma {:induction false} PitchInertiaIsProjected(trig: Trigonometry, box: ChassisBox, pose: ChassisPose)
    requires Circular(trig)
    ensures var basis, axis := BasisOf(trig, pose), HorizontalRight(trig, pose.heading);
      EffectivePitchInertia(trig, box, pose.roll)
      == Times(box.pitchInertia, Square(Dot3(axis, basis.right))) + Times(box.yawInertia, Square(Dot3(axis, basis.up)))
  {
    var right, up := HorizontalRight(trig, pose.heading), PitchedUp(trig, pose.heading, pose.pitch);
    assert Square(trig.sine(pose.heading)) + Square(trig.cosine(pose.heading)) == 1.0;
    RightIsLevel(trig.sine(pose.heading), trig.cosine(pose.heading), trig.sine(pose.pitch), trig.cosine(pose.pitch));
    assert Dot3(right, right) == 1.0 && Dot3(right, up) == 0.0;
    RolledAxes(trig, pose);
    hide Times, MakeBodyBasis, HorizontalRight, PitchedUp, Dot3;
    DotOfWeighted(right, right, trig.cosine(pose.roll), up, -trig.sine(pose.roll));
    DotOfWeighted(right, right, trig.sine(pose.roll), up, trig.cosine(pose.roll));
  }

  lemma RightIsLevel(hs: real, hc: real, ps: real, pc: real)
    ensures Times(hc, Times(-ps, hs)) + Times(-hs, Times(-ps, hc)) + Times(0.0, pc) == 0.0
    ensures Times(hc, hc) + Times(-hs, -hs) + Times(0.0, 0.0) == Times(hs, hs) + Times(hc, hc)
  {
  }

  lemma {:induction false} DotOfWeighted(axis: Vector3, a: Vector3, x: real, b: Vector3, y: real)
    requires Dot3(axis, a) == 1.0 && Dot3(axis, b) == 0.0
    ensures Dot3(axis, Weighted(a, x, b, y)) == x
  {
    MixedDot(axis, a, x, b, y);
    TimesOne(x);
    TimesZero(y);
    TimesCommutes(Dot3(axis, a), x);
    TimesCommutes(Dot3(axis, b), y);
    hide Times, Dot3, Weighted;
  }

  lemma MixedDot(axis: Vector3, a: Vector3, x: real, b: Vector3, y: real)
    ensures Dot3(axis, Weighted(a, x, b, y)) == Times(Dot3(axis, a), x) + Times(Dot3(axis, b), y)
  {
  }
}
