/** The fall of a collapsed signal pole: a damped hinge in steps of at most 1/240 s, which always ends on the ground. */
module PoleFall {
  import opened Planar

  const QUARTER_TURN: real := 1.5707963267948966
  const STEPS_PER_SECOND: real := 240.0
  const POLE_HEIGHT_M: real := 3.85
  const POLE_MASS_KG: real := 180.0
  const TOPPLING: real := 3.0 * 9.81 / (2.0 * POLE_HEIGHT_M)
  const DAMPING: real := 0.4
  const MAXIMUM_FALL_RATE: real := 5.0

  /** The least rate that the fall keeps, and the time in which it brings the pole down. */
  const LEAST_FALL_RATE: real := 0.14
  const LONGEST_FALL_S: real := 11.25

  /** Between upright and flat a sine is at least half its angle and at most one. */
  ghost predicate SineOfQuarter(sine: real -> real) {
    forall x :: 0.0 <= x <= QUARTER_TURN ==> 0.5 * x <= sine(x) <= 1.0
  }

  datatype Fall = Fall(angle: real, rate: real)

  const FLAT := Fall(QUARTER_TURN, 0.0)

  /** The moment of inertia of the uniform pole about its foot. */
  const POLE_INERTIA: real := POLE_MASS_KG * POLE_HEIGHT_M * POLE_HEIGHT_M / 3.0

  /**
   * The rate that the collapsing contact leaves: its impulse times its height over the pole's inertia, within bounds.
   */
  function FallStart(peak: real, height: real): Fall {
    Fall(0.0, Clamp(peak * Clamp(height, 0.25, POLE_HEIGHT_M) / POLE_INERTIA, 0.35, 3.0))
  }

  /**
   * Unless it is bounded, the starting rate carries the blow's angular momentum; a harder blow never starts it slower.
   */
  lemma {:induction false} FallStartsWithTheBlow(peak: real, height: real, harder: real)
    requires peak >= 0.0
    ensures var arm, rate := Clamp(height, 0.25, 3.85), FallStart(peak, height).rate;
      && (0.35 < rate < 3.0 ==> Times(rate, POLE_INERTIA) == Times(peak, arm))
      && (rate == 0.35 ==> Times(peak, arm) <= Times(0.35, POLE_INERTIA))
      && (rate == 3.0 ==> Times(peak, arm) >= Times(3.0, POLE_INERTIA))
      && 0.35 <= rate <= 3.0 && (harder >= peak ==> FallStart(harder, height).rate >= rate)
  {
    var arm := Clamp(height, 0.25, 3.85);
    PoleInertiaValue();
    RateOfMomentum(peak, arm);
    RateOfMomentum(harder, arm);
    TimesOrder(arm, peak, harder);
    TimesCommutes(arm, peak);
    TimesCommutes(arm, harder);
    hide Times;
  }

  lemma PoleInertiaValue()
    ensures POLE_INERTIA == 889.35
  {
  }

  lemma RateOfMomentum(peak: real, arm: real)
    ensures peak * arm / 889.35 * 889.35 == Times(peak, arm)
    ensures Times(peak * arm / 889.35, 889.35) == Times(peak, arm)
  {
  }

  /** Gravity turns the pole as its weight does at half its height. */
  lemma TopplingIsTheWeight()
    ensures POLE_INERTIA * TOPPLING == POLE_MASS_KG * 9.81 * (POLE_HEIGHT_M / 2.0)
  {
  }

  function NextRate(f: Fall, step: real, sine: real -> real): real {
    Clamp(f.rate + Times(TOPPLING * sine(f.angle) - DAMPING * f.rate, step), 0.0, MAXIMUM_FALL_RATE)
  }

  function Stepped(f: Fall, step: real, sine: real -> real): Fall {
    var rate := NextRate(f, step, sine);
    var angle := Min(QUARTER_TURN, f.angle + Times(rate, step));
    if angle >= QUARTER_TURN then Fall(angle, 0.0) else Fall(angle, rate)
  }

  /** `n` steps, of which those after the ground change nothing. */
  function SteppedTimes(f: Fall, step: real, n: nat, sine: real -> real): Fall {
    if n == 0 then f
    else
      var before := SteppedTimes(f, step, n - 1, sine);
      if before.angle >= QUARTER_TURN then before else Stepped(before, step, sine)
  }

  function StepCount(dt: real): (n: nat)
    ensures n >= 1
  {
    var ceiling := -((-(dt * STEPS_PER_SECOND)).Floor);
    if ceiling < 1 then 1 else ceiling
  }

  lemma EnoughSteps(dt: real)
    ensures StepCount(dt) as real >= dt * STEPS_PER_SECOND
  {
  }

  lemma ShortQuotient(dt: real, n: real)
    requires dt > 0.0 && n >= dt * STEPS_PER_SECOND && n > 0.0
    ensures 0.0 < dt / n <= 1.0 / STEPS_PER_SECOND
  {
  }

  lemma {:induction false} StepIsShort(dt: real)
    requires dt > 0.0
    ensures 0.0 < dt / StepCount(dt) as real <= 1.0 / STEPS_PER_SECOND
    ensures Times(dt / StepCount(dt) as real, StepCount(dt) as real) == dt
  {
    hide StepCount, Times;
    var n := StepCount(dt);
    EnoughSteps(dt);
    ShortQuotient(dt, n as real);
    QuotientTimes(dt, n as real);
  }

  function Fallen(f: Fall, dt: real, sine: real -> real): Fall {
    if f.angle < QUARTER_TURN && dt > 0.0 then SteppedTimes(f, dt / StepCount(dt) as real, StepCount(dt), sine) else f
  }

  /** One tick of a disabled pole; the loop ends at the ground. */
  method AdvanceFall(f: Fall, dt: real, sine: real -> real) returns (next: Fall)
    ensures next == Fallen(f, dt, sine)
  {
    hide Stepped;
    next := f;
    if f.angle >= QUARTER_TURN || dt <= 0.0 {
      return;
    }
    var steps := StepCount(dt);
    var step := dt / steps as real;
    for index := 0 to steps
      invariant next == SteppedTimes(f, step, index, sine)
    {
      if next.angle >= QUARTER_TURN {
        StaysDown(f, step, index, steps, sine);
        break;
      }
      next := Stepped(next, step, sine);
    }
  }

  lemma {:induction false} StaysDown(f: Fall, step: real, k: nat, n: nat, sine: real -> real)
    requires k <= n && SteppedTimes(f, step, k, sine).angle >= QUARTER_TURN
    ensures SteppedTimes(f, step, n, sine) == SteppedTimes(f, step, k, sine)
  {
    hide Stepped;
    if k < n {
      StaysDown(f, step, k, n - 1, sine);
    }
  }

  // ---- Every collapsed pole comes down ----

  /**
   * On its way down: near the upright the rate is bounded together with the angle, because damping can only take from
   * the rate what the angle gains; further down gravity outweighs the damping.
   */
  ghost predicate Falling(f: Fall) {
    && 0.0 <= f.angle < QUARTER_TURN && LEAST_FALL_RATE <= f.rate <= MAXIMUM_FALL_RATE
    && (f.angle <= 0.5 ==> f.rate + 0.401 * f.angle >= 0.35)
  }

  lemma StartsFalling(peak: real, height: real)
    ensures Falling(FallStart(peak, height))
  {
  }

  lemma ScaledTimes(factor: real, x: real, y: real)
    ensures Times(factor * x, y) == factor * Times(x, y)
  {
  }

  /** A short step multiplies by at most 1/240. */
  lemma {:induction false} ShortStep(x: real, step: real)
    requires x >= 0.0 && 0.0 <= step <= 1.0 / STEPS_PER_SECOND
    ensures 0.0 <= Times(x, step) <= x / STEPS_PER_SECOND
  {
    TimesPositive(x, step);
    TimesOrder(x, step, 1.0 / STEPS_PER_SECOND);
  }

  /** Damping over one short step takes less from the rate than 0.401 times what the angle gains. */
  lemma {:induction false} DampedRate(rate: real, step: real)
    requires 0.0 <= rate && 0.0 <= step <= 1.0 / STEPS_PER_SECOND
    ensures var next := rate - Times(DAMPING * rate, step);
      next + 0.401 * Times(next, step) >= rate && 0.998 * rate <= next <= rate
  {
    hide Times;
    var taken := Times(rate, step);
    ScaledTimes(DAMPING, rate, step);
    ShortStep(rate, step);
    ShortStep(taken, step);
    TimesCommutes(rate - DAMPING * taken, step);
    TimesDistributes(step, rate, DAMPING * taken);
    TimesCommutes(step, rate);
    TimesCommutes(step, DAMPING * taken);
    ScaledTimes(DAMPING, taken, step);
  }

  lemma PullAtAngle(angle: real, sine: real -> real)
    requires SineOfQuarter(sine) && 0.0 <= angle <= QUARTER_TURN
    ensures TOPPLING * sine(angle) >= 0.0 && (angle > 0.5 ==> TOPPLING * sine(angle) >= 0.95)
  {
  }

  /** Gravity only adds to the damped rate, and beyond half a radian it makes up for the damping. */
  lemma {:induction false} NextRateFacts(f: Fall, step: real, sine: real -> real)
    requires SineOfQuarter(sine) && Falling(f) && 0.0 < step <= 1.0 / STEPS_PER_SECOND
    ensures var rate := NextRate(f, step, sine);
      && rate + 0.401 * Times(rate, step) >= f.rate && 0.0 < rate <= MAXIMUM_FALL_RATE
      && (f.angle > 0.5 ==> rate >= LEAST_FALL_RATE)
  {
    hide Times;
    var pull, damping := TOPPLING * sine(f.angle), DAMPING * f.rate;
    var damped, rate := f.rate - Times(damping, step), NextRate(f, step, sine);
    PullAtAngle(f.angle, sine);
    DampedRate(f.rate, step);
    ShortStep(pull, step);
    TimesCommutes(pull - damping, step);
    TimesDistributes(step, pull, damping);
    TimesCommutes(step, pull);
    TimesCommutes(step, damping);
    TimesCommutes(damped, step);
    TimesCommutes(rate, step);
    assert Times(pull - damping, step) == Times(pull, step) - Times(damping, step);
    assert 0.998 * f.rate <= damped <= f.rate;
    assert rate >= damped;
    TimesOrder(step, damped, rate);
    TimesPositive(pull - damping, step);
  }

  lemma {:induction false} StepFalls(f: Fall, step: real, sine: real -> real)
    requires SineOfQuarter(sine) && Falling(f) && 0.0 < step <= 1.0 / STEPS_PER_SECOND
    ensures var next := Stepped(f, step, sine);
      next == FLAT || (Falling(next) && next.angle >= f.angle + Times(LEAST_FALL_RATE, step))
  {
    hide Times, NextRate;
    var rate := NextRate(f, step, sine);
    NextRateFacts(f, step, sine);
    ShortStep(rate, step);
    TimesCommutes(rate, step);
    TimesCommutes(LEAST_FALL_RATE, step);
    TimesOrder(step, LEAST_FALL_RATE, rate);
  }

  /** On the ground, or still falling and at least so far down. */
  ghost predicate Down(f: Fall, least: real) {
    f == FLAT || (Falling(f) && f.angle >= least)
  }

  lemma {:induction false} StepsFall(f: Fall, step: real, n: nat, sine: real -> real)
    requires SineOfQuarter(sine) && Falling(f) && 0.0 < step <= 1.0 / STEPS_PER_SECOND
    ensures Down(SteppedTimes(f, step, n, sine), f.angle + Times(LEAST_FALL_RATE, Times(step, n as real)))
  {
    hide Times, Stepped, Falling;
    if n == 0 {
      TimesZero(step);
      TimesZero(LEAST_FALL_RATE);
    } else {
      var before := SteppedTimes(f, step, n - 1, sine);
      StepsFall(f, step, n - 1, sine);
      OneMoreStep(step, n as real);
      if before != FLAT {
        StillUp(before);
        StepFalls(before, step, sine);
      }
    }
  }

  lemma StillUp(f: Fall)
    requires Falling(f)
    ensures f.angle < QUARTER_TURN
  {
  }

  lemma OneMoreStep(step: real, n: real)
    ensures Times(LEAST_FALL_RATE, Times(step, n))
         == Times(LEAST_FALL_RATE, Times(step, n - 1.0)) + Times(LEAST_FALL_RATE, step)
  {
  }

  /** A falling pole gains at least 0.14 rad/s over every tick, however the tick is divided. */
  lemma {:induction false} TickFalls(f: Fall, dt: real, sine: real -> real)
    requires SineOfQuarter(sine) && Down(f, f.angle) && dt >= 0.0
    ensures Down(Fallen(f, dt, sine), f.angle + Times(LEAST_FALL_RATE, dt))
    ensures f == FLAT ==> Fallen(f, dt, sine) == FLAT
  {
    hide Times, SteppedTimes, StepCount, Falling;
    if f != FLAT {
      StillUp(f);
      if dt > 0.0 {
        StepIsShort(dt);
        var n := StepCount(dt);
        StepsFall(f, dt / n as real, n, sine);
      } else {
        TimesZero(LEAST_FALL_RATE);
      }
    }
  }

  function FallAfter(start: Fall, ticks: seq<real>, k: nat, sine: real -> real): Fall
    requires k <= |ticks|
  {
    if k == 0 then start else Fallen(FallAfter(start, ticks, k - 1, sine), ticks[k - 1], sine)
  }

  function Elapsed(ticks: seq<real>, k: nat): real
    requires k <= |ticks|
  {
    if k == 0 then 0.0 else Elapsed(ticks, k - 1) + ticks[k - 1]
  }

  lemma {:induction false} RunFalls(peak: real, height: real, ticks: seq<real>, k: nat, sine: real -> real)
    requires SineOfQuarter(sine) && k <= |ticks| && forall i :: 0 <= i < |ticks| ==> ticks[i] >= 0.0
    ensures Down(FallAfter(FallStart(peak, height), ticks, k, sine), Times(LEAST_FALL_RATE, Elapsed(ticks, k)))
  {
    hide Times, Fallen, Falling, FallStart;
    if k == 0 {
      StartsFalling(peak, height);
      UprightAtFirst(peak, height);
      TimesZero(LEAST_FALL_RATE);
    } else {
      RunFalls(peak, height, ticks, k - 1, sine);
      var before := FallAfter(FallStart(peak, height), ticks, k - 1, sine);
      TickFalls(before, ticks[k - 1], sine);
      TimesDistributes(LEAST_FALL_RATE, Elapsed(ticks, k - 1), ticks[k - 1]);
    }
  }

  lemma UprightAtFirst(peak: real, height: real)
    ensures FallStart(peak, height).angle == 0.0
  {
  }

  /**
   * However weak the blow and however time is divided into ticks, a collapsed pole lies flat after 11.25 s at the
   * latest.
   */
  lemma {:induction false} EveryPoleComesDown(peak: real, height: real, ticks: seq<real>, k: nat, sine: real -> real)
    requires SineOfQuarter(sine) && k <= |ticks| && forall i :: 0 <= i < |ticks| ==> ticks[i] >= 0.0
    ensures var now := FallAfter(FallStart(peak, height), ticks, k, sine);
      && 0.0 <= now.angle <= QUARTER_TURN && 0.0 <= now.rate <= MAXIMUM_FALL_RATE
      && (Elapsed(ticks, k) >= LONGEST_FALL_S ==> now == FLAT)
  {
    hide FallAfter, FallStart;
    RunFalls(peak, height, ticks, k, sine);
    TimesOrder(LEAST_FALL_RATE, LONGEST_FALL_S, Elapsed(ticks, k));
  }
}
