/** The crossing rule: a trip starts only when it fits inside WALK, and then it does. */
module Pedestrian {
  import opened Planar
  import opened SignalPlan
  import opened SignalConflict

  const CROSSING_CLEARANCE_S: real := 0.2
  const NANOSECONDS_PER_SECOND: real := 1000000000.0

  /** Progress from the start of the crossing (0) to its end (1); direction 1 walks up and -1 walks down. */
  datatype Walker = Walker(progress: real, direction: int, crossing: bool)

  /** The authored crossing and the walker's speed. */
  datatype Crossing = Crossing(controller: int, group: int, length: real, speed: real)

  /**
   * What else happens to a walker in a tick: not attended to (motion disabled, knocked down, getting up), no ground
   * under the next point, frozen on a blocked return path, or free to walk.
   */
  datatype Footing = Unattended | NoGround | Frozen | Free

  datatype WalkTick = WalkTick(dt: real, signals: seq<Snapshot>, allowsDriving: bool, footing: Footing)

  ghost predicate ValidCrossing(crossing: Crossing) {
    crossing.length > 0.0 && crossing.speed > 0.0
  }

  ghost predicate WalkInvariant(w: Walker) {
    && 0.0 <= w.progress <= 1.0 && (w.direction == 1 || w.direction == -1)
    && (w.progress == 0.0 ==> w.direction == 1) && (w.progress == 1.0 ==> w.direction == -1)
    && (w.crossing ==> 0.0 < w.progress < 1.0)
  }

  function RequiredWalkSeconds(crossing: Crossing): real
    requires crossing.speed != 0.0
  {
    crossing.length / crossing.speed + CROSSING_CLEARANCE_S
  }

  predicate LetsBegin(crossing: Crossing, signal: Snapshot)
    requires crossing.speed != 0.0
  {
    && signal.kind == SignalKind.Pedestrian && signal.controller == crossing.controller
    && signal.group == crossing.group
    && signal.aspect == Green
    && (signal.remainingNs == 0 || signal.remainingNs as real / NANOSECONDS_PER_SECOND >= RequiredWalkSeconds(crossing))
  }

  predicate CanBegin(crossing: Crossing, signals: seq<Snapshot>)
    requires crossing.speed != 0.0
  {
    exists i :: 0 <= i < |signals| && LetsBegin(crossing, signals[i])
  }

  function NextProgress(crossing: Crossing, w: Walker, dt: real): real
    requires crossing.length != 0.0
  {
    Clamp(w.progress + Quotient(Times(Times(w.direction as real, crossing.speed), dt), crossing.length), 0.0, 1.0)
  }

  function Quotient(x: real, y: real): real
    requires y != 0.0
  {
    x / y
  }

  /** One tick of one walker. */
  function Walk(crossing: Crossing, w: Walker, tick: WalkTick): Walker
    requires crossing.length != 0.0 && crossing.speed != 0.0
  {
    var advance := tick.allowsDriving && (w.crossing || CanBegin(crossing, tick.signals));
    var next := if advance then NextProgress(crossing, w, tick.dt) else w.progress;
    match tick.footing
    case Unattended => w
    case NoGround => w.(crossing := false)
    case Frozen => w
    case Free =>
      if advance && (next <= 0.0 || next >= 1.0) then Walker(next, -w.direction, false)
      else Walker(next, w.direction, w.crossing || advance)
  }

  class PedestrianRuntime {
    const crossing: Crossing
    var progress: real
    var direction: int
    var isCrossing: bool

    function State(): Walker
      reads this
    {
      Walker(progress, direction, isCrossing)
    }

    constructor (crossing: Crossing, forward: bool)
      ensures this.crossing == crossing && WalkInvariant(State()) && !isCrossing
    {
      this.crossing := crossing;
      progress, direction, isCrossing := if forward then 0.0 else 1.0, if forward then 1 else -1, false;
    }

    method Prepare(tick: WalkTick)
      requires ValidCrossing(crossing) && tick.dt > 0.0
      modifies this
      ensures State() == Walk(crossing, old(State()), tick)
      ensures old(WalkInvariant(State())) ==> WalkInvariant(State())
      ensures direction != old(direction) ==> progress <= 0.0 || progress >= 1.0
    {
      hide LetsBegin, NextProgress;
      WalkKeepsInvariant(crossing, State(), tick);
      if tick.footing.Unattended? {
        return;
      }
      var canBegin := false;
      for i := 0 to |tick.signals|
        invariant canBegin <==> exists j :: 0 <= j < i && LetsBegin(crossing, tick.signals[j])
      {
        canBegin := canBegin || LetsBegin(crossing, tick.signals[i]);
      }
      var advance := tick.allowsDriving && (isCrossing || canBegin);
      var next := if advance then NextProgress(crossing, State(), tick.dt) else progress;
      if tick.footing.NoGround? {
        isCrossing := false;
        return;
      }
      if tick.footing.Frozen? {
        return;
      }
      progress := next;
      if advance {
        isCrossing := true;
      }
      if advance && (next <= 0.0 || next >= 1.0) {
        isCrossing := false;
        direction := -direction;
      }
    }
  }

  // ---- Strides ----

  /** The part of the crossing covered in a time. */
  function Stride(crossing: Crossing, seconds: real): real
    requires crossing.length != 0.0
  {
    Quotient(Times(crossing.speed, seconds), crossing.length)
  }

  lemma {:induction false} StridesAdd(crossing: Crossing, x: real, y: real)
    requires ValidCrossing(crossing)
    ensures Stride(crossing, x + y) == Stride(crossing, x) + Stride(crossing, y)
  {
    TimesDistributes(crossing.speed, x, y);
    QuotientsAdd(Times(crossing.speed, x), Times(crossing.speed, y), crossing.length);
  }

  lemma QuotientsAdd(x: real, y: real, z: real)
    requires z > 0.0
    ensures Quotient(x + y, z) == Quotient(x, z) + Quotient(y, z)
  {
  }

  lemma {:induction false} StridePositive(crossing: Crossing, x: real)
    requires ValidCrossing(crossing) && x > 0.0
    ensures Stride(crossing, x) > 0.0
  {
    TimesPositive(crossing.speed, x);
    PositiveQuotient(Times(crossing.speed, x), crossing.length);
  }

  lemma PositiveQuotient(x: real, z: real)
    requires x > 0.0 && z > 0.0
    ensures Quotient(x, z) > 0.0
  {
  }

  /** A stride covers the whole crossing exactly from the walking time on. */
  lemma {:induction false} WholeStride(crossing: Crossing, x: real)
    requires ValidCrossing(crossing)
    ensures Stride(crossing, x) >= 1.0 <==> x >= crossing.length / crossing.speed
  {
    var walk := crossing.length / crossing.speed;
    assert Stride(crossing, walk) == 1.0;
    if x > walk {
      StridesAdd(crossing, walk, x - walk);
      StridePositive(crossing, x - walk);
    } else if x < walk {
      StridesAdd(crossing, x, walk - x);
      StridePositive(crossing, walk - x);
    }
  }

  lemma {:induction false} NextByStride(crossing: Crossing, w: Walker, dt: real)
    requires ValidCrossing(crossing) && WalkInvariant(w)
    ensures NextProgress(crossing, w, dt)
         == Clamp(if w.direction == 1 then w.progress + Stride(crossing, dt)
           else w.progress - Stride(crossing, dt), 0.0, 1.0)
  {
    hide Quotient, Times;
    SignedTimes(w.direction, crossing.speed, dt);
    NegatedQuotient(Times(crossing.speed, dt), crossing.length);
  }

  lemma {:induction false} SignedTimes(direction: int, speed: real, dt: real)
    ensures direction == 1 ==> Times(Times(direction as real, speed), dt) == Times(speed, dt)
    ensures direction == -1 ==> Times(Times(direction as real, speed), dt) == -Times(speed, dt)
  {
    if direction == 1 {
      assert Times(1.0, speed) == speed;
    } else if direction == -1 {
      assert Times(-1.0, speed) == -speed;
    }
  }

  lemma NegatedQuotient(x: real, z: real)
    requires z > 0.0
    ensures Quotient(-x, z) == -Quotient(x, z)
  {
  }

  /** Progress stays in [0, 1], and the direction flips exactly when a walking step ends on an end of the crossing. */
  lemma {:induction false} WalkKeepsInvariant(crossing: Crossing, w: Walker, tick: WalkTick)
    requires ValidCrossing(crossing) && tick.dt > 0.0
    ensures var next := Walk(crossing, w, tick);
      && (WalkInvariant(w) ==> WalkInvariant(next))
      && (WalkInvariant(w) ==> (next.direction != w.direction <==>
            next.progress != w.progress && (next.progress == 0.0 || next.progress == 1.0)))
      && (WalkInvariant(w) && next.progress != w.progress ==> w.crossing || CanBegin(crossing, tick.signals))
  {
    if WalkInvariant(w) {
      NextByStride(crossing, w, tick.dt);
      StridePositive(crossing, tick.dt);
    }
    hide NextProgress, Stride, CanBegin;
  }

  // ---- A trip ----

  /** A tick and the simulated nanoseconds until the next one; truncation may make those a little shorter than `dt`. */
  datatype TimedTick = TimedTick(tick: WalkTick, stepNs: int)

  /** Walking on undisturbed, in steps no longer than the clearance. */
  ghost predicate Undisturbed(timed: TimedTick) {
    && timed.tick.footing.Free? && timed.tick.allowsDriving && 0.0 < timed.tick.dt <= CROSSING_CLEARANCE_S
    && 0 <= timed.stepNs && timed.stepNs as real <= timed.tick.dt * NANOSECONDS_PER_SECOND
  }

  function Walked(crossing: Crossing, w: Walker, ticks: seq<TimedTick>): Walker
    requires crossing.length != 0.0 && crossing.speed != 0.0
  {
    if ticks == [] then w
    else Walk(crossing, Walked(crossing, w, ticks[..|ticks| - 1]), ticks[|ticks| - 1].tick)
  }

  function Seconds(ticks: seq<TimedTick>): real {
    if ticks == [] then 0.0 else Seconds(ticks[..|ticks| - 1]) + ticks[|ticks| - 1].tick.dt
  }

  function Nanoseconds(ticks: seq<TimedTick>): int {
    if ticks == [] then 0 else Nanoseconds(ticks[..|ticks| - 1]) + ticks[|ticks| - 1].stepNs
  }

  lemma {:induction false} ClockIsNotAhead(ticks: seq<TimedTick>)
    requires forall k :: 0 <= k < |ticks| ==> Undisturbed(ticks[k])
    ensures 0 <= Nanoseconds(ticks) && Nanoseconds(ticks) as real <= Seconds(ticks) * NANOSECONDS_PER_SECOND
  {
    if ticks != [] {
      ClockIsNotAhead(ticks[..|ticks| - 1]);
    }
  }

  /** The walker set out on the first tick, and every tick but perhaps the last left it on the road. */
  ghost predicate OneTrip(crossing: Crossing, w: Walker, ticks: seq<TimedTick>)
    requires ValidCrossing(crossing)
  {
    && ticks != [] && WalkInvariant(w) && !w.crossing && CanBegin(crossing, ticks[0].tick.signals)
    && (forall k :: 0 <= k < |ticks| ==> Undisturbed(ticks[k]))
    && (forall k :: 0 < k < |ticks| ==> Walked(crossing, w, ticks[..k]).crossing)
  }

  function Covered(from: Walker, to: Walker): real {
    if from.direction == 1 then to.progress - from.progress else from.progress - to.progress
  }

  function FarEnd(direction: int): real {
    if direction == 1 then 1.0 else 0.0
  }

  /** After the trip's ticks: still on the road with the exact distance covered, or at the far end and turned around. */
  ghost predicate OnTheWay(crossing: Crossing, from: Walker, to: Walker, seconds: real)
    requires ValidCrossing(crossing)
  {
    && WalkInvariant(to)
    && (if to.crossing then to.direction == from.direction && Covered(from, to) == Stride(crossing, seconds)
        else
          && to.progress == FarEnd(from.direction) && to.direction == -from.direction
          && Stride(crossing, seconds) > 0.0)
  }

  lemma {:induction false} OneMoreStep(crossing: Crossing, from: Walker, w: Walker, seconds: real, tick: WalkTick)
    requires ValidCrossing(crossing) && tick.footing.Free? && tick.allowsDriving && tick.dt > 0.0
    requires w.crossing || (w == from && seconds == 0.0 && CanBegin(crossing, tick.signals))
    requires WalkInvariant(w) && w.direction == from.direction && Covered(from, w) == Stride(crossing, seconds)
      && seconds >= 0.0
    ensures OnTheWay(crossing, from, Walk(crossing, w, tick), seconds + tick.dt)
  {
    NextByStride(crossing, w, tick.dt);
    StridesAdd(crossing, seconds, tick.dt);
    StridePositive(crossing, tick.dt);
    StridePositive(crossing, seconds + tick.dt);
    hide NextProgress, Stride, CanBegin;
  }

  lemma {:induction false} TripProgress(crossing: Crossing, w: Walker, ticks: seq<TimedTick>)
    requires ValidCrossing(crossing) && OneTrip(crossing, w, ticks)
    ensures OnTheWay(crossing, w, Walked(crossing, w, ticks), Seconds(ticks)) && Seconds(ticks) > 0.0
  {
    hide CanBegin, OnTheWay, Walk;
    var n := |ticks| - 1;
    if n == 0 {
      assert ticks[..0] == [];
      NoTime(crossing);
      OneMoreStep(crossing, w, w, 0.0, ticks[0].tick);
    } else {
      var before := ticks[..n];
      assert forall k :: 0 < k < n ==> before[..k] == ticks[..k];
      TripProgress(crossing, w, before);
      StillOnTheWay(crossing, w, Walked(crossing, w, before), Seconds(before));
      OneMoreStep(crossing, w, Walked(crossing, w, before), Seconds(before), ticks[n].tick);
    }
  }

  lemma NoTime(crossing: Crossing)
    requires ValidCrossing(crossing)
    ensures Stride(crossing, 0.0) == 0.0
  {
  }

  lemma StillOnTheWay(crossing: Crossing, from: Walker, to: Walker, seconds: real)
    requires ValidCrossing(crossing) && OnTheWay(crossing, from, to, seconds) && to.crossing
    ensures WalkInvariant(to) && to.direction == from.direction && Covered(from, to) == Stride(crossing, seconds)
  {
  }

  /** The lamps that could let the walker set out count down exactly at that instant. */
  ghost predicate ExactSignals(plan: Plan, crossing: Crossing, startNs: int, signals: seq<Snapshot>)
    requires ValidPhases(plan.phases) && ValidCrossing(crossing)
  {
    forall i :: 0 <= i < |signals| && LetsBegin(crossing, signals[i]) ==>
      CountdownExact(plan, crossing.group, startNs, Signal(signals[i].aspect, signals[i].remainingNs))
  }

  /** Everyone still on the road has more than the clearance of WALK left. */
  lemma {:induction false} StillCrossingHasTime(crossing: Crossing, w: Walker, ticks: seq<TimedTick>)
    requires ValidCrossing(crossing) && OneTrip(crossing, w, ticks) && Walked(crossing, w, ticks).crossing
    ensures Seconds(ticks) < crossing.length / crossing.speed
  {
    TripProgress(crossing, w, ticks);
    WholeStride(crossing, Seconds(ticks));
    hide Stride, Walked, CanBegin;
  }

  /**
   * From the instant a walker sets out until the end of each tick of that trip, arrival included, the lamp shows WALK;
   * and the trip is over once the walking time has passed.
   */
  lemma {:induction false} TripFinishesInsideWalk(
    plan: Plan, crossing: Crossing, w: Walker, startNs: int, ticks: seq<TimedTick>)
    requires ValidPhases(plan.phases) && ValidCrossing(crossing) && OneTrip(crossing, w, ticks)
    requires ExactSignals(plan, crossing, startNs, ticks[0].tick.signals)
    ensures forall u :: startNs <= u <= startNs + Nanoseconds(ticks) ==> AspectAt(plan, crossing.group, u) == Green
    ensures var end := Walked(crossing, w, ticks);
      end.crossing || (end.progress == FarEnd(w.direction) && end.direction == -w.direction)
    ensures Seconds(ticks) >= crossing.length / crossing.speed ==> !Walked(crossing, w, ticks).crossing
  {
    hide AspectAt, Walk, Stride, Walked, LetsBegin, Seconds, Nanoseconds;
    TripProgress(crossing, w, ticks);
    if Walked(crossing, w, ticks).crossing {
      StillCrossingHasTime(crossing, w, ticks);
    }
    var i :| 0 <= i < |ticks[0].tick.signals| && LetsBegin(crossing, ticks[0].tick.signals[i]);
    BeginsGreen(crossing, ticks[0].tick.signals[i]);
    TripFitsCountdown(crossing, w, ticks, ticks[0].tick.signals[i]);
  }

  lemma BeginsGreen(crossing: Crossing, signal: Snapshot)
    requires crossing.speed != 0.0 && LetsBegin(crossing, signal)
    ensures signal.aspect == Green
  {
  }

  /** A trip takes less simulated time than the countdown that let it start. */
  lemma {:induction false} TripFitsCountdown(crossing: Crossing, w: Walker, ticks: seq<TimedTick>, signal: Snapshot)
    requires ValidCrossing(crossing) && OneTrip(crossing, w, ticks) && LetsBegin(crossing, signal)
    ensures signal.remainingNs != 0 ==> Nanoseconds(ticks) < signal.remainingNs
  {
    hide Walk, Stride, Walked, CanBegin;
    var n := |ticks| - 1;
    var before := ticks[..n];
    if n > 0 {
      assert forall k :: 0 < k < n ==> before[..k] == ticks[..k];
      StillCrossingHasTime(crossing, w, before);
    } else {
      PositiveQuotient(crossing.length, crossing.speed);
    }
    ClockIsNotAhead(before);
    if signal.remainingNs != 0 {
      ClockFits(Nanoseconds(before), ticks[n].stepNs, Seconds(before), ticks[n].tick.dt,
        crossing.length / crossing.speed, signal.remainingNs);
    }
  }

  lemma ClockFits(beforeNs: int, stepNs: int, seconds: real, dt: real, walk: real, remainingNs: int)
    requires beforeNs as real <= seconds * NANOSECONDS_PER_SECOND && seconds < walk
    requires stepNs as real <= dt * NANOSECONDS_PER_SECOND && dt <= CROSSING_CLEARANCE_S
    requires remainingNs as real / NANOSECONDS_PER_SECOND >= walk + CROSSING_CLEARANCE_S
    ensures beforeNs + stepNs < remainingNs
  {
  }

  // ---- Who may set out ----

  lemma AtLeastInSeconds(remainingNs: int, seconds: real)
    ensures remainingNs as real / NANOSECONDS_PER_SECOND >= seconds
       <==> remainingNs as real >= seconds * NANOSECONDS_PER_SECOND
  {
  }

  /**
   * A pedestrian lamp lets a walker set out exactly when it belongs to the crossing and shows WALK for the whole of the
   * walking time and the clearance.
   */
  lemma {:induction false} LampLetsBeginExactly(plan: Plan, crossing: Crossing, startNs: int, signal: Snapshot)
    requires ValidPhases(plan.phases) && ValidCrossing(crossing)
    requires CountdownExact(plan, crossing.group, startNs, Signal(signal.aspect, signal.remainingNs))
    ensures LetsBegin(crossing, signal)
       <==> && signal.kind == SignalKind.Pedestrian && signal.controller == crossing.controller
            && signal.group == crossing.group
            && forall u: int :: 0 <= u - startNs && InWalkingTime(crossing, u - startNs) ==>
                 AspectAt(plan, crossing.group, u) == Green
  {
    hide AspectAt;
    PositiveQuotient(crossing.length, crossing.speed);
    AtLeastInSeconds(signal.remainingNs, RequiredWalkSeconds(crossing));
    assert InWalkingTime(crossing, 0);
    assert 0 <= startNs - startNs && InWalkingTime(crossing, startNs - startNs);
    var end := startNs + signal.remainingNs;
    assert end - startNs == signal.remainingNs;
  }

  /** The instant lies within the walking time and the clearance. */
  predicate InWalkingTime(crossing: Crossing, elapsedNs: int)
    requires crossing.speed != 0.0
  {
    elapsedNs as real < (crossing.length / crossing.speed + 0.2) * 1000000000.0
  }

  /** Whoever is let begin really sets out, in the direction of the far end. */
  lemma {:induction false} WhoMayBeginSetsOut(crossing: Crossing, w: Walker, tick: WalkTick)
    requires ValidCrossing(crossing) && WalkInvariant(w) && tick.dt > 0.0
    requires tick.footing.Free? && tick.allowsDriving && (w.crossing || CanBegin(crossing, tick.signals))
    ensures var next := Walk(crossing, w, tick);
      && Covered(w, next) == Min(Stride(crossing, tick.dt), Abs(FarEnd(w.direction) - w.progress)) > 0.0
      && (next.crossing || next.progress == FarEnd(w.direction))
  {
    NextByStride(crossing, w, tick.dt);
    StridePositive(crossing, tick.dt);
    hide NextProgress, Stride, CanBegin;
  }

  // ---- Clearing the road on red ----

  /** A tick in which no lamp lets the walker set out. */
  ghost predicate IsRed(crossing: Crossing, tick: WalkTick)
    requires ValidCrossing(crossing)
  {
    tick.dt > 0.0 && !CanBegin(crossing, tick.signals)
  }

  function Ran(crossing: Crossing, w: Walker, ticks: seq<WalkTick>): Walker
    requires crossing.length != 0.0 && crossing.speed != 0.0
  {
    if ticks == [] then w else Walk(crossing, Ran(crossing, w, ticks[..|ticks| - 1]), ticks[|ticks| - 1])
  }

  predicate Strides(tick: WalkTick) {
    tick.footing.Free? && tick.allowsDriving
  }

  /** The time in which the walker was free to walk. */
  function FreeSeconds(ticks: seq<WalkTick>): real {
    if ticks == [] then 0.0
    else FreeSeconds(ticks[..|ticks| - 1]) + if Strides(ticks[|ticks| - 1]) then ticks[|ticks| - 1].dt else 0.0
  }

  /** The ground was missing in some tick that found the walker on the road. */
  ghost predicate LosesGround(crossing: Crossing, w: Walker, ticks: seq<WalkTick>)
    requires ValidCrossing(crossing)
  {
    ticks != []
    && (LosesGround(crossing, w, ticks[..|ticks| - 1])
        || (ticks[|ticks| - 1].footing.NoGround? && Ran(crossing, w, ticks[..|ticks| - 1]).crossing))
  }

  /** Standing in the road, and no longer crossing it. */
  predicate Stranded(w: Walker) {
    !w.crossing && 0.0 < w.progress < 1.0
  }

  /** Still crossing with all of the free time walked, or arrived at the far end and turned around. */
  ghost predicate Clears(crossing: Crossing, from: Walker, to: Walker, seconds: real)
    requires ValidCrossing(crossing)
  {
    && WalkInvariant(to)
    && if to.crossing then to.direction == from.direction && Covered(from, to) == Stride(crossing, seconds)
       else to.progress == FarEnd(from.direction) && to.direction == -from.direction
  }

  /** One tick of a walker on the road: it goes on crossing, or arrives, exactly unless the ground is missing. */
  lemma {:induction false} GroundLossStopsTheCrossing(crossing: Crossing, w: Walker, tick: WalkTick)
    requires ValidCrossing(crossing) && WalkInvariant(w) && w.crossing && tick.dt > 0.0
    ensures var next := Walk(crossing, w, tick);
      && (next.crossing || next.progress == FarEnd(w.direction) <==> !tick.footing.NoGround?)
      && (tick.footing.NoGround? ==> Stranded(next))
  {
    NextByStride(crossing, w, tick.dt);
    StridePositive(crossing, tick.dt);
    hide NextProgress, Stride, CanBegin;
  }

  lemma {:induction false} RedTick(crossing: Crossing, from: Walker, w: Walker, seconds: real, tick: WalkTick)
    requires ValidCrossing(crossing) && WalkInvariant(from) && IsRed(crossing, tick)
    requires Clears(crossing, from, w, seconds) && !(w.crossing && tick.footing.NoGround?)
    ensures Clears(crossing, from, Walk(crossing, w, tick), seconds + if Strides(tick) then tick.dt else 0.0)
  {
    NextByStride(crossing, w, tick.dt);
    StridesAdd(crossing, seconds, tick.dt);
    StridePositive(crossing, tick.dt);
    hide NextProgress, Stride, CanBegin;
  }

  lemma {:induction false} StrandedStays(crossing: Crossing, w: Walker, tick: WalkTick)
    requires ValidCrossing(crossing) && Stranded(w) && IsRed(crossing, tick)
    ensures Walk(crossing, w, tick) == w
  {
    hide NextProgress, CanBegin;
  }

  lemma {:induction false} RedRun(crossing: Crossing, w: Walker, ticks: seq<WalkTick>)
    requires ValidCrossing(crossing) && WalkInvariant(w) && w.crossing
    requires forall k :: 0 <= k < |ticks| ==> IsRed(crossing, ticks[k])
    ensures if LosesGround(crossing, w, ticks) then Stranded(Ran(crossing, w, ticks))
            else Clears(crossing, w, Ran(crossing, w, ticks), FreeSeconds(ticks))
  {
    hide Walk, IsRed, Stride, Clears;
    if ticks == [] {
      NothingWalked(crossing, w);
    } else {
      var most, last := ticks[..|ticks| - 1], ticks[|ticks| - 1];
      var before := Ran(crossing, w, most);
      RedRun(crossing, w, most);
      if LosesGround(crossing, w, most) {
        StrandedStays(crossing, before, last);
      } else if before.crossing && last.footing.NoGround? {
        ClearingIsValid(crossing, w, before, FreeSeconds(most), last);
        GroundLossStopsTheCrossing(crossing, before, last);
      } else {
        RedTick(crossing, w, before, FreeSeconds(most), last);
      }
    }
  }

  lemma ClearingIsValid(crossing: Crossing, from: Walker, to: Walker, seconds: real, tick: WalkTick)
    requires ValidCrossing(crossing) && Clears(crossing, from, to, seconds) && IsRed(crossing, tick)
    ensures WalkInvariant(to) && tick.dt > 0.0
  {
  }

  lemma {:induction false} NothingWalked(crossing: Crossing, w: Walker)
    requires ValidCrossing(crossing) && WalkInvariant(w) && w.crossing
    ensures Clears(crossing, w, w, 0.0)
  {
    NoTime(crossing);
    hide Stride;
  }

  /**
   * Someone who is crossing clears the road on red exactly unless the ground is missing once on the way: then the
   * walker stays where it was, in the road, for as long as no lamp lets it set out again.
   */
  lemma {:induction false} ClearsTheRoadOnRed(crossing: Crossing, w: Walker, ticks: seq<WalkTick>)
    requires ValidCrossing(crossing) && WalkInvariant(w) && w.crossing
    requires forall k :: 0 <= k < |ticks| ==> IsRed(crossing, ticks[k])
    ensures var end := Ran(crossing, w, ticks);
      && (end.crossing || end.progress == FarEnd(w.direction) <==> !LosesGround(crossing, w, ticks))
      && (LosesGround(crossing, w, ticks) ==> Stranded(end))
      && (!LosesGround(crossing, w, ticks) && FreeSeconds(ticks) >= crossing.length / crossing.speed ==> !end.crossing)
  {
    hide Ran, LosesGround, IsRed, Stride;
    RedRun(crossing, w, ticks);
    WholeStride(crossing, FreeSeconds(ticks));
  }

  /** One tick without ground, and the walker stands in the road through all of the red that follows. */
  lemma {:induction false} OneGapStrands(crossing: Crossing, w: Walker, gap: WalkTick, ticks: seq<WalkTick>)
    requires ValidCrossing(crossing) && WalkInvariant(w) && w.crossing && gap.dt > 0.0 && gap.footing.NoGround?
    requires forall k :: 0 <= k < |ticks| ==> IsRed(crossing, ticks[k])
    ensures Ran(crossing, Walk(crossing, w, gap), ticks) == w.(crossing := false)
    ensures Stranded(w.(crossing := false))
  {
    hide IsRed;
    if ticks != [] {
      OneGapStrands(crossing, w, gap, ticks[..|ticks| - 1]);
      StrandedStays(crossing, w.(crossing := false), ticks[|ticks| - 1]);
    }
  }
}
