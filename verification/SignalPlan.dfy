/** Signal aspects on an integer-nanosecond clock, with a countdown to the next change of aspect. */
module SignalPlan {
  import opened Options

  const SECOND_NS: int := 1_000_000_000
  const LEGACY_CYCLE_NS: int := 30 * SECOND_NS

  /** Numbered on the wire as 0, 1, 2 and 3. */
  datatype SignalAspect = Unknown | Red | Yellow | Green

  datatype Phase = Phase(durationNs: int, green: set<int>, yellow: set<int>)
  datatype Plan = Plan(offsetNs: int, phases: seq<Phase>)
  datatype Signal = Signal(aspect: SignalAspect, remainingNs: int)

  ghost predicate ValidPhases(phases: seq<Phase>) {
    phases != [] && forall i :: 0 <= i < |phases| ==> phases[i].durationNs > 0
  }

  /** The instant at which phase `i` starts within its cycle. */
  function Start(phases: seq<Phase>, i: nat): int
    requires i <= |phases|
  {
    if i == 0 then 0 else Start(phases, i - 1) + phases[i - 1].durationNs
  }

  function Cycle(phases: seq<Phase>): int {
    Start(phases, |phases|)
  }

  lemma {:induction false} StartsIncrease(phases: seq<Phase>, i: nat, j: nat)
    requires ValidPhases(phases) && i <= j <= |phases|
    ensures 0 <= Start(phases, i) <= Start(phases, j) && (i < j ==> Start(phases, i) < Start(phases, j))
  {
    if i < j {
      StartsIncrease(phases, i, j - 1);
    } else if i > 0 {
      StartsIncrease(phases, i - 1, j - 1);
    }
  }

  function AspectIn(phase: Phase, group: int): SignalAspect {
    if group in phase.green then Green else if group in phase.yellow then Yellow else Red
  }

  // ---- What the aspect at an instant means ----

  ghost predicate InPhase(phases: seq<Phase>, position: int, i: nat) {
    i < |phases| && Start(phases, i) <= position < Start(phases, i + 1)
  }

  lemma {:induction false} SomePhase(phases: seq<Phase>, position: int, n: nat)
    requires ValidPhases(phases) && n <= |phases| && 0 <= position < Start(phases, n)
    ensures exists i: nat :: InPhase(phases, position, i)
  {
    if n > 0 && position < Start(phases, n - 1) {
      SomePhase(phases, position, n - 1);
    } else {
      assert InPhase(phases, position, n - 1);
    }
  }

  lemma {:induction false} OnlyPhase(phases: seq<Phase>, position: int, i: nat, j: nat)
    requires ValidPhases(phases) && InPhase(phases, position, i) && InPhase(phases, position, j)
    ensures i == j
  {
    if i < j {
      StartsIncrease(phases, i + 1, j);
    } else if j < i {
      StartsIncrease(phases, j + 1, i);
    }
  }

  ghost function PhaseAt(phases: seq<Phase>, position: int): (i: nat)
    requires ValidPhases(phases) && 0 <= position < Cycle(phases)
    ensures InPhase(phases, position, i)
  {
    SomePhase(phases, position, |phases|);
    var i: nat :| InPhase(phases, position, i);
    i
  }

  ghost function Position(plan: Plan, time: int): (position: int)
    requires ValidPhases(plan.phases)
    ensures 0 <= position < Cycle(plan.phases)
  {
    StartsIncrease(plan.phases, 0, |plan.phases|);
    (time + plan.offsetNs) % Cycle(plan.phases)
  }

  /** The aspect of the one phase that covers the instant. */
  ghost function AspectAt(plan: Plan, group: int, time: int): SignalAspect
    requires ValidPhases(plan.phases)
  {
    AspectIn(plan.phases[PhaseAt(plan.phases, Position(plan, time))], group)
  }

  /** An exact countdown: unchanged before `remaining`, different at it, and zero exactly when nothing ever changes. */
  ghost predicate CountdownExact(plan: Plan, group: int, time: int, signal: Signal)
    requires ValidPhases(plan.phases)
  {
    && signal.remainingNs >= 0 && signal.aspect == AspectAt(plan, group, time)
    && (forall u :: time <= u < time + signal.remainingNs ==> AspectAt(plan, group, u) == signal.aspect)
    && (signal.remainingNs > 0 ==> AspectAt(plan, group, time + signal.remainingNs) != signal.aspect)
    && (signal.remainingNs == 0 ==> forall u :: AspectAt(plan, group, u) == signal.aspect)
  }

  /** There is only one exact countdown. */
  lemma {:induction false} CountdownIsUnique(plan: Plan, group: int, time: int, first: Signal, second: Signal)
    requires ValidPhases(plan.phases)
    requires CountdownExact(plan, group, time, first) && CountdownExact(plan, group, time, second)
    ensures first == second
  {
    hide AspectAt;
    assert AspectAt(plan, group, time + first.remainingNs) == AspectAt(plan, group, time + first.remainingNs);
    assert AspectAt(plan, group, time + second.remainingNs) == AspectAt(plan, group, time + second.remainingNs);
  }

  // ---- Modular arithmetic ----

  lemma {:induction false} RemainderIs(x: int, c: int, q: int, r: int)
    requires c > 0 && x == c * q + r && 0 <= r < c
    ensures x % c == r
  {
    var d := q - x / c;
    assert c * d == x % c - r;
    MultipleBound(c, d);
  }

  lemma MultipleBound(c: int, d: int)
    requires c > 0
    ensures d >= 1 ==> c * d >= c
    ensures d <= -1 ==> c * d <= -c
  {
  }

  /** Moving forward by less than the rest of the cycle adds to the remainder; completing it gives zero. */
  lemma {:induction false} RemainderMoves(x: int, d: int, c: int)
    requires c > 0 && d >= 0 && x % c + d <= c
    ensures (x + d) % c == if x % c + d == c then 0 else x % c + d
  {
    if x % c + d == c {
      RemainderIs(x + d, c, x / c + 1, 0);
    } else {
      RemainderIs(x + d, c, x / c, x % c + d);
    }
  }

  lemma {:induction false} NestedRemainder(x: int, y: int, c: int)
    requires c > 0
    ensures (x % c + y) % c == (x + y) % c
  {
    var z := x % c + y;
    RemainderIs(x + y, c, x / c + z / c, z % c);
  }

  lemma {:induction false} PositionMoves(plan: Plan, time: int, d: int)
    requires ValidPhases(plan.phases) && 0 <= d <= Cycle(plan.phases) - Position(plan, time)
    ensures Position(plan, time + d) == if Position(plan, time) + d == Cycle(plan.phases) then 0
      else Position(plan, time) + d
  {
    StartsIncrease(plan.phases, 0, |plan.phases|);
    RemainderMoves(time + plan.offsetNs, d, Cycle(plan.phases));
  }

  /** The aspect stays that of phase `i` until the phase ends. */
  lemma {:induction false} AspectDuringPhase(plan: Plan, group: int, time: int, i: nat, u: int)
    requires ValidPhases(plan.phases) && InPhase(plan.phases, Position(plan, time), i)
    requires time <= u < time + (Start(plan.phases, i + 1) - Position(plan, time))
    ensures AspectAt(plan, group, u) == AspectIn(plan.phases[i], group)
  {
    StartsIncrease(plan.phases, i + 1, |plan.phases|);
    PositionMoves(plan, time, u - time);
    OnlyPhase(plan.phases, Position(plan, u), i, PhaseAt(plan.phases, Position(plan, u)));
  }

  /** A whole cycle later the aspect is the same. */
  lemma {:induction false} AspectRepeats(plan: Plan, group: int, time: int)
    requires ValidPhases(plan.phases)
    ensures AspectAt(plan, group, time + Cycle(plan.phases)) == AspectAt(plan, group, time)
  {
    var c := Cycle(plan.phases);
    StartsIncrease(plan.phases, 0, |plan.phases|);
    RemainderIs(time + c + plan.offsetNs, c, (time + plan.offsetNs) / c + 1, (time + plan.offsetNs) % c);
  }

  /** An exact countdown is shorter than the cycle. */
  lemma {:induction false} CountdownIsBounded(plan: Plan, group: int, time: int, signal: Signal)
    requires ValidPhases(plan.phases) && CountdownExact(plan, group, time, signal)
    ensures signal.remainingNs < Cycle(plan.phases)
  {
    hide AspectAt;
    StartsIncrease(plan.phases, 0, |plan.phases|);
    if signal.remainingNs >= Cycle(plan.phases) {
      AspectRepeats(plan, group, time + signal.remainingNs - Cycle(plan.phases));
    }
  }

  // ---- The interpreter ----

  /** The phases passed so far, cyclically from `index` up to but excluding `following`, all show `current`. */
  ghost predicate PassedShow(phases: seq<Phase>, group: int, index: nat, following: nat, current: SignalAspect)
  {
    forall i ::
      (0 <= i < |phases| && if following > index then index <= i < following else i >= index || i < following)
      ==> AspectIn(phases[i], group) == current
  }

  /** Finds the current phase, then walks forward over the phases that show the same aspect. */
  method PlannedSignal(plan: Plan, group: int, elapsedNs: int) returns (signal: Signal)
    requires ValidPhases(plan.phases)
    ensures CountdownExact(plan, group, elapsedNs, signal)
  {
    hide AspectAt, PhaseAt, Position, AspectIn;
    var phases := plan.phases;
    var cycle := Cycle(phases);
    StartsIncrease(phases, 0, |phases|);
    NestedRemainder(elapsedNs, plan.offsetNs, cycle);
    var position := (elapsedNs % cycle + plan.offsetNs) % cycle;
    PositionIs(plan, elapsedNs);
    var start, index := 0, 0;
    while index < |phases| - 1 && position >= start + phases[index].durationNs
      invariant 0 <= index < |phases| && start == Start(phases, index) && start <= position
    {
      start := start + phases[index].durationNs;
      index := index + 1;
    }
    assert InPhase(phases, position, index);
    var current := AspectIn(phases[index], group);
    var remaining := phases[index].durationNs - (position - start);
    forall u | elapsedNs <= u < elapsedNs + remaining
      ensures AspectAt(plan, group, u) == current
    {
      AspectDuringPhase(plan, group, elapsedNs, index, u);
    }
    var following := if index + 1 == |phases| then 0 else index + 1;
    PhaseEnd(plan, elapsedNs, index);
    while following != index && AspectIn(phases[following], group) == current
      invariant 0 <= following < |phases| && remaining > 0 && PassedShow(phases, group, index, following, current)
      invariant Position(plan, elapsedNs + remaining) == Start(phases, following)
      invariant forall u :: elapsedNs <= u < elapsedNs + remaining ==> AspectAt(plan, group, u) == current
      decreases if following > index then |phases| - following + index else index - following
    {
      var reached := elapsedNs + remaining;
      StartsIncrease(phases, following, following + 1);
      assert InPhase(phases, Position(plan, reached), following);
      forall u | reached <= u < reached + phases[following].durationNs
        ensures AspectAt(plan, group, u) == current
      {
        AspectDuringPhase(plan, group, reached, following, u);
      }
      PhaseEnd(plan, reached, following);
      remaining := remaining + phases[following].durationNs;
      following := if following + 1 == |phases| then 0 else following + 1;
    }
    StartsIncrease(phases, following, following + 1);
    AspectDuringPhase(plan, group, elapsedNs + remaining, following, elapsedNs + remaining);
    if following == index && AspectIn(phases[following], group) == current {
      remaining := 0;
      forall u
        ensures AspectAt(plan, group, u) == current
      {
        SomeAspect(plan, group, u);
      }
    }
    signal := Signal(current, remaining);
  }

  lemma {:induction false} PositionIs(plan: Plan, time: int)
    requires ValidPhases(plan.phases)
    ensures Cycle(plan.phases) > 0 && Position(plan, time) == (time + plan.offsetNs) % Cycle(plan.phases)
  {
    StartsIncrease(plan.phases, 0, |plan.phases|);
  }

  /** At the end of a phase the position is the start of the next one. */
  lemma {:induction false} PhaseEnd(plan: Plan, time: int, i: nat)
    requires ValidPhases(plan.phases) && InPhase(plan.phases, Position(plan, time), i)
    ensures var next := if i + 1 == |plan.phases| then 0 else i + 1;
      Position(plan, time + (Start(plan.phases, i + 1) - Position(plan, time))) == Start(plan.phases, next)
  {
    StartsIncrease(plan.phases, i + 1, |plan.phases|);
    PositionMoves(plan, time, Start(plan.phases, i + 1) - Position(plan, time));
  }

  lemma {:induction false} SomeAspect(plan: Plan, group: int, time: int)
    requires ValidPhases(plan.phases)
    ensures exists i :: 0 <= i < |plan.phases| && AspectAt(plan, group, time) == AspectIn(plan.phases[i], group)
  {
    var i := PhaseAt(plan.phases, Position(plan, time));
    assert AspectAt(plan, group, time) == AspectIn(plan.phases[i], group);
  }

  // ---- The legacy two-group plan ----

  /** All red 2 s, group 1 green 12 s and yellow 3 s, all red 2 s, group 2 green 8 s and yellow 3 s. */
  const LEGACY_PLAN := Plan(0, [
    Phase(2 * SECOND_NS, {}, {}), Phase(12 * SECOND_NS, {1}, {}), Phase(3 * SECOND_NS, {}, {1}),
    Phase(2 * SECOND_NS, {}, {}), Phase(8 * SECOND_NS, {2}, {}), Phase(3 * SECOND_NS, {}, {2})])

  function ExpectedPhase(group: int, elapsedNs: int): Signal {
    var phase := elapsedNs % LEGACY_CYCLE_NS;
    if group == 1 then
      if phase < 2 * SECOND_NS then Signal(Red, 2 * SECOND_NS - phase)
      else if phase < 14 * SECOND_NS then Signal(Green, 14 * SECOND_NS - phase)
      else if phase < 17 * SECOND_NS then Signal(Yellow, 17 * SECOND_NS - phase)
      else Signal(Red, LEGACY_CYCLE_NS - phase + 2 * SECOND_NS)
    else if phase < 19 * SECOND_NS then Signal(Red, 19 * SECOND_NS - phase)
    else if phase < 27 * SECOND_NS then Signal(Green, 27 * SECOND_NS - phase)
    else Signal(Yellow, LEGACY_CYCLE_NS - phase)
  }

  lemma {:induction false} LegacyStarts()
    ensures ValidPhases(LEGACY_PLAN.phases) && Cycle(LEGACY_PLAN.phases) == LEGACY_CYCLE_NS
    ensures var phases := LEGACY_PLAN.phases;
      && |phases| == 6 && Start(phases, 0) == 0 && Start(phases, 1) == 2 * SECOND_NS
      && Start(phases, 2) == 14 * SECOND_NS
      && Start(phases, 3) == 17 * SECOND_NS && Start(phases, 4) == 19 * SECOND_NS && Start(phases, 5) == 27 * SECOND_NS
      && Start(phases, 6) == 30 * SECOND_NS
  {
    var phases := LEGACY_PLAN.phases;
    assert Start(phases, 1) == 2 * SECOND_NS;
    assert Start(phases, 2) == 14 * SECOND_NS;
    assert Start(phases, 3) == 17 * SECOND_NS;
    assert Start(phases, 4) == 19 * SECOND_NS;
    assert Start(phases, 5) == 27 * SECOND_NS;
  }

  /** The legacy aspect at an instant, by its place in the cycle. */
  lemma {:induction false} LegacyAspect(group: int, time: int)
    requires group == 1 || group == 2
    ensures ValidPhases(LEGACY_PLAN.phases)
    ensures AspectAt(LEGACY_PLAN, group, time) == ExpectedPhase(group, time).aspect
  {
    hide Start, Cycle;
    LegacyStarts();
    var position := Position(LEGACY_PLAN, time);
    var i := PhaseAt(LEGACY_PLAN.phases, position);
    assert i == 0 || i == 1 || i == 2 || i == 3 || i == 4 || i == 5;
  }

  /** The hand-written formula is the exact countdown of the legacy plan. */
  lemma {:induction false} LegacyFormulaIsExact(group: int, time: int)
    requires group == 1 || group == 2
    ensures ValidPhases(LEGACY_PLAN.phases) && CountdownExact(LEGACY_PLAN, group, time, ExpectedPhase(group, time))
  {
    LegacyStarts();
    hide AspectAt, ValidPhases, ExpectedPhase;
    LegacyPositive(group, time);
    var signal := ExpectedPhase(group, time);
    forall u | time <= u <= time + signal.remainingNs
      ensures AspectAt(LEGACY_PLAN, group, u) == signal.aspect <==> u < time + signal.remainingNs
    {
      LegacyAspect(group, u);
      LegacyAhead(group, time, u - time);
    }
  }

  lemma LegacyPositive(group: int, time: int)
    ensures ExpectedPhase(group, time).remainingNs > 0
  {
  }

  /** The formula's aspect lasts for its countdown and no longer. */
  lemma {:induction false} LegacyAhead(group: int, time: int, d: int)
    requires group == 1 || group == 2
    requires 0 <= d <= ExpectedPhase(group, time).remainingNs
    ensures ExpectedPhase(group, time + d).aspect == ExpectedPhase(group, time).aspect
      <==> d < ExpectedPhase(group, time).remainingNs
  {
    var phase := time % LEGACY_CYCLE_NS;
    if phase + d < LEGACY_CYCLE_NS {
      RemainderIs(time + d, LEGACY_CYCLE_NS, time / LEGACY_CYCLE_NS, phase + d);
    } else {
      RemainderIs(time + d, LEGACY_CYCLE_NS, time / LEGACY_CYCLE_NS + 1, phase + d - LEGACY_CYCLE_NS);
    }
  }

  // ---- The whole expectation ----

  datatype Expectations = Expectations(formatVersion: int, plans: map<int, Plan>)

  ghost predicate ValidExpectations(expected: Expectations) {
    forall id :: id in expected.plans ==> ValidPhases(expected.plans[id].phases)
  }

  /** None stands for the error raised on a foreign controller or a missing plan. */
  method ExpectedSignal(expected: Expectations, controller: int, group: int, elapsedNs: int, active: bool)
    returns (signal: Option<Signal>)
    requires ValidExpectations(expected)
    ensures !active ==> signal == Some(Signal(Red, 0))
    ensures active && expected.formatVersion == 1 ==>
      signal == (if controller == 1 then Some(ExpectedPhase(group, elapsedNs)) else None)
    ensures active && expected.formatVersion != 1 ==>
      && (signal.Some? <==> controller in expected.plans)
      && (signal.Some? ==> CountdownExact(expected.plans[controller], group, elapsedNs, signal.value))
  {
    if !active {
      return Some(Signal(Red, 0));
    }
    if expected.formatVersion == 1 {
      return if controller == 1 then Some(ExpectedPhase(group, elapsedNs)) else None;
    }
    if controller !in expected.plans {
      return None;
    }
    var planned := PlannedSignal(expected.plans[controller], group, elapsedNs);
    signal := Some(planned);
  }
}
